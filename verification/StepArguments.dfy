/** internal/devlang/lower.go: arguments that a step gives to its parent. A node's arguments are used
    up by its step; an intermediate step's are used and then laid over the result as inputs too. */
module StepArguments {
  import opened Wrappers
  import opened Expr
  import opened Functions
  import opened Steps

  // ---- Expansion by hand ----

  /** The inputs of the first step of a chain that are not arguments of the second. */
  function OwnAlong(chain: seq<string>, steps: StepMap): Inputs
    requires chain != [] && forall i :: 0 <= i < |chain| ==> chain[i] in steps
  {
    if |chain| == 1 then steps[chain[0]].body.inputs else OwnInputs(steps[chain[0]].body, steps[chain[1]].params)
  }

  /** As Frames, with the arguments used up at every level and not only at the node's. */
  function ManualFrames(chain: seq<string>, params: map<string, Value>, steps: StepMap, lets: Lets,
      fuel: nat): seq<Frame>
    requires forall i :: 0 <= i < |chain| ==> chain[i] in steps
  {
    if chain == [] then []
    else
      [Frame(OwnAlong(chain, steps), params)] +
      if |chain| == 1 then []
      else
        var up := BindValues(steps[chain[1]].params, Frame(steps[chain[0]].body.inputs, params), lets, fuel);
        ManualFrames(chain[1..], up, steps, lets, fuel)
  }

  /** What an input means when the node's step, its parent and so on are written out by hand: its
      nearest definition that is not an argument, read where it stands. */
  function ManualInput(node: NodeDecl, chain: seq<string>, steps: StepMap, key: string, lets: Lets,
      fuel: nat): Option<Value>
    requires chain != [] && forall i :: 0 <= i < |chain| ==> chain[i] in steps
  {
    var params := steps[chain[0]].params;
    InputValue([Frame(OwnInputs(node, params), map[])]
               + ManualFrames(chain, BindValues(params, Frame(node.inputs, map[]), lets, fuel), steps, lets, fuel),
               key, lets, fuel)
  }

  /** The nearest step that gives the input at all gives it as an argument to its parent. */
  predicate Leaks(chain: seq<string>, steps: StepMap, key: string)
    requires forall i :: 0 <= i < |chain| ==> chain[i] in steps
  {
    if chain == [] then false
    else if key in steps[chain[0]].body.inputs then |chain| > 1 && IsParam(steps[chain[1]].params, key)
    else Leaks(chain[1..], steps, key)
  }

  lemma {:induction false} SameUnlessLeaks(chain: seq<string>, params: map<string, Value>, steps: StepMap, key: string,
      lets: Lets, fuel: nat)
    requires (forall i :: 0 <= i < |chain| ==> chain[i] in steps) && !Leaks(chain, steps, key)
    ensures InputValue(ManualFrames(chain, params, steps, lets, fuel), key, lets, fuel)
         == InputValue(Frames(chain, params, steps, lets, fuel), key, lets, fuel)
    decreases |chain|
  {
    if chain != [] {
      var f := Frame(steps[chain[0]].body.inputs, params);
      if |chain| > 1 {
        var up := BindValues(steps[chain[1]].params, f, lets, fuel);
        SkipFrame(f, Frames(chain[1..], up, steps, lets, fuel), key, lets, fuel);
        SkipFrame(Frame(OwnAlong(chain, steps), params), ManualFrames(chain[1..], up, steps, lets, fuel), key, lets,
            fuel);
        if key !in f.inputs { SameUnlessLeaks(chain[1..], up, steps, key, lets, fuel); }
      }
    }
  }

  lemma SkipFrame(f: Frame, rest: seq<Frame>, key: string, lets: Lets, fuel: nat)
    ensures InputValue([f] + rest, key, lets, fuel)
         == if key in f.inputs then Some(EvalUnder(f.inputs[key], f.params, lets, fuel))
             else InputValue(rest, key, lets, fuel)
  {
    assert ([f] + rest)[1..] == rest;
  }

  /** Where no argument leaks, expansion gives what expansion by hand gives. */
  lemma ExpandsAsByHand(node: NodeDecl, steps: StepMap, prims: set<string>, key: string, lets: Lets, fuel: nat,
      depth: nat)
    requires node.typ.Some? && node.typ.value in steps && ChainOf(node.typ.value, steps, prims, depth).Ok?
    requires var chain := ChainOf(node.typ.value, steps, prims, depth).value;
             key in OwnInputs(node, steps[node.typ.value].params) || !Leaks(chain, steps, key)
    ensures var chain := ChainOf(node.typ.value, steps, prims, depth).value;
            && ExpandNodeP(node, steps, prims, depth).Ok? && chain[0] == node.typ.value
            && EvalInput(ExpandNodeP(node, steps, prims, depth).value.inputs, key, lets, fuel)
               == ManualInput(node, chain, steps, key, lets, fuel)
  {
    var chain := ChainOf(node.typ.value, steps, prims, depth).value;
    var params := steps[node.typ.value].params;
    var up := BindValues(params, Frame(node.inputs, map[]), lets, fuel);
    var own := Frame(OwnInputs(node, params), map[]);
    NodeInputsMean(node, steps, prims, lets, fuel, depth);
    SkipFrame(own, Frames(chain, up, steps, lets, fuel), key, lets, fuel);
    SkipFrame(own, ManualFrames(chain, up, steps, lets, fuel), key, lets, fuel);
    if key !in own.inputs { SameUnlessLeaks(chain, up, steps, key, lets, fuel); }
  }

  // ---- The condition is exact ----

  /** Steps that differ only in the expressions they give. */
  ghost predicate SameShape(steps: StepMap, other: StepMap) {
    && other.Keys == steps.Keys
    && forall n :: n in steps ==>
         && other[n].params == steps[n].params && other[n].body.typ == steps[n].body.typ
         && other[n].body.inputs.Keys == steps[n].body.inputs.Keys
  }

  lemma {:induction false} SameChain(name: string, steps: StepMap, other: StepMap, prims: set<string>, depth: nat)
    requires name in steps && SameShape(steps, other)
    ensures ChainOf(name, other, prims, depth) == ChainOf(name, steps, prims, depth)
    decreases depth
  {
    var typ := steps[name].body.typ;
    if typ.Some? && typ.value !in prims && typ.value in steps && depth > 0 {
      SameChain(typ.value, steps, other, prims, depth - 1);
    }
  }

  lemma {:induction false} SameLeaks(chain: seq<string>, steps: StepMap, other: StepMap, key: string)
    requires (forall i :: 0 <= i < |chain| ==> chain[i] in steps) && SameShape(steps, other)
    ensures Leaks(chain, other, key) == Leaks(chain, steps, key)
    decreases |chain|
  {
    if chain != [] && key !in steps[chain[0]].body.inputs { SameLeaks(chain[1..], steps, other, key); }
  }

  /** Each step gives its own number for every input. */
  function Numbered(steps: StepMap, number: map<string, int>): StepMap
    requires steps.Keys <= number.Keys
  {
    map n | n in steps ::
      steps[n].(body := steps[n].body.(inputs := map k | k in steps[n].body.inputs :: Num(number[n])))
  }

  ghost predicate Descends(chain: seq<string>, number: map<string, int>) {
    && (forall i :: 0 <= i < |chain| ==> chain[i] in number)
    && forall i, j :: 0 <= i < j < |chain| ==> number[chain[i]] > number[chain[j]]
  }

  /** With numbered steps, what is read along a chain by hand is the number of a step on it. */
  lemma {:induction false} ManualIsBelow(chain: seq<string>, params: map<string, Value>, steps: StepMap,
      number: map<string, int>, key: string, lets: Lets, fuel: nat, bound: int)
    requires (forall i :: 0 <= i < |chain| ==> chain[i] in steps) && steps.Keys <= number.Keys
      && Descends(chain, number)
    requires chain != [] ==> number[chain[0]] < bound
    ensures var v := InputValue(ManualFrames(chain, params, Numbered(steps, number), lets, fuel), key, lets, fuel);
            v.Some? ==> v.value.Ok? && v.value.value.Num? && v.value.value.n < bound
    decreases |chain|
  {
    if chain != [] {
      var ns := Numbered(steps, number);
      var own := Frame(OwnAlong(chain, ns), params);
      if |chain| == 1 {
        SkipFrame(own, [], key, lets, fuel);
      } else {
        var up := BindValues(ns[chain[1]].params, Frame(ns[chain[0]].body.inputs, params), lets, fuel);
        SkipFrame(own, ManualFrames(chain[1..], up, ns, lets, fuel), key, lets, fuel);
        ManualIsBelow(chain[1..], up, steps, number, key, lets, fuel, bound);
      }
    }
  }

  /** So a leak shows: the argument's number against a smaller one, or none. */
  lemma {:induction false} LeakShows(chain: seq<string>, params: map<string, Value>, steps: StepMap,
      number: map<string, int>, key: string, lets: Lets, fuel: nat)
    requires (forall i :: 0 <= i < |chain| ==> chain[i] in steps) && steps.Keys <= number.Keys
      && Descends(chain, number)
    requires Leaks(chain, steps, key)
    ensures var ns := Numbered(steps, number);
            InputValue(ManualFrames(chain, params, ns, lets, fuel), key, lets, fuel)
            != InputValue(Frames(chain, params, ns, lets, fuel), key, lets, fuel)
    decreases |chain|
  {
    var ns := Numbered(steps, number);
    var f, own := Frame(ns[chain[0]].body.inputs, params), Frame(OwnAlong(chain, ns), params);
    if |chain| > 1 {
      var up := BindValues(ns[chain[1]].params, f, lets, fuel);
      SkipFrame(f, Frames(chain[1..], up, ns, lets, fuel), key, lets, fuel);
      SkipFrame(own, ManualFrames(chain[1..], up, ns, lets, fuel), key, lets, fuel);
      if key in f.inputs {
        ManualIsBelow(chain[1..], up, steps, number, key, lets, fuel, number[chain[0]]);
      } else {
        LeakShows(chain[1..], up, steps, number, key, lets, fuel);
      }
    }
  }

  /** How far a step is from the primitive behind it. */
  function Distance(name: string, steps: StepMap, prims: set<string>, depth: nat): nat
    requires name in steps
  {
    var c := ChainOf(name, steps, prims, depth);
    if c.Ok? then |c.value| else 0
  }

  lemma {:induction false} ChainDescends(name: string, steps: StepMap, prims: set<string>, depth: nat, more: nat)
    requires name in steps && ChainOf(name, steps, prims, depth).Ok? && depth <= more
    ensures var number := map n | n in steps :: Distance(n, steps, prims, more);
            var chain := ChainOf(name, steps, prims, depth).value;
            Descends(chain, number) && number[chain[0]] == |chain| && chain[0] == name
    decreases depth
  {
    DeeperChainAgrees(name, steps, prims, depth, more);
    var typ := steps[name].body.typ.value;
    if typ !in prims {
      ChainDescends(typ, steps, prims, depth - 1, more);
      var rest := ChainOf(typ, steps, prims, depth - 1).value;
      var number := map n | n in steps :: Distance(n, steps, prims, more);
      var chain := [name] + rest;
      forall i, j | 0 <= i < j < |chain| ensures number[chain[i]] > number[chain[j]] {
        assert chain[j] == rest[j - 1];
        if i > 0 { assert chain[i] == rest[i - 1]; }
      }
    }
  }

  ghost predicate ByHand(node: NodeDecl, steps: StepMap, prims: set<string>, key: string, lets: Lets, fuel: nat,
      depth: nat)
    requires node.typ.Some? && node.typ.value in steps && ChainOf(node.typ.value, steps, prims, depth).Ok?
  {
    var r := ExpandNodeP(node, steps, prims, depth);
    r.Ok? && EvalInput(r.value.inputs, key, lets, fuel)
             == ManualInput(node, ChainOf(node.typ.value, steps, prims, depth).value, steps, key, lets, fuel)
  }

  /** Whatever expressions these steps give, the input comes out as by hand. */
  ghost predicate AlwaysByHand(node: NodeDecl, steps: StepMap, prims: set<string>, key: string, lets: Lets, fuel: nat,
      depth: nat)
    requires node.typ.Some? && node.typ.value in steps && ChainOf(node.typ.value, steps, prims, depth).Ok?
  {
    forall other | SameShape(steps, other) ::
      (SameChain(node.typ.value, steps, other, prims, depth); ByHand(node, other, prims, key, lets, fuel, depth))
  }

  /** Exactly when steps expand as by hand: over all expressions the steps may give, an input of the
      expanded node means what it means by hand if and only if the node gives it itself or the nearest
      step that gives it does not give it as an argument to its parent. */
  lemma ArgumentsLeak(node: NodeDecl, steps: StepMap, prims: set<string>, key: string, lets: Lets, fuel: nat,
      depth: nat)
    requires node.typ.Some? && node.typ.value in steps && ChainOf(node.typ.value, steps, prims, depth).Ok?
    ensures AlwaysByHand(node, steps, prims, key, lets, fuel, depth)
       <==> key in OwnInputs(node, steps[node.typ.value].params)
            || !Leaks(ChainOf(node.typ.value, steps, prims, depth).value, steps, key)
  {
    var chain := ChainOf(node.typ.value, steps, prims, depth).value;
    if key in OwnInputs(node, steps[node.typ.value].params) || !Leaks(chain, steps, key) {
      forall other | SameShape(steps, other)
        ensures (SameChain(node.typ.value, steps, other, prims, depth);
                 ByHand(node, other, prims, key, lets, fuel, depth))
      {
        SameChain(node.typ.value, steps, other, prims, depth);
        SameLeaks(chain, steps, other, key);
        ExpandsAsByHand(node, other, prims, key, lets, fuel, depth);
      }
    } else {
      var number := map n | n in steps :: Distance(n, steps, prims, depth);
      var other := Numbered(steps, number);
      ChainDescends(node.typ.value, steps, prims, depth, depth);
      assert SameShape(steps, other);
      SameChain(node.typ.value, steps, other, prims, depth);
      LeakIsSeen(node, steps, number, prims, key, lets, fuel, depth);
    }
  }

  lemma LeakIsSeen(node: NodeDecl, steps: StepMap, number: map<string, int>, prims: set<string>, key: string,
      lets: Lets, fuel: nat, depth: nat)
    requires node.typ.Some? && node.typ.value in steps && steps.Keys <= number.Keys
    requires var other := Numbered(steps, number);
             && SameShape(steps, other) && ChainOf(node.typ.value, other, prims, depth).Ok?
             && ChainOf(node.typ.value, other, prims, depth) == ChainOf(node.typ.value, steps, prims, depth)
             && ChainOf(node.typ.value, steps, prims, depth).value[0] == node.typ.value
    requires var chain := ChainOf(node.typ.value, steps, prims, depth).value;
             Descends(chain, number) && Leaks(chain, steps, key)
    requires key !in OwnInputs(node, steps[node.typ.value].params)
    ensures !ByHand(node, Numbered(steps, number), prims, key, lets, fuel, depth)
  {
    var other, chain := Numbered(steps, number), ChainOf(node.typ.value, steps, prims, depth).value;
    var params := other[node.typ.value].params;
    var up := BindValues(params, Frame(node.inputs, map[]), lets, fuel);
    var own := Frame(OwnInputs(node, params), map[]);
    NodeInputsMean(node, other, prims, lets, fuel, depth);
    SkipFrame(own, Frames(chain, up, other, lets, fuel), key, lets, fuel);
    SkipFrame(own, ManualFrames(chain, up, other, lets, fuel), key, lets, fuel);
    LeakShows(chain, up, steps, number, key, lets, fuel);
  }

  // ---- Wrapping a call ----

  const PATH := "path"

  /** A step with a parameter that it puts a prefix to, and a step that only calls it. */
  function Wrapping(prim: string, prefix: string, s: string): StepMap {
    map["parent" := Step([Param(PATH, None)],
                         NodeDecl("parent", Some(prim), [], [], map[PATH := Bin(Str(prefix), Add, Ident(PATH))], None)),
        "child" := Step([], NodeDecl("child", Some("parent"), [], [], map[PATH := Str(s)], None))]
  }

  /** A node that gives the path itself gets it with the prefix; through the wrapping step, which
      gives the same path, it gets it without. */
  lemma WrappingChangesMeaning(name: string, prim: string, prefix: string, s: string, lets: Lets, fuel: nat, depth: nat)
    requires prim != "parent" && prim != "child" && depth > 0
    ensures var steps := Wrapping(prim, prefix, s);
            var direct := NodeDecl(name, Some("parent"), [], [], map[PATH := Str(s)], None);
            var wrapped := NodeDecl(name, Some("child"), [], [], map[], None);
            var d, w := ExpandNodeP(direct, steps, {prim}, depth), ExpandNodeP(wrapped, steps, {prim}, depth);
            && d.Ok? && EvalInput(d.value.inputs, PATH, lets, fuel) == Some(Ok(Str(prefix + s)))
            && w.Ok? && EvalInput(w.value.inputs, PATH, lets, fuel) == Some(Ok(Str(s)))
  {
    var steps := Wrapping(prim, prefix, s);
    ParentJoins(prim, prefix, s, depth);
    ParentJoins(prim, prefix, s, depth - 1);
    ChildHides(prim, prefix, s, depth);
    assert IsParam(steps["parent"].params, PATH) by { assert steps["parent"].params[0].name == PATH; }
    var given: Inputs := map[PATH := Str(s)];
    BindOne(given, s);
    assert Eval(Bin(Str(prefix), Add, Str(s)), lets, fuel) == Ok(Str(prefix + s));
  }

  lemma BindOne(given: Inputs, s: string)
    requires PATH in given && given[PATH] == Str(s)
    ensures BindParams([Param(PATH, None)], given) == map[PATH := Str(s)]
  {
    var ps := [Param(PATH, None)];
    assert ps[..|ps| - 1] == [] && BindParams([], given) == map[];
  }

  lemma ParentJoins(prim: string, prefix: string, s: string, depth: nat)
    requires prim != "parent" && prim != "child"
    ensures var r := ExpandStepP("parent", map[PATH := Str(s)], Wrapping(prim, prefix, s), {prim}, depth);
            r.Ok? && r.value.inputs == map[PATH := Bin(Str(prefix), Add, Str(s))]
  {
    var env: Bindings, e := map[PATH := Str(s)], Bin(Str(prefix), Add, Ident(PATH));
    assert SubstParams(Ident(PATH), env) == Str(s) && SubstParams(Str(prefix), env) == Str(prefix);
    assert SubstParams(e, env) == Bin(Str(prefix), Add, Str(s));
    assert SubstInputs(map[PATH := e], env) == map[PATH := Bin(Str(prefix), Add, Str(s))];
  }

  lemma ChildHides(prim: string, prefix: string, s: string, depth: nat)
    requires prim != "parent" && prim != "child" && depth > 0
    ensures var r := ExpandStepP("child", map[], Wrapping(prim, prefix, s), {prim}, depth);
            r.Ok? && r.value.inputs == map[PATH := Str(s)]
  {
    var inputs := SubstInputs(map[PATH := Str(s)], map[]);
    assert inputs == map[PATH := Str(s)];
    BindOne(inputs, s);
    ParentJoins(prim, prefix, s, depth - 1);
  }
}
