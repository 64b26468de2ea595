/** internal/devlang: step expansion. v0.5 (lower.go: expandStepRecursive with its cache) and
    v0.6 (with parameters), against the validator's claim that accepted steps expand. */
module Steps {
  import opened Wrappers
  import opened Digraph
  import CycleFinder
  import opened Expr
  import opened Types
  import opened Functions

  type Inputs = map<string, Expr>

  datatype NodeDecl = NodeDecl(name: string, typ: Option<string>, targets: seq<string>, dependsOn: seq<string>,
                               inputs: Inputs, policy: Option<string>)

  datatype Param = Param(name: string, fallback: Option<Expr>)

  datatype Step = Step(params: seq<Param>, body: NodeDecl)

  type StepMap = map<string, Step>

  /** Endless stands for recursion that goes on past the given depth. */
  datatype ExpandError = MissingType(step: string) | UnknownStep(step: string, typ: string) | Endless

  function Lookup<T>(m: map<string, T>, key: string): Option<T> {
    if key in m then Some(m[key]) else None
  }

  function OrElse<T>(a: Option<T>, b: Option<T>): Option<T> {
    if a.Some? then a else b
  }

  // ---- The chain of steps behind a step ----

  /** The steps from `name` up to the one whose body has a primitive type. */
  function ChainOf(name: string, steps: StepMap, prims: set<string>, depth: nat): (c: Result<seq<string>, ExpandError>)
    requires name in steps
    ensures c.Ok? ==> |c.value| > 0 && forall i :: 0 <= i < |c.value| ==> c.value[i] in steps
    decreases depth
  {
    var typ := steps[name].body.typ;
    if typ.None? then Err(MissingType(name))
    else if typ.value in prims then Ok([name])
    else if typ.value !in steps then Err(UnknownStep(name, typ.value))
    else if depth == 0 then Err(Endless)
    else
      match ChainOf(typ.value, steps, prims, depth - 1)
      case Err(x) => Err(x)
      case Ok(rest) => Ok([name] + rest)
  }

  lemma {:induction false} DeeperChainAgrees(name: string, steps: StepMap, prims: set<string>, depth: nat, more: nat)
    requires name in steps && depth <= more && ChainOf(name, steps, prims, depth) != Err(Endless)
    ensures ChainOf(name, steps, prims, more) == ChainOf(name, steps, prims, depth)
    decreases depth
  {
    var typ := steps[name].body.typ;
    if typ.Some? && typ.value !in prims && typ.value in steps && depth > 0 {
      DeeperChainAgrees(typ.value, steps, prims, depth - 1, more - 1);
    }
  }

  // ---- v0.5 ----

  /** The parent's node with the step's own inputs and policy laid over it. */
  function Overlay(base: NodeDecl, inputs: Inputs, policy: Option<string>): NodeDecl {
    base.(inputs := base.inputs + inputs, policy := OrElse(policy, base.policy))
  }

  /** expandStepRecursive without the cache. */
  function ExpandStep(name: string, steps: StepMap, prims: set<string>, depth: nat): Result<NodeDecl, ExpandError>
    requires name in steps
    decreases depth
  {
    var body := steps[name].body;
    if body.typ.None? then Err(MissingType(name))
    else if body.typ.value in prims then Ok(body)
    else if body.typ.value !in steps then Err(UnknownStep(name, body.typ.value))
    else if depth == 0 then Err(Endless)
    else
      match ExpandStep(body.typ.value, steps, prims, depth - 1)
      case Err(x) => Err(x)
      case Ok(parent) => Ok(Overlay(parent, body.inputs, body.policy))
  }

  /** expandNodeWithSteps; a type that names no step is left for later phases. */
  function ExpandNode(node: NodeDecl, steps: StepMap, prims: set<string>, depth: nat): Result<NodeDecl, ExpandError> {
    if node.typ.None? then Err(MissingType(node.name))
    else if node.typ.value !in steps then Ok(node)
    else
      match ExpandStep(node.typ.value, steps, prims, depth)
      case Err(x) => Err(x)
      case Ok(base) =>
        Ok(Overlay(base, node.inputs, node.policy).(name := node.name, targets := node.targets,
            dependsOn := node.dependsOn))
  }

  function InputAlong(chain: seq<string>, steps: StepMap, key: string): Option<Expr>
    requires forall i :: 0 <= i < |chain| ==> chain[i] in steps
  {
    if chain == [] then None else OrElse(Lookup(steps[chain[0]].body.inputs, key), InputAlong(chain[1..], steps, key))
  }

  function PolicyAlong(chain: seq<string>, steps: StepMap): Option<string>
    requires forall i :: 0 <= i < |chain| ==> chain[i] in steps
  {
    if chain == [] then None else OrElse(steps[chain[0]].body.policy, PolicyAlong(chain[1..], steps))
  }

  /** n holds, for every key, what the nearest definition along the chain says. */
  ghost predicate NearestAlong(n: NodeDecl, chain: seq<string>, steps: StepMap)
    requires forall i :: 0 <= i < |chain| ==> chain[i] in steps
  {
    && (forall key :: Lookup(n.inputs, key) == InputAlong(chain, steps, key))
    && n.policy == PolicyAlong(chain, steps)
  }

  /** Expansion of a step succeeds, or fails, exactly as its chain does; the result has the
      primitive type at the end of the chain and the nearest definition of everything else. */
  lemma {:induction false} StepTakesNearest(name: string, steps: StepMap, prims: set<string>, depth: nat)
    requires name in steps
    ensures var r, c := ExpandStep(name, steps, prims, depth), ChainOf(name, steps, prims, depth);
            && (c.Err? ==> r == Err(c.error))
            && (c.Ok? ==> && r.Ok? && NearestAlong(r.value, c.value, steps)
                          && r.value.typ == steps[c.value[|c.value| - 1]].body.typ
                          && r.value.typ.Some? && r.value.typ.value in prims)
    decreases depth
  {
    var body := steps[name].body;
    if body.typ.None? {
    } else if body.typ.value in prims {
      assert [name][1..] == [];
    } else if body.typ.value in steps && depth > 0 {
      StepTakesNearest(body.typ.value, steps, prims, depth - 1);
      var rest := ChainOf(body.typ.value, steps, prims, depth - 1);
      if rest.Ok? { assert ([name] + rest.value)[1..] == rest.value; }
    }
  }

  /** A node that is no step's has nothing done to it; one without a type is refused. */
  ghost predicate LeftAlone(node: NodeDecl, steps: StepMap, r: Result<NodeDecl, ExpandError>) {
    && (node.typ.None? ==> r == Err(MissingType(node.name)))
    && (node.typ.Some? && node.typ.value !in steps ==> r == Ok(node))
  }

  /** The same for a node: itself first, then its step's chain. */
  lemma NodeTakesNearest(node: NodeDecl, steps: StepMap, prims: set<string>, depth: nat)
    ensures LeftAlone(node, steps, ExpandNode(node, steps, prims, depth))
    ensures node.typ.Some? && node.typ.value in steps ==>
            var r, c := ExpandNode(node, steps, prims, depth), ChainOf(node.typ.value, steps, prims, depth);
            && (c.Err? ==> r == Err(c.error))
            && (c.Ok? ==> && r.Ok?
                          && r.value.typ.Some? && r.value.typ.value in prims
                          && r.value.name == node.name && r.value.targets == node.targets
                              && r.value.dependsOn == node.dependsOn
                          && r.value.policy == OrElse(node.policy, PolicyAlong(c.value, steps))
                          && forall key :: Lookup(r.value.inputs, key)
                               == OrElse(Lookup(node.inputs, key), InputAlong(c.value, steps, key)))
  {
    if node.typ.Some? && node.typ.value in steps { StepTakesNearest(node.typ.value, steps, prims, depth); }
  }

  lemma DeeperStepAgrees(name: string, steps: StepMap, prims: set<string>, depth: nat, more: nat)
    requires name in steps && depth <= more && ExpandStep(name, steps, prims, depth) != Err(Endless)
    ensures ExpandStep(name, steps, prims, more) == ExpandStep(name, steps, prims, depth)
    decreases depth
  {
    var typ := steps[name].body.typ;
    if typ.Some? && typ.value !in prims && typ.value in steps && depth > 0 {
      DeeperStepAgrees(typ.value, steps, prims, depth - 1, more - 1);
    }
  }

  method Merge(base: Inputs, over: Inputs) returns (merged: Inputs)
    ensures merged == base + over
  {
    merged := base;
    var todo := over.Keys;
    while todo != {}
      invariant todo <= over.Keys
      invariant merged.Keys == base.Keys + (over.Keys - todo)
      invariant forall k :: k in merged ==> merged[k] == if k in over && k !in todo then over[k] else base[k]
    {
      var k :| k in todo;
      merged := merged[k := over[k]];
      todo := todo - {k};
    }
  }

  /** The expander of one node: a cache of steps already expanded. */
  class StepExpander {
    const steps: StepMap
    const prims: set<string>
    var cache: map<string, NodeDecl>

    constructor (steps: StepMap, prims: set<string>)
      ensures this.steps == steps && this.prims == prims && cache == map[]
    {
      this.steps, this.prims, cache := steps, prims, map[];
    }

    ghost predicate Exact(name: string, node: NodeDecl) {
      name in steps && exists depth: nat :: ExpandStep(name, steps, prims, depth) == Ok(node)
    }

    /** A cached node is what expansion without the cache gives. */
    ghost predicate CacheExact()
      reads this
    {
      forall name :: name in cache ==> Exact(name, cache[name])
    }

    method Expand(name: string, ghost depth: nat) returns (r: Result<NodeDecl, ExpandError>)
      requires CacheExact() && name in steps && ExpandStep(name, steps, prims, depth) != Err(Endless)
      modifies this`cache
      ensures CacheExact() && r == ExpandStep(name, steps, prims, depth)
      ensures r.Ok? ==> name in cache && cache[name] == r.value
      decreases depth
    {
      if name in cache {
        ghost var d: nat :| ExpandStep(name, steps, prims, d) == Ok(cache[name]);
        DeeperStepAgrees(name, steps, prims, if d < depth then d else depth, if d < depth then depth else d);
        return Ok(cache[name]);
      }
      var body := steps[name].body;
      if body.typ.None? { return Err(MissingType(name)); }
      var base := body;
      if body.typ.value !in prims {
        if body.typ.value !in steps { return Err(UnknownStep(name, body.typ.value)); }
        r := Expand(body.typ.value, depth - 1);
        if r.Err? { return; }
        base := r.value;
      }
      var inputs := Merge(base.inputs, body.inputs);
      base := base.(inputs := inputs);
      if body.policy.Some? { base := base.(policy := body.policy); }
      r := Ok(base);
      assert body.inputs + body.inputs == body.inputs;
      assert Exact(name, base);
      cache := cache[name := base];
    }
  }

  method ExpandNodeWithSteps(node: NodeDecl, steps: StepMap, prims: set<string>, ghost depth: nat)
      returns (r: Result<NodeDecl, ExpandError>)
    requires ExpandNode(node, steps, prims, depth) != Err(Endless)
    ensures r == ExpandNode(node, steps, prims, depth)
  {
    if node.typ.None? { return Err(MissingType(node.name)); }
    if node.typ.value !in steps { return Ok(node); }
    var expander := new StepExpander(steps, prims);
    r := expander.Expand(node.typ.value, depth);
    if r.Err? { return; }
    var inputs := Merge(r.value.inputs, node.inputs);
    var merged := r.value.(name := node.name, targets := node.targets, dependsOn := node.dependsOn, inputs := inputs);
    if node.policy.Some? { merged := merged.(policy := node.policy); }
    r := Ok(merged);
  }

  // ---- The validator's promise ----

  /** buildStepDependencyGraph. */
  function StepGraph(steps: StepMap, prims: set<string>): Graph {
    map name | name in steps && steps[name].body.typ.Some?
        && steps[name].body.typ.value !in prims :: [steps[name].body.typ.value]
  }

  /** validateStepTypeResolution. */
  predicate TypeResolves(name: string, steps: StepMap, prims: set<string>)
    requires name in steps
  {
    var typ := steps[name].body.typ;
    typ.Some? && (typ.value in prims || typ.value in steps)
  }

  predicate TypesResolve(steps: StepMap, prims: set<string>) {
    forall name :: name in steps ==> TypeResolves(name, steps, prims)
  }

  ghost predicate AllExpand(steps: StepMap, prims: set<string>, depth: nat) {
    forall name :: name in steps ==> ChainOf(name, steps, prims, depth).Ok?
  }

  lemma {:induction false} RankedChainEnds(name: string, steps: StepMap, prims: set<string>, rank: map<Id, nat>,
      depth: nat)
    requires name in steps && TypesResolve(steps, prims) && IsRanking(StepGraph(steps, prims), rank)
    requires name in rank ==> rank[name] <= depth
    ensures ChainOf(name, steps, prims, depth).Ok?
    decreases depth
  {
    var typ := steps[name].body.typ.value;
    if typ !in prims {
      var g := StepGraph(steps, prims);
      assert Succ(g, name) == [typ];
      EdgeDrops(g, rank, name, typ);
      RankedChainEnds(typ, steps, prims, rank, depth - 1);
    }
  }

  lemma {:induction false} CyclicChainNeverEnds(name: string, steps: StepMap, prims: set<string>, depth: nat)
    requires name in steps && Reaches(StepGraph(steps, prims), name, name)
    ensures ChainOf(name, steps, prims, depth) == Err(Endless)
    decreases depth
  {
    var next := CycleNext(StepGraph(steps, prims), name);
    var after := CycleNext(StepGraph(steps, prims), next);
    if depth > 0 { CyclicChainNeverEnds(next, steps, prims, depth - 1); }
  }

  /** Both checks together are exact: steps pass them if and only if every step expands. */
  lemma ValidatedStepsExpand(steps: StepMap, prims: set<string>)
    ensures Acyclic(StepGraph(steps, prims)) && TypesResolve(steps, prims)
        <==> exists depth: nat :: AllExpand(steps, prims, depth)
  {
    var g := StepGraph(steps, prims);
    if Acyclic(g) && TypesResolve(steps, prims) {
      var rank := AcyclicHasRanking(g);
      var depth := Largest(rank);
      forall name | name in steps ensures ChainOf(name, steps, prims, depth).Ok? {
        RankedChainEnds(name, steps, prims, rank, depth);
      }
      assert AllExpand(steps, prims, depth);
    }
    if depth: nat :| AllExpand(steps, prims, depth) {
      if !Acyclic(g) {
        CyclicHasLoop(g);
        var name :| Reaches(g, name, name);
        var next := CycleNext(g, name);
        CyclicChainNeverEnds(name, steps, prims, depth);
        assert false;
      }
      forall name | name in steps ensures TypeResolves(name, steps, prims) {
        assert ChainOf(name, steps, prims, depth).Ok?;
      }
    }
  }

  method BuildStepGraph(steps: StepMap, prims: set<string>) returns (g: Graph)
    ensures g == StepGraph(steps, prims)
  {
    g := map[];
    var todo := steps.Keys;
    while todo != {}
      invariant todo <= steps.Keys
      invariant forall x :: x in g <==> x in StepGraph(steps, prims) && x !in todo
      invariant forall x :: x in g ==> g[x] == StepGraph(steps, prims)[x]
    {
      var x :| x in todo;
      var typ := steps[x].body.typ;
      if typ.Some? && typ.value !in prims { g := g[x := [typ.value]]; }
      todo := todo - {x};
    }
  }

  predicate ResolvesToNothing(typ: Option<string>, steps: StepMap, prims: set<string>) {
    typ.None? || (typ.value !in steps && typ.value !in prims)
  }

  /** Steps 6 and 7 of the validator: report cycles, and only without any the steps whose type
      resolves to nothing. No report means every step expands, and conversely. */
  method ValidateSteps(steps: StepMap, prims: set<string>, names: seq<string>)
      returns (cycles: seq<seq<string>>, unresolved: set<string>)
    requires forall x :: x in names <==> x in steps
    ensures cycles == [] && unresolved == {} <==> exists depth: nat :: AllExpand(steps, prims, depth)
    ensures cycles == [] <==> Acyclic(StepGraph(steps, prims))
    ensures forall i :: 0 <= i < |cycles| ==> |cycles[i]| > 1 && cycles[i][0] in steps
    ensures forall x :: x in unresolved <==>
      cycles == [] && x in steps && ResolvesToNothing(steps[x].body.typ, steps, prims)
  {
    var g := BuildStepGraph(steps, prims);
    assert g.Keys <= Elems(names);
    cycles := CycleFinder.FindCycles(g, names);
    unresolved := {};
    ValidatedStepsExpand(steps, prims);
    if cycles != [] {
      forall i | 0 <= i < |cycles| ensures |cycles[i]| > 1 && cycles[i][0] in steps {
        assert CycleFinder.IsSimpleCycle(g, cycles[i]);
        CycleFinder.CycleNamesHaveEdges(g, cycles[i], 0);
      }
      return;
    }
    unresolved := set x | x in steps && !TypeResolves(x, steps, prims);
    if unresolved == {} {
      forall x | x in steps ensures TypeResolves(x, steps, prims) { assert x !in unresolved; }
    } else {
      var x :| x in unresolved;
      assert !TypeResolves(x, steps, prims);
    }
  }

  // ---- v0.6: steps with parameters ----

  /** substituteParamsInExpr: calls and secrets are left as they are. */
  function SubstParams(e: Expr, env: Bindings): Expr
    decreases e
  {
    match e
    case Ident(x) => if x in env then env[x] else e
    case Bin(l, op, r) => Bin(SubstParams(l, env), op, SubstParams(r, env))
    case Cond(c, y, n) => Cond(SubstParams(c, env), SubstParams(y, env), SubstParams(n, env))
    case List(es) => List(SubstParamsAll(es, env))
    case _ => e
  }

  function SubstParamsAll(es: seq<Expr>, env: Bindings): seq<Expr>
    decreases es
  {
    if es == [] then [] else [SubstParams(es[0], env)] + SubstParamsAll(es[1..], env)
  }

  function SubstInputs(inputs: Inputs, env: Bindings): Inputs {
    map k | k in inputs :: SubstParams(inputs[k], env)
  }

  /** A parameter is what the caller gives, else its default, else unbound. Defaults are not substituted. */
  function BindParams(params: seq<Param>, given: Inputs): Bindings {
    if params == [] then map[]
    else
      var p := params[|params| - 1];
      var rest := BindParams(params[..|params| - 1], given);
      if p.name in given then rest[p.name := given[p.name]]
      else if p.fallback.Some? then rest[p.name := p.fallback.value] else rest
  }

  /** expandStepRecursiveV0_6. */
  function ExpandStepP(name: string, env: Bindings, steps: StepMap, prims: set<string>, depth: nat): Result<NodeDecl,
      ExpandError>
    requires name in steps
    decreases depth
  {
    var body := steps[name].body;
    var inputs := SubstInputs(body.inputs, env);
    if body.typ.None? then Err(MissingType(name))
    else if body.typ.value in prims then Ok(body.(inputs := inputs))
    else if body.typ.value !in steps then Err(UnknownStep(name, body.typ.value))
    else if depth == 0 then Err(Endless)
    else
      match ExpandStepP(body.typ.value, BindParams(steps[body.typ.value].params, inputs), steps, prims, depth - 1)
      case Err(x) => Err(x)
      case Ok(parent) => Ok(Overlay(parent, inputs, body.policy))
  }

  /** The node's inputs that are not arguments of its step. */
  function OwnInputs(node: NodeDecl, params: seq<Param>): Inputs {
    map k | k in node.inputs && !IsParam(params, k) :: node.inputs[k]
  }

  predicate IsParam(params: seq<Param>, key: string) {
    exists i :: 0 <= i < |params| && params[i].name == key
  }

  /** expandNodeWithStepsV0_6. */
  function ExpandNodeP(node: NodeDecl, steps: StepMap, prims: set<string>, depth: nat): Result<NodeDecl, ExpandError> {
    if node.typ.None? then Err(MissingType(node.name))
    else if node.typ.value !in steps then Ok(node)
    else
      var params := steps[node.typ.value].params;
      match ExpandStepP(node.typ.value, BindParams(params, node.inputs), steps, prims, depth)
      case Err(x) => Err(x)
      case Ok(base) =>
        Ok(Overlay(base, OwnInputs(node, params), node.policy).(name := node.name, targets := node.targets,
            dependsOn := node.dependsOn))
  }

  method BindInOrder(params: seq<Param>, given: Inputs) returns (env: Bindings)
    ensures env == BindParams(params, given)
  {
    env := map[];
    for i := 0 to |params|
      invariant env == BindParams(params[..i], given)
    {
      assert params[..i + 1][..i] == params[..i];
      if params[i].name in given {
        env := env[params[i].name := given[params[i].name]];
      } else if params[i].fallback.Some? {
        env := env[params[i].name := params[i].fallback.value];
      }
    }
    assert params[..|params|] == params;
  }

  method MergeSubstituted(base: Inputs, over: Inputs, env: Bindings) returns (merged: Inputs)
    ensures merged == base + SubstInputs(over, env)
  {
    merged := base;
    var todo := over.Keys;
    while todo != {}
      invariant todo <= over.Keys
      invariant merged.Keys == base.Keys + (over.Keys - todo)
      invariant forall k :: k in merged ==>
        merged[k] == if k in over && k !in todo then SubstParams(over[k], env) else base[k]
    {
      var k :| k in todo;
      merged := merged[k := SubstParams(over[k], env)];
      todo := todo - {k};
    }
  }

  method ExpandStepWithParams(name: string, env: Bindings, steps: StepMap, prims: set<string>, ghost depth: nat)
    returns (r: Result<NodeDecl, ExpandError>)
    requires name in steps && ExpandStepP(name, env, steps, prims, depth) != Err(Endless)
    ensures r == ExpandStepP(name, env, steps, prims, depth)
    decreases depth
  {
    var body := steps[name].body;
    if body.typ.None? { return Err(MissingType(name)); }
    var base := body;
    if body.typ.value !in prims {
      if body.typ.value !in steps { return Err(UnknownStep(name, body.typ.value)); }
      var given := MergeSubstituted(map[], body.inputs, env);
      assert given == SubstInputs(body.inputs, env);
      var parentEnv := BindInOrder(steps[body.typ.value].params, given);
      r := ExpandStepWithParams(body.typ.value, parentEnv, steps, prims, depth - 1);
      if r.Err? { return; }
      base := r.value;
    }
    var inputs := MergeSubstituted(base.inputs, body.inputs, env);
    assert body.typ.value in prims ==> inputs == SubstInputs(body.inputs, env);
    base := base.(inputs := inputs);
    if body.policy.Some? { base := base.(policy := body.policy); }
    r := Ok(base);
  }

  // ---- What parameters mean ----

  /** One level of the chain: its inputs, and the values its parameters stand for. */
  datatype Frame = Frame(inputs: Inputs, params: map<string, Value>)

  /** Evaluation where parameters shadow lets. */
  function EvalUnder(e: Expr, params: map<string, Value>, lets: Lets, fuel: nat): Value {
    Run(e, params, Program(lets, map[], 0), fuel, 0)
  }

  function BindValues(params: seq<Param>, caller: Frame, lets: Lets, fuel: nat): map<string, Value> {
    if params == [] then map[]
    else
      var p := params[|params| - 1];
      var rest := BindValues(params[..|params| - 1], caller, lets, fuel);
      if p.name in caller.inputs then rest[p.name := EvalUnder(caller.inputs[p.name], caller.params, lets, fuel)]
      else if p.fallback.Some? then rest[p.name := Eval(p.fallback.value, lets, fuel)] else rest
  }

  /** The frames along a chain: each parent's parameters are evaluated in its child's frame. */
  function Frames(chain: seq<string>, params: map<string, Value>, steps: StepMap, lets: Lets, fuel: nat): seq<Frame>
    requires forall i :: 0 <= i < |chain| ==> chain[i] in steps
  {
    if chain == [] then []
    else
      var f := Frame(steps[chain[0]].body.inputs, params);
      [f] + if |chain| == 1 then []
          else Frames(chain[1..], BindValues(steps[chain[1]].params, f, lets, fuel), steps, lets, fuel)
  }

  /** The value of the nearest definition of an input. */
  function InputValue(frames: seq<Frame>, key: string, lets: Lets, fuel: nat): Option<Value> {
    if frames == [] then None
    else if key in frames[0].inputs then Some(EvalUnder(frames[0].inputs[key], frames[0].params, lets, fuel))
    else InputValue(frames[1..], key, lets, fuel)
  }

  function EvalInput(inputs: Inputs, key: string, lets: Lets, fuel: nat): Option<Value> {
    if key in inputs then Some(Eval(inputs[key], lets, fuel)) else None
  }

  lemma {:induction false} NoCallsNoParams(e: Expr, lets: Lets, fuel: nat)
    ensures EvalUnder(e, map[], lets, fuel) == Eval(e, lets, fuel)
    decreases fuel, e
  {
    SubstParamsMeans(e, map[], map[], lets, fuel);
    SubstNothing(e);
  }

  lemma {:induction false} SubstNothing(e: Expr)
    ensures SubstParams(e, map[]) == e
    decreases e
  {
    match e
    case List(es) => SubstNothingAll(es);
    case Bin(l, _, r) =>
      SubstNothing(l);
      SubstNothing(r);
    case Cond(c, y, n) =>
      SubstNothing(c);
      SubstNothing(y);
      SubstNothing(n);
    case _ =>
  }

  lemma {:induction false} SubstNothingAll(es: seq<Expr>)
    ensures SubstParamsAll(es, map[]) == es
    decreases es
  {
    if es != [] {
      SubstNothing(es[0]);
      SubstNothingAll(es[1..]);
    }
  }

  lemma {:induction false} SubstParamsMeans(e: Expr, env: Bindings, params: map<string, Value>, lets: Lets, fuel: nat)
    requires Matches(env, params, lets, fuel)
    ensures Eval(SubstParams(e, env), lets, fuel) == EvalUnder(e, params, lets, fuel)
    decreases fuel, e
  {
    match e
    case Ident(x) =>
      if x !in env && x in lets && fuel > 0 {
        SubstParamsMeans(lets[x], map[], map[], lets, fuel - 1);
        SubstNothing(lets[x]);
      }
    case Bin(l, _, r) =>
      SubstParamsMeans(l, env, params, lets, fuel);
      SubstParamsMeans(r, env, params, lets, fuel);
    case Cond(c, y, n) =>
      SubstParamsMeans(c, env, params, lets, fuel);
      SubstParamsMeans(y, env, params, lets, fuel);
      SubstParamsMeans(n, env, params, lets, fuel);
    case List(es) =>
      SubstParamsAllMeans(es, env, params, lets, fuel);
      CollectEvals(SubstParamsAll(es, env), lets, fuel);
    case _ =>
  }

  lemma {:induction false} SubstParamsAllMeans(es: seq<Expr>, env: Bindings, params: map<string, Value>, lets: Lets,
      fuel: nat)
    requires Matches(env, params, lets, fuel)
    ensures Evals(SubstParamsAll(es, env), lets, fuel) == RunAll(es, params, Program(lets, map[], 0), fuel, 0)
    decreases fuel, es
  {
    if es != [] {
      SubstParamsMeans(es[0], env, params, lets, fuel);
      SubstParamsAllMeans(es[1..], env, params, lets, fuel);
    }
  }

  lemma {:induction false} BindParamsMatches(params: seq<Param>, given: Inputs, caller: Frame, lets: Lets, fuel: nat)
    requires given.Keys == caller.inputs.Keys
    requires forall k :: k in given ==>
      Eval(given[k], lets, fuel) == EvalUnder(caller.inputs[k], caller.params, lets, fuel)
    ensures Matches(BindParams(params, given), BindValues(params, caller, lets, fuel), lets, fuel)
    decreases |params|
  {
    if params != [] { BindParamsMatches(params[..|params| - 1], given, caller, lets, fuel); }
  }

  ghost predicate InputsMean(inputs: Inputs, frames: seq<Frame>, lets: Lets, fuel: nat) {
    forall key :: EvalInput(inputs, key, lets, fuel) == InputValue(frames, key, lets, fuel)
  }

  /** Laying one level's substituted inputs over its parent's adds that level's frame in front. */
  lemma LevelMeans(env: Bindings, f: Frame, parent: Inputs, rest: seq<Frame>, lets: Lets, fuel: nat)
    requires Matches(env, f.params, lets, fuel) && InputsMean(parent, rest, lets, fuel)
    ensures InputsMean(parent + SubstInputs(f.inputs, env), [f] + rest, lets, fuel)
  {
    assert ([f] + rest)[1..] == rest;
    forall key ensures EvalInput(parent + SubstInputs(f.inputs, env), key, lets, fuel)
        == InputValue([f] + rest, key, lets, fuel) {
      assert EvalInput(parent, key, lets, fuel) == InputValue(rest, key, lets, fuel);
      if key in f.inputs { SubstParamsMeans(f.inputs[key], env, f.params, lets, fuel); }
    }
  }

  /** Parameter expansion keeps meaning: every input of the expanded step evaluates to what its
      nearest definition means in the frame where it stands, failures included. */
  lemma {:induction false} StepInputsMean(name: string, env: Bindings, params: map<string, Value>, steps: StepMap,
      prims: set<string>, lets: Lets, fuel: nat, depth: nat)
    requires name in steps && Matches(env, params, lets, fuel)
    ensures var r, c := ExpandStepP(name, env, steps, prims, depth), ChainOf(name, steps, prims, depth);
            && (c.Err? ==> r == Err(c.error))
            && (c.Ok? ==> && r.Ok? && r.value.typ.Some? && r.value.typ.value in prims
                          && r.value.policy == PolicyAlong(c.value, steps)
                          && InputsMean(r.value.inputs, Frames(c.value, params, steps, lets, fuel), lets, fuel))
    decreases depth
  {
    var body := steps[name].body;
    var inputs := SubstInputs(body.inputs, env);
    var f := Frame(body.inputs, params);
    forall k | k in body.inputs ensures Eval(inputs[k], lets, fuel) == EvalUnder(body.inputs[k], params, lets, fuel) {
      SubstParamsMeans(body.inputs[k], env, params, lets, fuel);
    }
    if body.typ.None? {
    } else if body.typ.value in prims {
      assert [name][1..] == [];
      assert [f] + [] == [f];
      assert map[] + inputs == inputs;
      LevelMeans(env, f, map[], [], lets, fuel);
    } else if body.typ.value in steps && depth > 0 {
      var typ := body.typ.value;
      var up := BindValues(steps[typ].params, f, lets, fuel);
      BindParamsMatches(steps[typ].params, inputs, f, lets, fuel);
      StepInputsMean(typ, BindParams(steps[typ].params, inputs), up, steps, prims, lets, fuel, depth - 1);
      var rest := ChainOf(typ, steps, prims, depth - 1);
      if rest.Ok? {
        var chain := [name] + rest.value;
        assert chain[1..] == rest.value && rest.value[0] == typ;
        LevelMeans(env, f, ExpandStepP(typ, BindParams(steps[typ].params, inputs), steps, prims,
            depth - 1).value.inputs, Frames(rest.value, up, steps, lets, fuel), lets, fuel);
      }
    }
  }

  /** The same for a node: its own inputs come first, except those that are its step's arguments,
      and the step's parameters are bound from the node's inputs. */
  lemma NodeInputsMean(node: NodeDecl, steps: StepMap, prims: set<string>, lets: Lets, fuel: nat, depth: nat)
    requires node.typ.Some? && node.typ.value in steps
    ensures var r, c := ExpandNodeP(node, steps, prims, depth), ChainOf(node.typ.value, steps, prims, depth);
            var params := steps[node.typ.value].params;
            && (c.Err? ==> r == Err(c.error))
            && (c.Ok? ==> && r.Ok? && r.value.typ.Some? && r.value.typ.value in prims
                          && r.value.name == node.name && r.value.targets == node.targets
                              && r.value.dependsOn == node.dependsOn
                          && r.value.policy == OrElse(node.policy, PolicyAlong(c.value, steps))
                          && var frames := [Frame(OwnInputs(node, params), map[])]
                                           + Frames(c.value, BindValues(params, Frame(node.inputs, map[]), lets, fuel),
                                               steps, lets, fuel);
                             InputsMean(r.value.inputs, frames, lets, fuel))
  {
    var params := steps[node.typ.value].params;
    var caller := Frame(node.inputs, map[]);
    forall k | k in node.inputs
      ensures Eval(node.inputs[k], lets, fuel) == EvalUnder(node.inputs[k], map[], lets, fuel)
    {
      NoCallsNoParams(node.inputs[k], lets, fuel);
    }
    BindParamsMatches(params, node.inputs, caller, lets, fuel);
    var values := BindValues(params, caller, lets, fuel);
    StepInputsMean(node.typ.value, BindParams(params, node.inputs), values, steps, prims, lets, fuel, depth);
    var c := ChainOf(node.typ.value, steps, prims, depth);
    if c.Ok? {
      var own := Frame(OwnInputs(node, params), map[]);
      LevelMeans(map[], own, ExpandStepP(node.typ.value, BindParams(params, node.inputs), steps, prims,
          depth).value.inputs,
                 Frames(c.value, values, steps, lets, fuel), lets, fuel);
      forall k | k in own.inputs ensures SubstParams(own.inputs[k], map[])
          == own.inputs[k] { SubstNothing(own.inputs[k]); }
      assert SubstInputs(own.inputs, map[]) == own.inputs;
    }
  }

  /** Input by input: an argument of the step never stays with the node, every other input of the
      node does, and what the node does not say comes from the step. */
  lemma NodeArguments(node: NodeDecl, steps: StepMap, prims: set<string>, key: string, lets: Lets, fuel: nat,
      depth: nat)
    ensures LeftAlone(node, steps, ExpandNodeP(node, steps, prims, depth))
    ensures node.typ.Some? && node.typ.value in steps && ChainOf(node.typ.value, steps, prims, depth).Ok? ==>
            var params := steps[node.typ.value].params;
            var chain := ChainOf(node.typ.value, steps, prims, depth).value;
            var fromStep := Frames(chain, BindValues(params, Frame(node.inputs, map[]), lets, fuel), steps, lets, fuel);
            && ExpandNodeP(node, steps, prims, depth).Ok?
            && EvalInput(ExpandNodeP(node, steps, prims, depth).value.inputs, key, lets, fuel)
               == if key in node.inputs && (forall i :: 0 <= i < |params| ==> params[i].name != key)
                  then Some(Eval(node.inputs[key], lets, fuel)) else InputValue(fromStep, key, lets, fuel)
  {
    if node.typ.Some? && node.typ.value in steps && ChainOf(node.typ.value, steps, prims, depth).Ok? {
      var params := steps[node.typ.value].params;
      var chain := ChainOf(node.typ.value, steps, prims, depth).value;
      var fromStep := Frames(chain, BindValues(params, Frame(node.inputs, map[]), lets, fuel), steps, lets, fuel);
      NodeInputsMean(node, steps, prims, lets, fuel, depth);
      OwnFirst(node, params, fromStep, key, lets, fuel);
    }
  }

  lemma OwnFirst(node: NodeDecl, params: seq<Param>, rest: seq<Frame>, key: string, lets: Lets, fuel: nat)
    ensures InputValue([Frame(OwnInputs(node, params), map[])] + rest, key, lets, fuel)
         == if key in node.inputs && (forall i :: 0 <= i < |params| ==> params[i].name != key)
            then Some(Eval(node.inputs[key], lets, fuel)) else InputValue(rest, key, lets, fuel)
  {
    var own := Frame(OwnInputs(node, params), map[]);
    assert ([own] + rest)[1..] == rest;
    if key in node.inputs { NoCallsNoParams(node.inputs[key], lets, fuel); }
  }

  /** Over folded lets, evaluating under parameters is evaluating in the lets extended by the
      parameters' values, as "parameters shadow lets" reads. */
  lemma {:induction false} ParamsShadowLets(e: Expr, params: map<string, Value>, values: Lets, lets: Lets, fuel: nat)
    requires ValuesOnly(lets) && ValuesOnly(values) && fuel > 0
    requires params.Keys == values.Keys && forall x :: x in params ==> params[x] == Ok(values[x])
    ensures EvalUnder(e, params, lets, fuel) == Eval(e, lets + values, fuel)
    decreases e
  {
    match e
    case Ident(x) =>
      if x in values {
        ValueEvaluates(values[x], lets + values, fuel - 1);
      } else if x in lets {
        ValueEvaluates(lets[x], lets + values, fuel - 1);
        ValueEvaluates(lets[x], lets, fuel - 1);
        NoCallsNoParams(lets[x], lets, fuel - 1);
      }
    case Bin(l, _, r) =>
      ParamsShadowLets(l, params, values, lets, fuel);
      ParamsShadowLets(r, params, values, lets, fuel);
    case Cond(c, y, n) =>
      ParamsShadowLets(c, params, values, lets, fuel);
      ParamsShadowLets(y, params, values, lets, fuel);
      ParamsShadowLets(n, params, values, lets, fuel);
    case List(es) =>
      ParamsShadowLetsAll(es, params, values, lets, fuel);
      CollectEvals(es, lets + values, fuel);
    case _ =>
  }

  lemma {:induction false} ParamsShadowLetsAll(es: seq<Expr>, params: map<string, Value>, values: Lets, lets: Lets,
      fuel: nat)
    requires ValuesOnly(lets) && ValuesOnly(values) && fuel > 0
    requires params.Keys == values.Keys && forall x :: x in params ==> params[x] == Ok(values[x])
    ensures RunAll(es, params, Program(lets, map[], 0), fuel, 0) == Evals(es, lets + values, fuel)
    decreases es
  {
    if es != [] {
      ParamsShadowLets(es[0], params, values, lets, fuel);
      ParamsShadowLetsAll(es[1..], params, values, lets, fuel);
    }
  }
}
