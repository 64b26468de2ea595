/** internal/devlang/resolve.go: steps of a file imported under an alias. The body is renamed like a
    node; the parameter list with its defaults is not touched. */
module StepRenaming {
  import opened Wrappers
  import opened Expr
  import opened Functions
  import opened Steps
  import opened Rename
  import Types

  function StepsOf(ds: seq<Decl>): StepMap {
    if ds == [] then map[]
    else
      var rest := StepsOf(ds[1..]);
      if ds[0].StepDecl? then rest[ds[0].name := Step(ds[0].params, ds[0].body)] else rest
  }

  function RenamedStep(st: Step, prefix: string, names: set<string>): Step {
    Step(st.params, PrefixNode(st.body, prefix, names))
  }

  /** Renamed declarations define the renamed steps under the prefix, and nothing else. */
  lemma {:induction false} PrefixedSteps(ds: seq<Decl>, prefix: string, names: set<string>, x: string)
    ensures var ps, px := PrefixDecls(ds, prefix, names), Qualify(prefix, x);
            && (px in StepsOf(ps) <==> x in StepsOf(ds))
            && (x in StepsOf(ds) ==> StepsOf(ps)[px] == RenamedStep(StepsOf(ds)[x], prefix, names))
    ensures DefinesOnly(StepsOf(PrefixDecls(ds, prefix, names)).Keys, StepsOf(ds).Keys, prefix)
  {
    if ds != [] {
      PrefixedSteps(ds[1..], prefix, names, x);
      var ps := PrefixDecls(ds, prefix, names);
      assert ps[1..] == PrefixDecls(ds[1..], prefix, names);
      if ds[0].StepDecl? && Qualify(prefix, ds[0].name) == Qualify(prefix, x) {
        QualifyInjective(prefix, ds[0].name, x);
      }
    }
  }

  // ---- Substitution and renaming ----

  function PrefixInputs(inputs: Inputs, prefix: string, names: set<string>): Inputs {
    map k | k in inputs :: PrefixExpr(inputs[k], prefix, names)
  }

  lemma {:induction false} SubstRenamed(e: Expr, env: Bindings, prefix: string, names: set<string>)
    requires KeepsApart(env.Keys, prefix, names)
    ensures PrefixExpr(SubstParams(e, env), prefix, names)
         == SubstParams(PrefixExpr(e, prefix, names), PrefixInputs(env, prefix, names))
    decreases e
  {
    match e
    case List(es) => SubstAllRenamed(es, env, prefix, names);
    case Bin(l, _, r) =>
      SubstRenamed(l, env, prefix, names);
      SubstRenamed(r, env, prefix, names);
    case Cond(c, y, n) =>
      SubstRenamed(c, env, prefix, names);
      SubstRenamed(y, env, prefix, names);
      SubstRenamed(n, env, prefix, names);
    case _ =>
  }

  lemma {:induction false} SubstAllRenamed(es: seq<Expr>, env: Bindings, prefix: string, names: set<string>)
    requires KeepsApart(env.Keys, prefix, names)
    ensures PrefixExprs(SubstParamsAll(es, env), prefix, names)
         == SubstParamsAll(PrefixExprs(es, prefix, names), PrefixInputs(env, prefix, names))
    decreases es
  {
    if es != [] {
      SubstRenamed(es[0], env, prefix, names);
      SubstAllRenamed(es[1..], env, prefix, names);
      assert PrefixExprs(es, prefix, names)[1..] == PrefixExprs(es[1..], prefix, names);
    }
  }

  lemma SubstInputsRenamed(inputs: Inputs, env: Bindings, prefix: string, names: set<string>)
    requires KeepsApart(env.Keys, prefix, names)
    ensures PrefixInputs(SubstInputs(inputs, env), prefix, names)
         == SubstInputs(PrefixInputs(inputs, prefix, names), PrefixInputs(env, prefix, names))
  {
    forall k | k in inputs
      ensures PrefixExpr(SubstParams(inputs[k], env), prefix, names)
           == SubstParams(PrefixExpr(inputs[k], prefix, names), PrefixInputs(env, prefix, names))
    {
      SubstRenamed(inputs[k], env, prefix, names);
    }
  }

  // ---- Defaults ----

  /** e mentions no name of the module. */
  predicate Foreign(e: Expr, names: set<string>) {
    (forall x :: x in Types.Idents(e) ==> x !in names) && Callees(e) !! names
  }

  lemma {:induction false} ForeignIsKept(e: Expr, prefix: string, names: set<string>)
    ensures PrefixExpr(e, prefix, names) == e <==> Foreign(e, names)
    decreases e
  {
    match e
    case Ident(x) =>
      assert Types.Idents(e) == [x] && Types.Idents(e)[0] == x;
      assert |Qualify(prefix, x)| > |x|;
    case List(es) => ForeignAllKept(es, prefix, names);
    case Call(f, args) =>
      ForeignAllKept(args, prefix, names);
      assert |Qualify(prefix, f)| > |f|;
    case Bin(l, _, r) =>
      ForeignIsKept(l, prefix, names);
      ForeignIsKept(r, prefix, names);
    case Cond(c, y, n) =>
      ForeignIsKept(c, prefix, names);
      ForeignIsKept(y, prefix, names);
      ForeignIsKept(n, prefix, names);
    case _ =>
  }

  lemma {:induction false} ForeignAllKept(es: seq<Expr>, prefix: string, names: set<string>)
    ensures PrefixExprs(es, prefix, names) == es
       <==> (forall x :: x in Types.IdentsAll(es) ==> x !in names) && CalleesAll(es) !! names
    decreases es
  {
    if es != [] {
      ForeignIsKept(es[0], prefix, names);
      ForeignAllKept(es[1..], prefix, names);
      var ps := PrefixExprs(es, prefix, names);
      assert ps[1..] == PrefixExprs(es[1..], prefix, names);
      assert ps == es <==> ps[0] == es[0] && ps[1..] == es[1..] by {
        if ps[0] == es[0] && ps[1..] == es[1..] { assert [es[0]] + es[1..] == es; }
      }
    }
  }

  /** No parameter is a module name or looks renamed, and no default mentions the module. */
  ghost predicate PlainParams(params: seq<Param>, prefix: string, names: set<string>) {
    forall i :: 0 <= i < |params| ==>
      && (forall x :: x in names ==> params[i].name != x && params[i].name != Qualify(prefix, x))
      && (params[i].fallback.Some? ==> Foreign(params[i].fallback.value, names))
  }

  lemma {:induction false} BindRenamed(params: seq<Param>, given: Inputs, prefix: string, names: set<string>)
    requires PlainParams(params, prefix, names)
    ensures KeepsApart(BindParams(params, given).Keys, prefix, names)
    ensures PrefixInputs(BindParams(params, given), prefix, names)
         == BindParams(params, PrefixInputs(given, prefix, names))
    decreases |params|
  {
    if params != [] {
      var p, rest := params[|params| - 1], params[..|params| - 1];
      assert forall i :: 0 <= i < |rest| ==> rest[i] == params[i];
      BindRenamed(rest, given, prefix, names);
      if p.fallback.Some? { ForeignIsKept(p.fallback.value, prefix, names); }
      var bound := BindParams(rest, given);
      forall e ensures PrefixInputs(bound[p.name := e], prefix, names)
          == PrefixInputs(bound, prefix, names)[p.name := PrefixExpr(e, prefix, names)] {}
    }
  }

  // ---- Expansion ----

  /** A type means the same step, or the same kind of primitive, on both sides. */
  ghost predicate SameType(t: string, steps: StepMap, other: StepMap, prims: set<string>, others: set<string>,
      prefix: string, names: set<string>) {
    var pt := PrefixIdent(t, prefix, names);
    && (t in prims <==> pt in others) && (t in steps <==> pt in other)
    && (t in steps ==> other[pt] == RenamedStep(steps[t], prefix, names))
  }

  /** other holds the module's steps renamed, and what their bodies call is found there as before. */
  ghost predicate MovesSteps(steps: StepMap, other: StepMap, prims: set<string>, others: set<string>, prefix: string,
      names: set<string>) {
    forall n :: n in steps ==>
      && PlainParams(steps[n].params, prefix, names)
      && (steps[n].body.typ.Some? ==> SameType(steps[n].body.typ.value, steps, other, prims, others, prefix, names))
  }

  /** r' is r renamed, or fails where r does and in the same way. */
  ghost predicate Renamed(r: Result<NodeDecl, ExpandError>, r': Result<NodeDecl, ExpandError>, prefix: string,
      names: set<string>) {
    if r.Ok? then r' == Ok(PrefixNode(r.value, prefix, names))
    else r'.Err? && (r.error.Endless? <==> r'.error.Endless?) && (r.error.MissingType? <==> r'.error.MissingType?)
  }

  lemma OverlayRenamed(base: NodeDecl, inputs: Inputs, policy: Option<string>, prefix: string, names: set<string>)
    ensures PrefixNode(Overlay(base, inputs, policy), prefix, names)
         == Overlay(PrefixNode(base, prefix, names), PrefixInputs(inputs, prefix, names),
              if policy.Some? then Some(PrefixIdent(policy.value, prefix, names)) else None)
  {
    assert PrefixInputs(base.inputs + inputs, prefix, names)
        == PrefixInputs(base.inputs, prefix, names) + PrefixInputs(inputs, prefix, names);
  }

  lemma {:induction false} StepExpandsRenamed(name: string, env: Bindings, steps: StepMap, other: StepMap,
      prims: set<string>, others: set<string>, prefix: string, names: set<string>, depth: nat)
    requires MovesSteps(steps, other, prims, others, prefix, names) && KeepsApart(env.Keys, prefix, names)
    requires name in steps && SameType(name, steps, other, prims, others, prefix, names)
    ensures Renamed(ExpandStepP(name, env, steps, prims, depth),
              ExpandStepP(PrefixIdent(name, prefix, names), PrefixInputs(env, prefix, names), other, others, depth),
              prefix, names)
    decreases depth
  {
    var body := steps[name].body;
    var inputs := SubstInputs(body.inputs, env);
    SubstInputsRenamed(body.inputs, env, prefix, names);
    assert PrefixNode(body, prefix, names).inputs == PrefixInputs(body.inputs, prefix, names);
    if body.typ.Some? && body.typ.value !in prims && body.typ.value in steps && depth > 0 {
      var typ := body.typ.value;
      var params := steps[typ].params;
      BindRenamed(params, inputs, prefix, names);
      StepExpandsRenamed(typ, BindParams(params, inputs), steps, other, prims, others, prefix, names, depth - 1);
      var parent := ExpandStepP(typ, BindParams(params, inputs), steps, prims, depth - 1);
      if parent.Ok? { OverlayRenamed(parent.value, inputs, body.policy, prefix, names); }
    }
  }

  /** Renaming commutes with expansion: a renamed node over the renamed steps expands to the renamed
      expansion, when parameters are apart from the module's names and defaults mention none. */
  lemma NodeExpandsRenamed(node: NodeDecl, steps: StepMap, other: StepMap, prims: set<string>, others: set<string>,
      prefix: string, names: set<string>, depth: nat)
    requires MovesSteps(steps, other, prims, others, prefix, names)
    requires node.typ.Some? ==> SameType(node.typ.value, steps, other, prims, others, prefix, names)
    ensures Renamed(ExpandNodeP(node, steps, prims, depth),
              ExpandNodeP(PrefixNode(node, prefix, names), other, others, depth), prefix, names)
  {
    if node.typ.Some? && node.typ.value in steps {
      var typ := node.typ.value;
      var params := steps[typ].params;
      BindRenamed(params, node.inputs, prefix, names);
      StepExpandsRenamed(typ, BindParams(params, node.inputs), steps, other, prims, others, prefix, names, depth);
      var base := ExpandStepP(typ, BindParams(params, node.inputs), steps, prims, depth);
      var own := OwnInputs(node, params);
      assert OwnInputs(PrefixNode(node, prefix, names), params) == PrefixInputs(own, prefix, names);
      if base.Ok? { OverlayRenamed(base.value, own, node.policy, prefix, names); }
    }
  }

  // ---- A default that loses its let ----

  /** The condition on defaults is needed: a step that puts its parameter's default into an input
      expands, renamed, to the renamed expansion if and only if the default mentions no name of the
      module. A default that is a let of the module is looked up among the importer's names. */
  lemma DefaultLosesItsLet(name: string, prim: string, a: string, d: Expr, key: string, prefix: string,
      names: set<string>, depth: nat)
    requires prim != name && a !in names && prim !in names && name !in names
    ensures var body := NodeDecl(name, Some(prim), [], [], map[key := Ident(a)], None);
            var st := Step([Param(a, Some(d))], body);
            var node := NodeDecl(name, Some(name), [], [], map[], None);
            var r := ExpandNodeP(node, map[name := st], {prim}, depth);
            var r' := ExpandNodeP(PrefixNode(node, prefix, names), map[name := RenamedStep(st, prefix, names)],
                {prim}, depth);
            && r.Ok? && r'.Ok? && r.value.inputs == map[key := d]
            && (r' == Ok(PrefixNode(r.value, prefix, names)) <==> Foreign(d, names))
  {
    var body := NodeDecl(name, Some(prim), [], [], map[key := Ident(a)], None);
    var node := NodeDecl(name, Some(name), [], [], map[], None);
    assert PrefixInputs(map[], prefix, names) == map[];
    assert PrefixInputs(map[key := Ident(a)], prefix, names) == map[key := Ident(a)];
    assert PrefixNode(body, prefix, names) == body && PrefixNode(node, prefix, names) == node;
    ExpandsToDefault(name, prim, a, d, key, depth);
    ForeignIsKept(d, prefix, names);
    var plain := NodeDecl(name, Some(prim), [], [], map[key := d], None);
    assert PrefixNode(plain, prefix, names).inputs == map[key := PrefixExpr(d, prefix, names)];
    assert plain.inputs[key] == d;
  }

  lemma ExpandsToDefault(name: string, prim: string, a: string, d: Expr, key: string, depth: nat)
    requires prim != name
    ensures var body := NodeDecl(name, Some(prim), [], [], map[key := Ident(a)], None);
            var node := NodeDecl(name, Some(name), [], [], map[], None);
            ExpandNodeP(node, map[name := Step([Param(a, Some(d))], body)], {prim}, depth)
            == Ok(NodeDecl(name, Some(prim), [], [], map[key := d], None))
  {
    var ps := [Param(a, Some(d))];
    assert ps[..|ps| - 1] == [] && BindParams([], map[]) == map[];
    assert BindParams(ps, map[]) == map[a := d];
    assert SubstInputs(map[key := Ident(a)], map[a := d]) == map[key := d];
    var node := NodeDecl(name, Some(name), [], [], map[], None);
    assert OwnInputs(node, ps) == map[];
    assert map[key := d] + map[] == map[key := d];
  }
}
