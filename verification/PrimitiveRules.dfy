/** What expanding a custom primitive gives, as rules that name no expansion: which nodes a body
    stands for, field by field and in order, and which failure is met first. */
module PrimitiveRules {
  import opened Wrappers
  import opened Expr
  import opened Primitives

  // ---- Ranges and inputs ----

  predicate IsLiteral(e: Expr, v: Runtime) {
    match e
    case Str(s) => v == RStr(s)
    case Bool(b) => v == RBool(b)
    case Num(n) => v == RNum(n)
    case List(es) => v.RList? && AreLiterals(es, v.elems)
    case _ => false
  }

  predicate AreLiterals(es: seq<Expr>, vs: seq<Runtime>) {
    |vs| == |es| && forall i :: 0 <= i < |es| ==> IsLiteral(es[i], vs[i])
  }

  /** A list of literals, an entry of the prepare block under "prepare." and its name, or an input. */
  ghost predicate RangeIs(range: Expr, env: Env, prepared: Env, vs: seq<Runtime>) {
    match range
    case List(es) => AreLiterals(es, vs)
    case Ident(x) =>
      if Prefixed(x) then Holds(prepared, x[|"prepare."|..], vs) else Holds(env, x, vs)
    case _ => false
  }

  predicate Prefixed(x: string) {
    |x| > |"prepare."| && "prepare." <= x
  }

  predicate Holds(env: Env, x: string, vs: seq<Runtime>) {
    x in env && env[x] == RList(vs)
  }

  /** Every declared input has its given value, and there is nothing else. */
  ghost predicate Bound(names: seq<string>, given: Env, env: Env) {
    && (forall x :: x in env <==> x in names)
    && (forall x :: x in names ==> x in given && x in env && env[x] == given[x])
  }

  /** The first declared input that is not given. */
  ghost predicate Lacks(names: seq<string>, given: Env, x: string) {
    exists i :: 0 <= i < |names| && names[i] == x && x !in given && forall j :: 0 <= j < i ==> names[j] in given
  }

  // ---- One node ----

  predicate Named(n: BodyNode, loop: Loop, host: Host, name: string) {
    match loop
    case None => name == n.name
    case Some((x, v)) => host.relabel(n.name, x, v) == Some(name)
  }

  /** p is what the body node n stands for in the instance: below it, with its targets unless n
      has its own, and depending on its siblings by their names below the instance. */
  ghost predicate Stands(p: PlanNode, n: BodyNode, at: Instance, env: Env, loop: Loop, host: Host) {
    var inputs := host.lower(n.inputs, env);
    && (exists name :: Named(n, loop, host, name) && p.id == at.inst.id + "." + name)
    && p.typ == n.typ && p.policy == n.policy
    && p.targets == (if |n.targets| > 0 then n.targets else at.inst.targets)
    && |p.dependsOn| == |n.dependsOn|
    && (forall i :: 0 <= i < |n.dependsOn| ==> Depends(p.dependsOn[i], n.dependsOn[i], at))
    && inputs.Some?
    && (forall k :: k in p.inputs <==> k in inputs.value || k == "_source")
    && forall k :: k in p.inputs ==>
      p.inputs[k] == if k == "_source" then RStr("primitive:" + at.prim.name) else inputs.value[k]
  }

  ghost predicate Depends(made: string, dep: string, at: Instance) {
    made == if exists m :: One(m) in at.prim.body && m.name == dep then at.inst.id + "." + dep else dep
  }

  // ---- What a body expands to ----

  ghost predicate InstanceExpands(inst: PlanNode, prims: Prims, host: Host, depth: nat, ps: seq<PlanNode>)
    requires inst.typ in prims
    decreases depth, 2
  {
    var prim := prims[inst.typ];
    exists env, prepared ::
      && Bound(prim.inputs, inst.inputs, env) && host.prepare(prim.name, env) == Some(prepared)
      && BodyExpands(prim.body, Instance(inst, prim, prepared), env, None, prims, host, depth, ps)
  }

  ghost predicate BodyExpands(body: seq<Body>, at: Instance, env: Env, loop: Loop, prims: Prims, host: Host, depth: nat,
      ps: seq<PlanNode>)
    decreases depth, 1, body, 0
  {
    if body == [] then ps == []
    else
      exists first, rest ::
        && DeclExpands(body[0], at, env, loop, prims, host, depth, first)
        && BodyExpands(body[1..], at, env, loop, prims, host, depth, rest) && ps == first + rest
  }

  ghost predicate DeclExpands(d: Body, at: Instance, env: Env, loop: Loop, prims: Prims, host: Host, depth: nat,
      ps: seq<PlanNode>)
    decreases depth, 1, d, 0
  {
    match d
    case One(n) => NodeExpands(n, at, env, loop, prims, host, depth, ps)
    case Foreach(x, range, inner) =>
      exists vs :: RangeIs(range, env, at.prepared, vs) && EachExpands(vs, x, inner, at, env, prims, host, depth, ps)
  }

  /** The block once for each element, which the loop variable stands for. */
  ghost predicate EachExpands(vs: seq<Runtime>, x: string, inner: seq<Body>, at: Instance, env: Env, prims: Prims,
      host: Host, depth: nat, ps: seq<PlanNode>)
    decreases depth, 1, inner, |vs| + 1
  {
    if vs == [] then ps == []
    else
      exists first, rest ::
        && BodyExpands(inner, at, env[x := vs[0]], Some((x, vs[0])), prims, host, depth, first)
        && EachExpands(vs[1..], x, inner, at, env, prims, host, depth, rest) && ps == first + rest
  }

  ghost predicate NodeExpands(n: BodyNode, at: Instance, env: Env, loop: Loop, prims: Prims, host: Host, depth: nat,
      ps: seq<PlanNode>)
    decreases depth, 0
  {
    exists p :: Stands(p, n, at, env, loop, host)
      && if p.typ in prims then depth > 0 && InstanceExpands(p, prims, host, depth - 1, ps) else ps == [p]
  }

  // ---- Which failure is met ----

  ghost predicate InstanceFails(inst: PlanNode, prims: Prims, host: Host, depth: nat, f: Failure)
    requires inst.typ in prims
    decreases depth, 2
  {
    var prim := prims[inst.typ];
    || (f.MissingInput? && Lacks(prim.inputs, inst.inputs, f.name))
    || (exists env ::
          && Bound(prim.inputs, inst.inputs, env)
          && match host.prepare(prim.name, env)
             case None => f == PrepareFailed
             case Some(prepared) =>
               BodyFails(prim.body, Instance(inst, prim, prepared), env, None, prims, host, depth, f))
  }

  ghost predicate BodyFails(body: seq<Body>, at: Instance, env: Env, loop: Loop, prims: Prims, host: Host, depth: nat,
      f: Failure)
    decreases depth, 1, body, 0
  {
    && body != []
    && (|| DeclFails(body[0], at, env, loop, prims, host, depth, f)
        || (&& (exists first :: DeclExpands(body[0], at, env, loop, prims, host, depth, first))
            && BodyFails(body[1..], at, env, loop, prims, host, depth, f)))
  }

  ghost predicate DeclFails(d: Body, at: Instance, env: Env, loop: Loop, prims: Prims, host: Host, depth: nat,
      f: Failure)
    decreases depth, 1, d, 0
  {
    match d
    case One(n) => NodeFails(n, at, env, loop, prims, host, depth, f)
    case Foreach(x, range, inner) =>
      if exists vs :: RangeIs(range, env, at.prepared, vs)
      then exists vs ::
        RangeIs(range, env, at.prepared, vs) && EachFails(vs, x, inner, at, env, prims, host, depth, f)
      else f == BadRange
  }

  ghost predicate EachFails(vs: seq<Runtime>, x: string, inner: seq<Body>, at: Instance, env: Env, prims: Prims,
      host: Host, depth: nat, f: Failure)
    decreases depth, 1, inner, |vs| + 1
  {
    && vs != []
    && var env1, loop1 := env[x := vs[0]], Some((x, vs[0]));
       (|| BodyFails(inner, at, env1, loop1, prims, host, depth, f)
        || (&& (exists first :: BodyExpands(inner, at, env1, loop1, prims, host, depth, first))
            && EachFails(vs[1..], x, inner, at, env, prims, host, depth, f)))
  }

  ghost predicate NodeFails(n: BodyNode, at: Instance, env: Env, loop: Loop, prims: Prims, host: Host, depth: nat,
      f: Failure)
    decreases depth, 0
  {
    if exists p :: Stands(p, n, at, env, loop, host)
    then exists p ::
      && Stands(p, n, at, env, loop, host) && p.typ in prims
      && if depth == 0 then f == Endless else InstanceFails(p, prims, host, depth - 1, f)
    else f == NotLowered
  }

  // ---- Expansion computes them ----

  lemma {:induction false} LiteralRule(e: Expr, v: Runtime)
    ensures IsLiteral(e, v) <==> Literal(e) == Some(v)
    decreases e
  {
    if e.List? {
      if v.RList? { LiteralsRule(e.elems, v.elems); }
      if Literals(e.elems).Some? { LiteralsRule(e.elems, Literals(e.elems).value); }
    }
  }

  lemma {:induction false} LiteralsRule(es: seq<Expr>, vs: seq<Runtime>)
    ensures AreLiterals(es, vs) <==> Literals(es) == Some(vs)
    decreases es
  {
    if es != [] && vs != [] {
      LiteralRule(es[0], vs[0]);
      LiteralsRule(es[1..], vs[1..]);
      assert vs == [vs[0]] + vs[1..];
      assert forall i :: 0 < i < |es| ==> es[i] == es[1..][i - 1];
      assert |vs| == |es| ==> forall i :: 0 < i < |es| ==> vs[i] == vs[1..][i - 1];
      if Literal(es[0]).Some? && Literals(es[1..]).Some? {
        assert ([Literal(es[0]).value] + Literals(es[1..]).value)[1..] == Literals(es[1..]).value;
      }
    }
  }

  lemma RangeRule(range: Expr, env: Env, prepared: Env)
    ensures forall vs :: RangeIs(range, env, prepared, vs) <==> Range(range, env, prepared) == Some(vs)
  {
    forall vs ensures RangeIs(range, env, prepared, vs) <==> Range(range, env, prepared) == Some(vs) {
      match range
      case List(es) => LiteralsRule(es, vs);
      case Ident(x) => if |x| > 8 { assert x[..8] == "prepare." <==> "prepare." <= x; }
      case _ =>
    }
  }

  lemma {:induction false} FirstMissingRule(names: seq<string>, given: Env)
    ensures forall x :: Lacks(names, given, x) <==> FirstMissing(names, given) == Some(x)
    ensures FirstMissing(names, given).None? <==> forall x :: x in names ==> x in given
  {
    if names != [] {
      FirstMissingRule(names[1..], given);
      forall x ensures Lacks(names, given, x)
          <==> if names[0] !in given then x == names[0] else Lacks(names[1..], given, x) {
        LacksCons(names, given, x);
      }
    }
  }

  lemma LacksCons(names: seq<string>, given: Env, x: string)
    requires names != []
    ensures Lacks(names, given, x) <==> if names[0] !in given then x == names[0] else Lacks(names[1..], given, x)
  {
    assert forall i :: 0 < i < |names| ==> names[i] == names[1..][i - 1];
    if Lacks(names[1..], given, x) && names[0] in given {
      var i :| 0 <= i < |names[1..]| && names[1..][i] == x && forall j :: 0 <= j < i ==> names[1..][j] in given;
      assert names[i + 1] == x;
    }
    if Lacks(names, given, x) && names[0] in given {
      var i :| 0 <= i < |names| && names[i] == x && x !in given && forall j :: 0 <= j < i ==> names[j] in given;
      assert names[1..][i - 1] == x;
    }
    if names[0] !in given && x == names[0] { assert names[0] == x; }
  }

  lemma BoundRule(names: seq<string>, given: Env, env: Env)
    ensures Bound(names, given, env) <==> FirstMissing(names, given).None? && env == InputEnv(names, given)
  {
    FirstMissingRule(names, given);
  }

  /** The node of the rules is the one that expansion builds. */
  lemma StandsRule(p: PlanNode, n: BodyNode, at: Instance, env: Env, loop: Loop, host: Host)
    ensures var name, inputs := Label(n.name, loop, host), host.lower(n.inputs, env);
            Stands(p, n, at, env, loop, host) <==>
              name.Some? && inputs.Some? && p == Lowered(n, name.value, inputs.value, at)
  {
    var name, inputs := Label(n.name, loop, host), host.lower(n.inputs, env);
    assert forall s :: Named(n, loop, host, s) <==> name == Some(s);
    forall i | 0 <= i < |n.dependsOn|
      ensures Internal(at.prim, n.dependsOn[i]) <==> exists m :: One(m) in at.prim.body && m.name == n.dependsOn[i]
    {
      InternalRule(at.prim, n.dependsOn[i]);
    }
    if name.Some? && inputs.Some? {
      var q := Lowered(n, name.value, inputs.value, at);
      if Stands(p, n, at, env, loop, host) {
        assert p.dependsOn == q.dependsOn;
        assert p.inputs == q.inputs;
      }
    }
  }

  lemma InternalRule(prim: Prim, name: string)
    ensures Internal(prim, name) <==> exists m :: One(m) in prim.body && m.name == name
  {
    if Internal(prim, name) {
      var i :| 0 <= i < |prim.body| && prim.body[i].One? && prim.body[i].node.name == name;
      assert One(prim.body[i].node) in prim.body;
    }
    if m :| One(m) in prim.body && m.name == name {
      var i :| 0 <= i < |prim.body| && prim.body[i] == One(m);
    }
  }

  ghost predicate InstanceFollows(inst: PlanNode, prims: Prims, host: Host, depth: nat)
    requires inst.typ in prims
  {
    var r := Expand(inst, prims, host, depth);
    && (forall ps :: InstanceExpands(inst, prims, host, depth, ps) <==> r == Ok(ps))
    && (forall f :: InstanceFails(inst, prims, host, depth, f) <==> r == Err(f))
  }

  ghost predicate BodyFollows(body: seq<Body>, at: Instance, env: Env, loop: Loop, prims: Prims, host: Host, depth: nat)
  {
    var r := ExpandBody(body, at, env, loop, prims, host, depth);
    && (forall ps :: BodyExpands(body, at, env, loop, prims, host, depth, ps) <==> r == Ok(ps))
    && (forall f :: BodyFails(body, at, env, loop, prims, host, depth, f) <==> r == Err(f))
  }

  ghost predicate DeclFollows(d: Body, at: Instance, env: Env, loop: Loop, prims: Prims, host: Host, depth: nat) {
    var r := ExpandDecl(d, at, env, loop, prims, host, depth);
    && (forall ps :: DeclExpands(d, at, env, loop, prims, host, depth, ps) <==> r == Ok(ps))
    && (forall f :: DeclFails(d, at, env, loop, prims, host, depth, f) <==> r == Err(f))
  }

  ghost predicate EachFollows(vs: seq<Runtime>, x: string, inner: seq<Body>, at: Instance, env: Env, prims: Prims,
      host: Host, depth: nat)
  {
    var r := ExpandEach(vs, x, inner, at, env, prims, host, depth);
    && (forall ps :: EachExpands(vs, x, inner, at, env, prims, host, depth, ps) <==> r == Ok(ps))
    && (forall f :: EachFails(vs, x, inner, at, env, prims, host, depth, f) <==> r == Err(f))
  }

  ghost predicate NodeFollows(n: BodyNode, at: Instance, env: Env, loop: Loop, prims: Prims, host: Host, depth: nat) {
    var r := ExpandNode(n, at, env, loop, prims, host, depth);
    && (forall ps :: NodeExpands(n, at, env, loop, prims, host, depth, ps) <==> r == Ok(ps))
    && (forall f :: NodeFails(n, at, env, loop, prims, host, depth, f) <==> r == Err(f))
  }

  /** Expansion is exactly what the rules say: the same nodes in the same order, and the same failure. */
  lemma {:induction false} ExpansionFollowsRules(inst: PlanNode, prims: Prims, host: Host, depth: nat)
    requires inst.typ in prims
    ensures InstanceFollows(inst, prims, host, depth)
    decreases depth, 2
  {
    var prim := prims[inst.typ];
    FirstMissingRule(prim.inputs, inst.inputs);
    forall env ensures Bound(prim.inputs, inst.inputs, env)
        <==> FirstMissing(prim.inputs, inst.inputs).None? && env == InputEnv(prim.inputs, inst.inputs) {
      BoundRule(prim.inputs, inst.inputs, env);
    }
    var env := InputEnv(prim.inputs, inst.inputs);
    var prepared := host.prepare(prim.name, env);
    if prepared.Some? {
      BodyFollowsRules(prim.body, Instance(inst, prim, prepared.value), env, None, prims, host, depth);
    }
  }

  lemma {:induction false} BodyFollowsRules(body: seq<Body>, at: Instance, env: Env, loop: Loop, prims: Prims,
      host: Host, depth: nat)
    ensures BodyFollows(body, at, env, loop, prims, host, depth)
    decreases depth, 1, body, 0
  {
    if body != [] {
      DeclFollowsRules(body[0], at, env, loop, prims, host, depth);
      BodyFollowsRules(body[1..], at, env, loop, prims, host, depth);
    }
  }

  lemma {:induction false} DeclFollowsRules(d: Body, at: Instance, env: Env, loop: Loop, prims: Prims, host: Host,
      depth: nat)
    ensures DeclFollows(d, at, env, loop, prims, host, depth)
    decreases depth, 1, d, 0
  {
    match d
    case One(n) => NodeFollowsRules(n, at, env, loop, prims, host, depth);
    case Foreach(x, range, inner) =>
      RangeRule(range, env, at.prepared);
      var vs := Range(range, env, at.prepared);
      if vs.Some? {
        EachFollowsRules(vs.value, x, inner, at, env, prims, host, depth);
        BlockFollows(x, range, inner, vs.value, at, env, loop, prims, host, depth);
      }
  }

  lemma BlockFollows(x: string, range: Expr, inner: seq<Body>, vs: seq<Runtime>, at: Instance, env: Env, loop: Loop,
      prims: Prims, host: Host, depth: nat)
    requires forall us :: RangeIs(range, env, at.prepared, us) <==> us == vs
    requires Range(range, env, at.prepared) == Some(vs) && EachFollows(vs, x, inner, at, env, prims, host, depth)
    ensures DeclFollows(Foreach(x, range, inner), at, env, loop, prims, host, depth)
  {
    assert RangeIs(range, env, at.prepared, vs);
  }

  lemma {:induction false} EachFollowsRules(vs: seq<Runtime>, x: string, inner: seq<Body>, at: Instance, env: Env,
      prims: Prims, host: Host, depth: nat)
    ensures EachFollows(vs, x, inner, at, env, prims, host, depth)
    decreases depth, 1, inner, |vs| + 1
  {
    if vs != [] {
      BodyFollowsRules(inner, at, env[x := vs[0]], Some((x, vs[0])), prims, host, depth);
      EachFollowsRules(vs[1..], x, inner, at, env, prims, host, depth);
    }
  }

  lemma {:induction false} NodeFollowsRules(n: BodyNode, at: Instance, env: Env, loop: Loop, prims: Prims, host: Host,
      depth: nat)
    ensures NodeFollows(n, at, env, loop, prims, host, depth)
    decreases depth, 0
  {
    var name, inputs := Label(n.name, loop, host), host.lower(n.inputs, env);
    forall p ensures Stands(p, n, at, env, loop, host)
        <==> name.Some? && inputs.Some? && p == Lowered(n, name.value, inputs.value, at) {
      StandsRule(p, n, at, env, loop, host);
    }
    if name.Some? && inputs.Some? {
      var p := Lowered(n, name.value, inputs.value, at);
      if n.typ in prims && depth > 0 { ExpansionFollowsRules(p, prims, host, depth - 1); }
      LoweredNodeFollows(n, p, at, env, loop, prims, host, depth);
    }
  }

  lemma LoweredNodeFollows(n: BodyNode, p: PlanNode, at: Instance, env: Env, loop: Loop, prims: Prims, host: Host,
      depth: nat)
    requires forall q :: Stands(q, n, at, env, loop, host) <==> q == p
    requires p.typ in prims && depth > 0 ==> InstanceFollows(p, prims, host, depth - 1)
    requires ExpandNode(n, at, env, loop, prims, host, depth)
          == if p.typ !in prims then Ok([p]) else if depth == 0 then Err(Endless) else Expand(p, prims, host, depth - 1)
    ensures NodeFollows(n, at, env, loop, prims, host, depth)
  {
    var r := ExpandNode(n, at, env, loop, prims, host, depth);
    forall ps ensures NodeExpands(n, at, env, loop, prims, host, depth, ps) <==> r == Ok(ps) {
      NodeExpandsAs(n, p, at, env, loop, prims, host, depth, ps);
    }
    forall f ensures NodeFails(n, at, env, loop, prims, host, depth, f) <==> r == Err(f) {
      NodeFailsAs(n, p, at, env, loop, prims, host, depth, f);
    }
  }

  lemma NodeExpandsAs(n: BodyNode, p: PlanNode, at: Instance, env: Env, loop: Loop, prims: Prims, host: Host,
      depth: nat, ps: seq<PlanNode>)
    requires forall q :: Stands(q, n, at, env, loop, host) <==> q == p
    ensures NodeExpands(n, at, env, loop, prims, host, depth, ps) <==>
      if p.typ in prims then depth > 0 && InstanceExpands(p, prims, host, depth - 1, ps) else ps == [p]
  {
    assert Stands(p, n, at, env, loop, host);
  }

  lemma NodeFailsAs(n: BodyNode, p: PlanNode, at: Instance, env: Env, loop: Loop, prims: Prims, host: Host,
      depth: nat, f: Failure)
    requires forall q :: Stands(q, n, at, env, loop, host) <==> q == p
    ensures NodeFails(n, at, env, loop, prims, host, depth, f) <==>
      p.typ in prims && if depth == 0 then f == Endless else InstanceFails(p, prims, host, depth - 1, f)
  {
    assert Stands(p, n, at, env, loop, host);
  }

  // ---- A whole plan ----

  /** Node by node in the plan's order: one of a custom type is what it expands to, any other stays. */
  ghost predicate PlanExpands(nodes: seq<PlanNode>, prims: Prims, host: Host, depth: nat, ps: seq<PlanNode>) {
    if nodes == [] then ps == []
    else
      exists first, rest ::
        && NodeBecomes(nodes[0], prims, host, depth, first) && PlanExpands(nodes[1..], prims, host, depth, rest)
        && ps == first + rest
  }

  ghost predicate NodeBecomes(n: PlanNode, prims: Prims, host: Host, depth: nat, ps: seq<PlanNode>) {
    if n.typ in prims then InstanceExpands(n, prims, host, depth, ps) else ps == [n]
  }

  lemma {:induction false} PlanFollowsRules(nodes: seq<PlanNode>, prims: Prims, host: Host, depth: nat)
    ensures forall ps :: PlanExpands(nodes, prims, host, depth, ps) <==> ExpandPlan(nodes, prims, host, depth) == Ok(ps)
    decreases |nodes|
  {
    if nodes != [] {
      PlanFollowsRules(nodes[1..], prims, host, depth);
      if nodes[0].typ in prims { ExpansionFollowsRules(nodes[0], prims, host, depth); }
    }
  }
}
