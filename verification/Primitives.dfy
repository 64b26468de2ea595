/** internal/devlang/lower.go: expanding custom primitives, with nested foreach blocks, into
    built-in nodes; and the uses graph that validate.go checks for cycles. */
module Primitives {
  import opened Wrappers
  import opened Digraph
  import opened Expr

  datatype Runtime =
    | RStr(s: string)
    | RBool(b: bool)
    | RNum(n: int)
    | RList(elems: seq<Runtime>)
    | RMap(fields: map<string, Runtime>)

  type Env = map<string, Runtime>

  datatype PlanNode = PlanNode(id: string, typ: string, targets: seq<string>, dependsOn: seq<string>,
      policy: Option<string>, inputs: Env)

  datatype BodyNode = BodyNode(name: string, typ: string, targets: seq<string>, dependsOn: seq<string>,
      policy: Option<string>, inputs: map<string, Expr>)

  datatype Body = One(node: BodyNode) | Foreach(loop: string, range: Expr, body: seq<Body>)

  datatype Prim = Prim(name: string, inputs: seq<string>, body: seq<Body>)

  type Prims = map<string, Prim>

  /** What expansion takes from elsewhere: the prepare block, substitution and lowering of a
      node's inputs, and substitution of the loop variable in its name. None is an error. */
  datatype Host = Host(prepare: (string, Env) -> Option<Env>, lower: (map<string, Expr>, Env) -> Option<Env>,
                       relabel: (string, string, Runtime) -> Option<string>)

  /** Endless stands for recursion that goes on past the given depth. */
  datatype Failure = MissingInput(name: string) | PrepareFailed | BadRange | NotLowered | Endless

  type Expansion = Result<seq<PlanNode>, Failure>

  function FirstMissing(names: seq<string>, given: Env): Option<string> {
    if names == [] then None else if names[0] !in given then Some(names[0]) else FirstMissing(names[1..], given)
  }

  function InputEnv(names: seq<string>, given: Env): Env {
    map x | x in names && x in given :: given[x]
  }

  // ---- Foreach ranges ----

  function Literal(e: Expr): Option<Runtime> {
    match e
    case Str(s) => Some(RStr(s))
    case Bool(b) => Some(RBool(b))
    case Num(n) => Some(RNum(n))
    case List(es) => (match Literals(es) case None => None case Some(vs) => Some(RList(vs)))
    case _ => None
  }

  function Literals(es: seq<Expr>): Option<seq<Runtime>> {
    if es == [] then Some([])
    else
      match Literal(es[0])
      case None => None
      case Some(v) => match Literals(es[1..]) case None => None case Some(vs) => Some([v] + vs)
  }

  const PREPARED := "prepare."

  /** resolveRangeExpr, and the check that the result is a list. */
  function Range(range: Expr, inputs: Env, prepared: Env): Option<seq<Runtime>> {
    match range
    case Ident(x) =>
      var fromPrepare := |x| > 8 && x[..8] == PREPARED;
      var env, key := if fromPrepare then prepared else inputs, if fromPrepare then x[8..] else x;
      if key in env && env[key].RList? then Some(env[key].elems) else None
    case List(es) => Literals(es)
    case _ => None
  }

  // ---- Expansion ----

  /** What the parts of one primitive's body share. */
  datatype Instance = Instance(inst: PlanNode, prim: Prim, prepared: Env)

  /** The loop a node stands in: its variable and the current element. */
  type Loop = Option<(string, Runtime)>

  predicate Internal(prim: Prim, name: string) {
    exists i :: 0 <= i < |prim.body| && prim.body[i].One? && prim.body[i].node.name == name
  }

  function Child(id: string, name: string): string {
    id + "." + name
  }

  /** A body node as a plan node, its inputs lowered: the first half of expandPrimitiveNode. */
  function Lowered(n: BodyNode, name: string, inputs: Env, at: Instance): PlanNode {
    PlanNode(
      Child(at.inst.id, name), n.typ,
      if n.targets == [] then at.inst.targets else n.targets,
      seq(|n.dependsOn|, i requires 0 <= i < |n.dependsOn| =>
        if Internal(at.prim, n.dependsOn[i]) then Child(at.inst.id, n.dependsOn[i]) else n.dependsOn[i]),
      n.policy, inputs["_source" := RStr("primitive:" + at.prim.name)])
  }

  /** expandCustomPrimitive. */
  function Expand(inst: PlanNode, prims: Prims, host: Host, depth: nat): Expansion
    requires inst.typ in prims
    decreases depth, 2
  {
    var prim := prims[inst.typ];
    var missing := FirstMissing(prim.inputs, inst.inputs);
    if missing.Some? then Err(MissingInput(missing.value))
    else
      var env := InputEnv(prim.inputs, inst.inputs);
      match host.prepare(prim.name, env)
      case None => Err(PrepareFailed)
      case Some(prepared) => ExpandBody(prim.body, Instance(inst, prim, prepared), env, None, prims, host, depth)
  }

  function ExpandBody(body: seq<Body>, at: Instance, env: Env, loop: Loop, prims: Prims, host: Host,
      depth: nat): Expansion
    decreases depth, 1, body, 0
  {
    if body == [] then Ok([])
    else Then(ExpandDecl(body[0], at, env, loop, prims, host, depth),
        ExpandBody(body[1..], at, env, loop, prims, host, depth))
  }

  function ExpandDecl(d: Body, at: Instance, env: Env, loop: Loop, prims: Prims, host: Host, depth: nat): Expansion
    decreases depth, 1, d, 0
  {
    match d
    case One(n) => ExpandNode(n, at, env, loop, prims, host, depth)
    case Foreach(x, range, inner) =>
      match Range(range, env, at.prepared)
      case None => Err(BadRange)
      case Some(vs) => ExpandEach(vs, x, inner, at, env, prims, host, depth)
  }

  function Then(a: Expansion, b: Expansion): Expansion {
    if a.Err? then a else if b.Err? then b else Ok(a.value + b.value)
  }

  /** expandForeachBody, the loop over the elements. */
  function ExpandEach(vs: seq<Runtime>, x: string, inner: seq<Body>, at: Instance, env: Env, prims: Prims, host: Host,
      depth: nat): Expansion
    decreases depth, 1, inner, |vs| + 1
  {
    if vs == [] then Ok([])
    else
      Then(ExpandBody(inner, at, env[x := vs[0]], Some((x, vs[0])), prims, host, depth),
           ExpandEach(vs[1..], x, inner, at, env, prims, host, depth))
  }

  function Label(name: string, loop: Loop, host: Host): Option<string> {
    if loop.None? then Some(name) else host.relabel(name, loop.value.0, loop.value.1)
  }

  /** expandPrimitiveNode. */
  function ExpandNode(n: BodyNode, at: Instance, env: Env, loop: Loop, prims: Prims, host: Host, depth: nat): Expansion
    decreases depth, 0
  {
    var name, inputs := Label(n.name, loop, host), host.lower(n.inputs, env);
    if name.None? || inputs.None? then Err(NotLowered)
    else
      var p := Lowered(n, name.value, inputs.value, at);
      if n.typ !in prims then Ok([p])
      else if depth == 0 then Err(Endless)
      else Expand(p, prims, host, depth - 1)
  }

  // ---- The methods ----

  method ExpandCustomPrimitive(inst: PlanNode, prims: Prims, host: Host, ghost depth: nat) returns (r: Expansion)
    requires inst.typ in prims && Expand(inst, prims, host, depth) != Err(Endless)
    ensures r == Expand(inst, prims, host, depth)
    decreases depth, 2
  {
    var prim := prims[inst.typ];
    var missing := FirstMissing(prim.inputs, inst.inputs);
    if missing.Some? { return Err(MissingInput(missing.value)); }
    var env := InputEnv(prim.inputs, inst.inputs);
    var prepared := host.prepare(prim.name, env);
    if prepared.None? { return Err(PrepareFailed); }
    r := ExpandBodyDecls(prim.body, Instance(inst, prim, prepared.value), env, None, prims, host, depth);
  }

  method ExpandBodyDecls(body: seq<Body>, at: Instance, env: Env, loop: Loop, prims: Prims, host: Host,
      ghost depth: nat) returns (r: Expansion)
    requires ExpandBody(body, at, env, loop, prims, host, depth) != Err(Endless)
    ensures r == ExpandBody(body, at, env, loop, prims, host, depth)
    decreases depth, 1, body, 0
  {
    var result: seq<PlanNode> := [];
    assert body[0..] == body;
    ThenNothing(ExpandBody(body, at, env, loop, prims, host, depth));
    for i := 0 to |body|
      invariant ExpandBody(body, at, env, loop, prims, host, depth)
             == Then(Ok(result), ExpandBody(body[i..], at, env, loop, prims, host, depth))
    {
      assert body[i..][1..] == body[i + 1..];
      ThenAssociates(result, ExpandDecl(body[i], at, env, loop, prims, host, depth),
          ExpandBody(body[i + 1..], at, env, loop, prims, host, depth));
      var expanded := ExpandBodyDecl(body[i], at, env, loop, prims, host, depth);
      if expanded.Err? { return expanded; }
      result := result + expanded.value;
    }
    r := Ok(result);
    assert result + [] == result;
  }

  method ExpandBodyDecl(d: Body, at: Instance, env: Env, loop: Loop, prims: Prims, host: Host, ghost depth: nat)
      returns (r: Expansion)
    requires ExpandDecl(d, at, env, loop, prims, host, depth) != Err(Endless)
    ensures r == ExpandDecl(d, at, env, loop, prims, host, depth)
    decreases depth, 1, d, 0
  {
    match d {
      case One(n) =>
        r := ExpandPrimitiveNode(n, at, env, loop, prims, host, depth);
      case Foreach(x, range, inner) =>
        var vs := Range(range, env, at.prepared);
        if vs.None? { return Err(BadRange); }
        r := ExpandForeachBody(vs.value, x, inner, at, env, prims, host, depth);
    }
  }

  lemma ThenNothing(a: Expansion)
    ensures Then(Ok([]), a) == a
  {
    if a.Ok? { assert [] + a.value == a.value; }
  }

  lemma ThenAssociates(done: seq<PlanNode>, a: Expansion, b: Expansion)
    ensures Then(Ok(done), Then(a, b)) == if a.Err? then a else Then(Ok(done + a.value), b)
  {
    if a.Ok? && b.Ok? { assert done + (a.value + b.value) == done + a.value + b.value; }
  }

  method ExpandForeachBody(vs: seq<Runtime>, x: string, inner: seq<Body>, at: Instance, env: Env, prims: Prims,
      host: Host, ghost depth: nat)
    returns (r: Expansion)
    requires ExpandEach(vs, x, inner, at, env, prims, host, depth) != Err(Endless)
    ensures r == ExpandEach(vs, x, inner, at, env, prims, host, depth)
    decreases depth, 1, inner, |vs| + 1
  {
    var result: seq<PlanNode> := [];
    assert vs[0..] == vs;
    ThenNothing(ExpandEach(vs, x, inner, at, env, prims, host, depth));
    for i := 0 to |vs|
      invariant ExpandEach(vs, x, inner, at, env, prims, host, depth)
             == Then(Ok(result), ExpandEach(vs[i..], x, inner, at, env, prims, host, depth))
    {
      assert vs[i..][1..] == vs[i + 1..];
      var loopEnv := env[x := vs[i]];
      ThenAssociates(result, ExpandBody(inner, at, loopEnv, Some((x, vs[i])), prims, host, depth),
                     ExpandEach(vs[i + 1..], x, inner, at, env, prims, host, depth));
      var expanded := ExpandBodyDecls(inner, at, loopEnv, Some((x, vs[i])), prims, host, depth);
      if expanded.Err? { return expanded; }
      result := result + expanded.value;
    }
    r := Ok(result);
    assert result + [] == result;
  }

  method ExpandPrimitiveNode(n: BodyNode, at: Instance, env: Env, loop: Loop, prims: Prims, host: Host,
      ghost depth: nat) returns (r: Expansion)
    requires ExpandNode(n, at, env, loop, prims, host, depth) != Err(Endless)
    ensures r == ExpandNode(n, at, env, loop, prims, host, depth)
    decreases depth, 0
  {
    var name := Label(n.name, loop, host);
    var inputs := host.lower(n.inputs, env);
    if name.None? || inputs.None? { return Err(NotLowered); }
    var deps: seq<string> := [];
    for i := 0 to |n.dependsOn|
      invariant |deps| == i
      invariant forall k :: 0 <= k < i ==>
        deps[k] == if Internal(at.prim, n.dependsOn[k]) then Child(at.inst.id, n.dependsOn[k]) else n.dependsOn[k]
    {
      deps := deps + [if Internal(at.prim, n.dependsOn[i]) then Child(at.inst.id, n.dependsOn[i]) else n.dependsOn[i]];
    }
    var p := PlanNode(Child(at.inst.id, name.value), n.typ, if n.targets == [] then at.inst.targets else n.targets,
        deps, n.policy, inputs.value["_source" := RStr("primitive:" + at.prim.name)]);
    assert deps == Lowered(n, name.value, inputs.value, at).dependsOn;
    if p.typ in prims {
      r := ExpandCustomPrimitive(p, prims, host, depth - 1);
    } else {
      r := Ok([p]);
    }
  }

  // ---- A one-way door ----

  /** id lies strictly below root in the dotted hierarchy. */
  ghost predicate Extends(id: string, root: string) {
    |root| < |id| && id[..|root|] == root && id[|root|] == '.'
  }

  /** Built-in nodes only, all named below the instance. */
  ghost predicate Outside(r: Expansion, root: string, prims: Prims) {
    r.Ok? ==> forall i :: 0 <= i < |r.value| ==> r.value[i].typ !in prims && Extends(r.value[i].id, root)
  }

  lemma ExtendsTransitive(a: string, b: string, c: string)
    requires Extends(a, b) && Extends(b, c)
    ensures Extends(a, c)
  {
    assert a[..|c|] == b[..|c|];
    assert a[|c|] == b[|c|];
  }

  lemma {:induction false} ExpandIsOneWay(inst: PlanNode, prims: Prims, host: Host, depth: nat)
    requires inst.typ in prims
    ensures Outside(Expand(inst, prims, host, depth), inst.id, prims)
    decreases depth, 2
  {
    var prim := prims[inst.typ];
    var env := InputEnv(prim.inputs, inst.inputs);
    var prepared := host.prepare(prim.name, env);
    if prepared.Some? { BodyIsOneWay(prim.body, Instance(inst, prim, prepared.value), env, None, prims, host, depth); }
  }

  lemma {:induction false} BodyIsOneWay(body: seq<Body>, at: Instance, env: Env, loop: Loop, prims: Prims, host: Host,
      depth: nat)
    ensures Outside(ExpandBody(body, at, env, loop, prims, host, depth), at.inst.id, prims)
    decreases depth, 1, body, 0
  {
    if body != [] {
      DeclIsOneWay(body[0], at, env, loop, prims, host, depth);
      BodyIsOneWay(body[1..], at, env, loop, prims, host, depth);
    }
  }

  lemma {:induction false} DeclIsOneWay(d: Body, at: Instance, env: Env, loop: Loop, prims: Prims, host: Host,
      depth: nat)
    ensures Outside(ExpandDecl(d, at, env, loop, prims, host, depth), at.inst.id, prims)
    decreases depth, 1, d, 0
  {
    match d
    case One(n) => NodeIsOneWay(n, at, env, loop, prims, host, depth);
    case Foreach(x, range, inner) =>
      var vs := Range(range, env, at.prepared);
      if vs.Some? { EachIsOneWay(vs.value, x, inner, at, env, prims, host, depth); }
  }

  lemma {:induction false} EachIsOneWay(vs: seq<Runtime>, x: string, inner: seq<Body>, at: Instance, env: Env,
      prims: Prims, host: Host, depth: nat)
    ensures Outside(ExpandEach(vs, x, inner, at, env, prims, host, depth), at.inst.id, prims)
    decreases depth, 1, inner, |vs| + 1
  {
    if vs != [] {
      BodyIsOneWay(inner, at, env[x := vs[0]], Some((x, vs[0])), prims, host, depth);
      EachIsOneWay(vs[1..], x, inner, at, env, prims, host, depth);
    }
  }

  lemma {:induction false} NodeIsOneWay(n: BodyNode, at: Instance, env: Env, loop: Loop, prims: Prims, host: Host,
      depth: nat)
    ensures Outside(ExpandNode(n, at, env, loop, prims, host, depth), at.inst.id, prims)
    decreases depth, 0
  {
    var name, inputs := Label(n.name, loop, host), host.lower(n.inputs, env);
    if name.Some? && inputs.Some? {
      var p := Lowered(n, name.value, inputs.value, at);
      assert Extends(p.id, at.inst.id);
      if n.typ in prims && depth > 0 {
        ExpandIsOneWay(p, prims, host, depth - 1);
        var r := Expand(p, prims, host, depth - 1);
        if r.Ok? {
          forall i | 0 <= i < |r.value| ensures Extends(r.value[i].id, at.inst.id) {
            ExtendsTransitive(r.value[i].id, p.id, at.inst.id);
          }
        }
      }
    }
  }

  // ---- Termination ----

  /** A literal range with at least one element: the block is expanded whatever the inputs. */
  predicate Iterates(range: Expr) {
    range.List? && range.elems != [] && Literals(range.elems).Some?
  }

  /** A range that some inputs may make nonempty. The literal [] never is, and any other range is refused. */
  predicate MayIterate(range: Expr) {
    range.Ident? || Iterates(range)
  }

  /** The primitives a body may instantiate, inside foreach blocks too. */
  function Uses(body: seq<Body>, prims: Prims): seq<Id>
    decreases body
  {
    if body == [] then [] else UsesOf(body[0], prims) + Uses(body[1..], prims)
  }

  function UsesOf(d: Body, prims: Prims): seq<Id>
    decreases d
  {
    match d
    case One(n) => if n.typ in prims then [n.typ] else []
    case Foreach(_, range, inner) => if MayIterate(range) then Uses(inner, prims) else []
  }

  /** The primitives a body instantiates whenever it expands: in top-level nodes and in foreach
      blocks over literal lists, nested ones included. */
  function FirmUses(body: seq<Body>, prims: Prims): seq<Id>
    decreases body
  {
    if body == [] then [] else FirmUsesOf(body[0], prims) + FirmUses(body[1..], prims)
  }

  function FirmUsesOf(d: Body, prims: Prims): seq<Id>
    decreases d
  {
    match d
    case One(n) => if n.typ in prims then [n.typ] else []
    case Foreach(_, range, inner) => if Iterates(range) then FirmUses(inner, prims) else []
  }

  /** The uses that the validator looks at: top-level nodes only. */
  function DirectUses(body: seq<Body>, prims: Prims): seq<Id> {
    if body == [] then []
    else (if body[0].One? && body[0].node.typ in prims then [body[0].node.typ] else []) + DirectUses(body[1..], prims)
  }

  ghost function UsesGraph(prims: Prims): Graph {
    map p | p in prims :: Uses(prims[p].body, prims)
  }

  ghost function FirmGraph(prims: Prims): Graph {
    map p | p in prims :: FirmUses(prims[p].body, prims)
  }

  ghost function CheckedGraph(prims: Prims): Graph {
    map p | p in prims :: DirectUses(prims[p].body, prims)
  }

  ghost predicate UsesUnder(uses: seq<Id>, rank: map<Id, nat>, depth: nat) {
    forall p :: p in uses ==> p in rank && rank[p] < depth
  }

  lemma {:induction false} RankedExpandReturns(inst: PlanNode, prims: Prims, host: Host, rank: map<Id, nat>, depth: nat)
    requires inst.typ in prims && IsRanking(UsesGraph(prims), rank)
    requires inst.typ in rank ==> rank[inst.typ] <= depth
    ensures Expand(inst, prims, host, depth) != Err(Endless)
    decreases depth, 2
  {
    var prim := prims[inst.typ];
    var env := InputEnv(prim.inputs, inst.inputs);
    var prepared := host.prepare(prim.name, env);
    forall p | p in Uses(prim.body, prims) ensures p in rank && rank[p] < depth {
      assert p in Succ(UsesGraph(prims), inst.typ);
      EdgeDrops(UsesGraph(prims), rank, inst.typ, p);
    }
    if prepared.Some? {
      RankedBodyReturns(prim.body, Instance(inst, prim, prepared.value), env, None, prims, host, rank, depth);
    }
  }

  lemma {:induction false} RankedBodyReturns(body: seq<Body>, at: Instance, env: Env, loop: Loop, prims: Prims,
      host: Host, rank: map<Id, nat>, depth: nat)
    requires IsRanking(UsesGraph(prims), rank) && UsesUnder(Uses(body, prims), rank, depth)
    ensures ExpandBody(body, at, env, loop, prims, host, depth) != Err(Endless)
    decreases depth, 1, body, 0
  {
    if body != [] {
      RankedDeclReturns(body[0], at, env, loop, prims, host, rank, depth);
      RankedBodyReturns(body[1..], at, env, loop, prims, host, rank, depth);
    }
  }

  lemma {:induction false} RankedDeclReturns(d: Body, at: Instance, env: Env, loop: Loop, prims: Prims, host: Host,
      rank: map<Id, nat>, depth: nat)
    requires IsRanking(UsesGraph(prims), rank) && UsesUnder(UsesOf(d, prims), rank, depth)
    ensures ExpandDecl(d, at, env, loop, prims, host, depth) != Err(Endless)
    decreases depth, 1, d, 0
  {
    match d
    case One(n) =>
      if n.typ in prims { assert n.typ in UsesOf(d, prims); }
      RankedNodeReturns(n, at, env, loop, prims, host, rank, depth);
    case Foreach(x, range, inner) =>
      var vs := Range(range, env, at.prepared);
      if vs.Some? {
        if MayIterate(range) {
          RankedEachReturns(vs.value, x, inner, at, env, prims, host, rank, depth);
        } else {
          assert vs.value == [];
        }
      }
  }

  lemma {:induction false} RankedEachReturns(vs: seq<Runtime>, x: string, inner: seq<Body>, at: Instance, env: Env,
      prims: Prims, host: Host, rank: map<Id, nat>, depth: nat)
    requires IsRanking(UsesGraph(prims), rank) && UsesUnder(Uses(inner, prims), rank, depth)
    ensures ExpandEach(vs, x, inner, at, env, prims, host, depth) != Err(Endless)
    decreases depth, 1, inner, |vs| + 1
  {
    if vs != [] {
      RankedBodyReturns(inner, at, env[x := vs[0]], Some((x, vs[0])), prims, host, rank, depth);
      RankedEachReturns(vs[1..], x, inner, at, env, prims, host, rank, depth);
    }
  }

  lemma {:induction false} RankedNodeReturns(n: BodyNode, at: Instance, env: Env, loop: Loop, prims: Prims, host: Host,
      rank: map<Id, nat>, depth: nat)
    requires IsRanking(UsesGraph(prims), rank)
    requires n.typ in prims ==> n.typ in rank && rank[n.typ] < depth
    ensures ExpandNode(n, at, env, loop, prims, host, depth) != Err(Endless)
    decreases depth, 0
  {
    var name, inputs := Label(n.name, loop, host), host.lower(n.inputs, env);
    if name.Some? && inputs.Some? && n.typ in prims {
      RankedExpandReturns(Lowered(n, name.value, inputs.value, at), prims, host, rank, depth - 1);
    }
  }

  /** The theorem on primitives: when no primitive may use itself, foreach blocks included, some depth
      is enough for every instance, and what comes out is outside the door. */
  lemma AcyclicUsesExpand(prims: Prims, host: Host) returns (depth: nat)
    requires Acyclic(UsesGraph(prims))
    ensures forall inst: PlanNode :: inst.typ in prims ==>
              Expand(inst, prims, host, depth) != Err(Endless)
                  && Outside(Expand(inst, prims, host, depth), inst.id, prims)
  {
    var rank := AcyclicHasRanking(UsesGraph(prims));
    depth := Largest(rank);
    forall inst: PlanNode | inst.typ in prims
      ensures Expand(inst, prims, host, depth) != Err(Endless)
          && Outside(Expand(inst, prims, host, depth), inst.id, prims)
    {
      RankedExpandReturns(inst, prims, host, rank, depth);
      ExpandIsOneWay(inst, prims, host, depth);
    }
  }

  lemma {:induction false} LiteralsLength(es: seq<Expr>)
    ensures Literals(es).Some? ==> |Literals(es).value| == |es|
    decreases |es|
  {
    if es != [] { LiteralsLength(es[1..]); }
  }

  /** A body that expands has expanded every primitive it firmly uses, one level down. */
  lemma {:induction false} BodyExpandsItsUses(body: seq<Body>, at: Instance, env: Env, loop: Loop, prims: Prims,
      host: Host, depth: nat, p: string)
    returns (inst: PlanNode)
    requires ExpandBody(body, at, env, loop, prims, host, depth).Ok? && p in FirmUses(body, prims)
    ensures inst.typ == p && p in prims && depth > 0 && Expand(inst, prims, host, depth - 1).Ok?
    decreases body, 1
  {
    if p in FirmUsesOf(body[0], prims) {
      assert ExpandDecl(body[0], at, env, loop, prims, host, depth).Ok?;
      inst := DeclExpandsItsUses(body[0], at, env, loop, prims, host, depth, p);
    } else {
      inst := BodyExpandsItsUses(body[1..], at, env, loop, prims, host, depth, p);
    }
  }

  lemma {:induction false} DeclExpandsItsUses(d: Body, at: Instance, env: Env, loop: Loop, prims: Prims,
      host: Host, depth: nat, p: string)
    returns (inst: PlanNode)
    requires ExpandDecl(d, at, env, loop, prims, host, depth).Ok? && p in FirmUsesOf(d, prims)
    ensures inst.typ == p && p in prims && depth > 0 && Expand(inst, prims, host, depth - 1).Ok?
    decreases d, 0
  {
    match d
    case One(n) =>
      inst := Lowered(n, Label(n.name, loop, host).value, host.lower(n.inputs, env).value, at);
    case Foreach(x, range, inner) =>
      LiteralsLength(range.elems);
      var v := Literals(range.elems).value[0];
      assert ExpandBody(inner, at, env[x := v], Some((x, v)), prims, host, depth).Ok?;
      inst := BodyExpandsItsUses(inner, at, env[x := v], Some((x, v)), prims, host, depth, p);
  }

  /** An instance of a primitive on a firm cycle never expands. */
  lemma {:induction false} FirmCycleNeverExpands(inst: PlanNode, prims: Prims, host: Host, depth: nat)
    requires inst.typ in prims && Reaches(FirmGraph(prims), inst.typ, inst.typ)
    ensures Expand(inst, prims, host, depth).Err?
    decreases depth
  {
    if Expand(inst, prims, host, depth).Ok? {
      var p := CycleNext(FirmGraph(prims), inst.typ);
      var prim := prims[inst.typ];
      var env := InputEnv(prim.inputs, inst.inputs);
      var at := Instance(inst, prim, host.prepare(prim.name, env).value);
      var next := BodyExpandsItsUses(prim.body, at, env, None, prims, host, depth, p);
      FirmCycleNeverExpands(next, prims, host, depth - 1);
    }
  }

  lemma {:induction false} DirectUsesAreFirm(body: seq<Body>, prims: Prims, p: Id)
    requires p in DirectUses(body, prims)
    ensures p in FirmUses(body, prims)
    decreases |body|
  {
    if p in DirectUses(body[1..], prims) { DirectUsesAreFirm(body[1..], prims, p); }
  }

  /** The validator sees a use exactly where a node of the type stands at the top of a body. */
  lemma {:induction false} DirectUseIsTopLevel(body: seq<Body>, prims: Prims, p: Id)
    ensures p in DirectUses(body, prims)
       <==> p in prims && exists i :: 0 <= i < |body| && body[i].One? && body[i].node.typ == p
    decreases |body|
  {
    if body != [] {
      DirectUseIsTopLevel(body[1..], prims, p);
      assert forall i :: 0 < i < |body| ==> body[i] == body[1..][i - 1];
      if i :| 0 <= i < |body[1..]| && body[1..][i].One? && body[1..][i].node.typ == p {
        assert body[i + 1].node.typ == p;
      }
    }
  }

  lemma CheckedReachesFirmly(prims: Prims, p: Id, q: Id)
    requires Reaches(CheckedGraph(prims), p, q)
    ensures Reaches(FirmGraph(prims), p, q)
  {
    var w :| IsWalkBetween(CheckedGraph(prims), w, p, q);
    CheckedWalkIsFirm(prims, w);
    assert IsWalkBetween(FirmGraph(prims), w, p, q);
  }

  lemma {:induction false} CheckedWalkIsFirm(prims: Prims, w: seq<Id>)
    requires IsWalk(CheckedGraph(prims), w)
    ensures IsWalk(FirmGraph(prims), w)
    decreases |w|
  {
    if |w| > 1 {
      DirectUsesAreFirm(prims[w[0]].body, prims, w[1]);
      CheckedWalkIsFirm(prims, w[1..]);
    }
  }

  /** The cycles the validator reports are real: an instance of a primitive on one never expands. */
  lemma CheckedCycleNeverExpands(inst: PlanNode, prims: Prims, host: Host, depth: nat)
    requires inst.typ in prims && Reaches(CheckedGraph(prims), inst.typ, inst.typ)
    ensures Expand(inst, prims, host, depth).Err?
  {
    CheckedReachesFirmly(prims, inst.typ, inst.typ);
    FirmCycleNeverExpands(inst, prims, host, depth);
  }

  // ---- The check misses what stands in a foreach ----

  ghost predicate LiteralRanges(body: seq<Body>)
    decreases body
  {
    forall i :: 0 <= i < |body| ==> LiteralRangesOf(body[i])
  }

  ghost predicate LiteralRangesOf(d: Body)
    decreases d
  {
    d.Foreach? ==> d.range.List? && Literals(d.range.elems).Some? && LiteralRanges(d.body)
  }

  ghost predicate HasInputs(env: Env, prims: Prims) {
    forall p, x :: p in prims && x in prims[p].inputs ==> x in env
  }

  /** Nothing but the recursion can go wrong: the host succeeds and supplies every input, and
      every range is a literal list. */
  ghost predicate OnlyRecursionFails(prims: Prims, host: Host) {
    && (forall name, x, e :: host.relabel(name, x, e).Some?)
    && (forall ins, env :: host.lower(ins, env).Some? && HasInputs(host.lower(ins, env).value, prims))
    && (forall name, env :: host.prepare(name, env).Some?)
    && forall p :: p in prims ==> LiteralRanges(prims[p].body)
  }

  ghost predicate FineOrEndless(r: Expansion) {
    r.Ok? || r == Err(Endless)
  }

  lemma {:induction false} NothingMissing(names: seq<string>, env: Env)
    requires forall x :: x in names ==> x in env
    ensures FirstMissing(names, env).None?
    decreases |names|
  {
    if names != [] {
      assert names[0] in names;
      NothingMissing(names[1..], env);
    }
  }

  lemma {:induction false} ExpandFineOrEndless(inst: PlanNode, prims: Prims, host: Host, depth: nat)
    requires inst.typ in prims && OnlyRecursionFails(prims, host) && HasInputs(inst.inputs, prims)
    ensures FineOrEndless(Expand(inst, prims, host, depth))
    decreases depth, 2
  {
    var prim := prims[inst.typ];
    NothingMissing(prim.inputs, inst.inputs);
    var env := InputEnv(prim.inputs, inst.inputs);
    var at := Instance(inst, prim, host.prepare(prim.name, env).value);
    BodyFineOrEndless(prim.body, at, env, None, prims, host, depth);
  }

  lemma {:induction false} BodyFineOrEndless(body: seq<Body>, at: Instance, env: Env, loop: Loop, prims: Prims,
      host: Host, depth: nat)
    requires OnlyRecursionFails(prims, host) && LiteralRanges(body)
    ensures FineOrEndless(ExpandBody(body, at, env, loop, prims, host, depth))
    decreases depth, 1, body, 0
  {
    if body != [] {
      DeclFineOrEndless(body[0], at, env, loop, prims, host, depth);
      BodyFineOrEndless(body[1..], at, env, loop, prims, host, depth);
    }
  }

  lemma {:induction false} DeclFineOrEndless(d: Body, at: Instance, env: Env, loop: Loop, prims: Prims, host: Host,
      depth: nat)
    requires OnlyRecursionFails(prims, host) && LiteralRangesOf(d)
    ensures FineOrEndless(ExpandDecl(d, at, env, loop, prims, host, depth))
    decreases depth, 1, d, 0
  {
    match d
    case One(n) =>
      if n.typ in prims && depth > 0 {
        var p := Lowered(n, Label(n.name, loop, host).value, host.lower(n.inputs, env).value, at);
        ExpandFineOrEndless(p, prims, host, depth - 1);
      }
    case Foreach(x, range, inner) =>
      EachFineOrEndless(Range(range, env, at.prepared).value, x, inner, at, env, prims, host, depth);
  }

  lemma {:induction false} EachFineOrEndless(vs: seq<Runtime>, x: string, inner: seq<Body>, at: Instance, env: Env,
      prims: Prims, host: Host, depth: nat)
    requires OnlyRecursionFails(prims, host) && LiteralRanges(inner)
    ensures FineOrEndless(ExpandEach(vs, x, inner, at, env, prims, host, depth))
    decreases depth, 1, inner, |vs| + 1
  {
    if vs != [] {
      BodyFineOrEndless(inner, at, env[x := vs[0]], Some((x, vs[0])), prims, host, depth);
      EachFineOrEndless(vs[1..], x, inner, at, env, prims, host, depth);
    }
  }

  /** Any firm cycle, through foreach blocks or not, keeps expansion going for ever where nothing
      else stops it first. */
  lemma FirmCycleIsEndless(inst: PlanNode, prims: Prims, host: Host, depth: nat)
    requires inst.typ in prims && Reaches(FirmGraph(prims), inst.typ, inst.typ)
    requires OnlyRecursionFails(prims, host) && HasInputs(inst.inputs, prims)
    ensures Expand(inst, prims, host, depth) == Err(Endless)
  {
    FirmCycleNeverExpands(inst, prims, host, depth);
    ExpandFineOrEndless(inst, prims, host, depth);
  }

  /** The check accepts every program whose custom nodes all stand in foreach blocks. */
  ghost predicate OnlyInForeach(prims: Prims) {
    forall p :: p in prims ==> DirectUses(prims[p].body, prims) == []
  }

  /** So it accepts firm cycles: whatever the uses inside foreach blocks, it finds none, and where
      they go round in literal lists an instance never expands. */
  lemma ForeachCycleIsMissed(prims: Prims)
    requires OnlyInForeach(prims)
    ensures Acyclic(CheckedGraph(prims))
    ensures forall inst: PlanNode, host, depth ::
      inst.typ in prims && Reaches(FirmGraph(prims), inst.typ, inst.typ) ==> Expand(inst, prims, host, depth).Err?
  {
    assert forall u :: Succ(CheckedGraph(prims), u) == [];
    RankedIsAcyclic(CheckedGraph(prims), map[]);
    forall inst: PlanNode, host, depth | inst.typ in prims && Reaches(FirmGraph(prims), inst.typ, inst.typ)
      ensures Expand(inst, prims, host, depth).Err?
    {
      FirmCycleNeverExpands(inst, prims, host, depth);
    }
  }

  /** A smallest such program: a primitive that uses itself in one block. */
  lemma SelfUseInForeach(p: string, inputs: seq<string>, x: string, es: seq<Expr>, n: BodyNode)
    requires n.typ == p && es != [] && Literals(es).Some?
    ensures var prims := map[p := Prim(p, inputs, [Foreach(x, List(es), [One(n)])])];
            OnlyInForeach(prims) && Reaches(FirmGraph(prims), p, p)
  {
    var body := [Foreach(x, List(es), [One(n)])];
    var prims := map[p := Prim(p, inputs, body)];
    assert body[1..] == [] && [One(n)][1..] == [];
    assert FirmUses([One(n)], prims) == [p];
    assert FirmUses(body, prims) == [p] + [];
    assert DirectUses(body, prims) == [];
    EdgeReaches(FirmGraph(prims), p, p);
  }

  // ---- A whole plan ----

  /** LowerToPlanV1_2: every node of a custom type is replaced by what it expands to. */
  function ExpandPlan(nodes: seq<PlanNode>, prims: Prims, host: Host, depth: nat): Expansion {
    if nodes == [] then Ok([])
    else
      Then(if nodes[0].typ in prims then Expand(nodes[0], prims, host, depth) else Ok([nodes[0]]),
           ExpandPlan(nodes[1..], prims, host, depth))
  }

  /** No custom type is left in a plan, and every node either stood in it before or is named
      below a node that did. */
  lemma {:induction false} PlanIsBuiltIn(nodes: seq<PlanNode>, prims: Prims, host: Host, depth: nat)
    ensures var r := ExpandPlan(nodes, prims, host, depth);
            r.Ok? ==> forall i :: 0 <= i < |r.value| ==> r.value[i].typ !in prims && Stems(r.value[i], nodes)
  {
    if nodes != [] {
      PlanIsBuiltIn(nodes[1..], prims, host, depth);
      if nodes[0].typ in prims { ExpandIsOneWay(nodes[0], prims, host, depth); }
      var rest := ExpandPlan(nodes[1..], prims, host, depth);
      var r := ExpandPlan(nodes, prims, host, depth);
      if r.Ok? {
        var n := |r.value| - |rest.value|;
        forall i | 0 <= i < |r.value| ensures r.value[i].typ !in prims && Stems(r.value[i], nodes) {
          if i >= n {
            assert r.value[i] == rest.value[i - n];
            var k :| 0 <= k < |nodes[1..]| && (r.value[i] == nodes[1..][k] || Extends(r.value[i].id, nodes[1..][k].id));
            assert nodes[1..][k] == nodes[k + 1];
          } else {
            assert r.value[i] == nodes[0] || Extends(r.value[i].id, nodes[0].id);
          }
        }
      }
    }
  }

  ghost predicate Stems(n: PlanNode, nodes: seq<PlanNode>) {
    exists k :: 0 <= k < |nodes| && (n == nodes[k] || Extends(n.id, nodes[k].id))
  }

  // ---- What expansion does to dependencies ----

  ghost predicate Named(nodes: seq<PlanNode>, id: string) {
    exists k :: 0 <= k < |nodes| && nodes[k].id == id
  }

  /** What takes n's place in the plan contains a node called id. */
  ghost predicate Supplies(n: PlanNode, id: string, prims: Prims, host: Host, depth: nat) {
    if n.typ in prims then Expand(n, prims, host, depth).Ok? && Named(Expand(n, prims, host, depth).value, id)
    else n.id == id
  }

  /** When a dependency resolves in the expanded plan: when a built-in node has that name, or an
      instance has put one out. */
  lemma {:induction false} DependencyResolves(nodes: seq<PlanNode>, id: string, prims: Prims, host: Host, depth: nat)
    requires ExpandPlan(nodes, prims, host, depth).Ok?
    ensures Named(ExpandPlan(nodes, prims, host, depth).value, id)
       <==> exists k :: 0 <= k < |nodes| && Supplies(nodes[k], id, prims, host, depth)
    ensures forall k :: 0 <= k < |nodes| && nodes[k].typ !in prims ==>
              nodes[k] in ExpandPlan(nodes, prims, host, depth).value
    decreases |nodes|
  {
    if nodes != [] {
      DependencyResolves(nodes[1..], id, prims, host, depth);
      var head := if nodes[0].typ in prims then Expand(nodes[0], prims, host, depth).value else [nodes[0]];
      var rest := ExpandPlan(nodes[1..], prims, host, depth).value;
      NamedInEither(head, rest, id);
      assert Supplies(nodes[0], id, prims, host, depth) <==> Named(head, id) by {
        if nodes[0].typ !in prims { assert head[0] == nodes[0]; }
      }
      assert forall k :: 0 < k < |nodes| ==> nodes[k] == nodes[1..][k - 1];
      if Named(rest, id) {
        var k :| 0 <= k < |nodes[1..]| && Supplies(nodes[1..][k], id, prims, host, depth);
        assert Supplies(nodes[k + 1], id, prims, host, depth);
      }
    }
  }

  lemma NamedInEither(xs: seq<PlanNode>, ys: seq<PlanNode>, id: string)
    ensures Named(xs + ys, id) <==> Named(xs, id) || Named(ys, id)
  {
    if k :| 0 <= k < |xs| && xs[k].id == id { assert (xs + ys)[k].id == id; }
    if k :| 0 <= k < |ys| && ys[k].id == id { assert (xs + ys)[|xs| + k].id == id; }
    if k :| 0 <= k < |xs + ys| && (xs + ys)[k].id == id {
      if k < |xs| { assert xs[k].id == id; } else { assert ys[k - |xs|].id == id; }
    }
  }

  /** A name below no instance resolves only as a built-in node's. */
  lemma OutsideInstances(nodes: seq<PlanNode>, id: string, prims: Prims, host: Host, depth: nat)
    requires ExpandPlan(nodes, prims, host, depth).Ok?
    requires forall k :: 0 <= k < |nodes| && nodes[k].typ in prims ==> !Extends(id, nodes[k].id)
    ensures Named(ExpandPlan(nodes, prims, host, depth).value, id)
       <==> exists k :: 0 <= k < |nodes| && nodes[k].typ !in prims && nodes[k].id == id
  {
    DependencyResolves(nodes, id, prims, host, depth);
    forall k | 0 <= k < |nodes| && nodes[k].typ in prims ensures !Supplies(nodes[k], id, prims, host, depth) {
      ExpandIsOneWay(nodes[k], prims, host, depth);
    }
    if k :| 0 <= k < |nodes| && nodes[k].typ !in prims && nodes[k].id == id {
      assert Supplies(nodes[k], id, prims, host, depth);
    }
  }

  /** So what depends on an instance is left with a name no node has: the instance is gone and its
      dependents are not rewritten. */
  lemma DependencyOnInstanceDangles(nodes: seq<PlanNode>, a: nat, b: nat, prims: Prims, host: Host, depth: nat)
    requires a < |nodes| && b < |nodes| && nodes[a].typ in prims && nodes[b].typ !in prims
    requires nodes[a].id in nodes[b].dependsOn
    requires forall k :: 0 <= k < |nodes| && nodes[k].id == nodes[a].id ==> k == a
    requires forall k :: 0 <= k < |nodes| ==> !Extends(nodes[a].id, nodes[k].id)
    requires ExpandPlan(nodes, prims, host, depth).Ok?
    ensures var r := ExpandPlan(nodes, prims, host, depth).value;
            nodes[b] in r && !Named(r, nodes[a].id)
  {
    DependencyResolves(nodes, nodes[a].id, prims, host, depth);
    OutsideInstances(nodes, nodes[a].id, prims, host, depth);
  }

  /** The order the other way is lost too: an instance's own dependencies, and its policy, have no
      influence on what it expands to. */
  lemma {:induction false} InstanceOrderIsDropped(inst: PlanNode, deps: seq<string>, policy: Option<string>,
      prims: Prims, host: Host, depth: nat)
    requires inst.typ in prims
    ensures Expand(inst.(dependsOn := deps, policy := policy), prims, host, depth) == Expand(inst, prims, host, depth)
  {
    var prim := prims[inst.typ];
    var env := InputEnv(prim.inputs, inst.inputs);
    var prepared := host.prepare(prim.name, env);
    if prepared.Some? {
      BodyOrderIsDropped(prim.body, Instance(inst, prim, prepared.value), deps, policy, env, None, prims, host, depth);
    }
  }

  lemma {:induction false} BodyOrderIsDropped(body: seq<Body>, at: Instance, deps: seq<string>, policy: Option<string>,
      env: Env, loop: Loop, prims: Prims, host: Host, depth: nat)
    ensures var other := at.(inst := at.inst.(dependsOn := deps, policy := policy));
            ExpandBody(body, other, env, loop, prims, host, depth)
                == ExpandBody(body, at, env, loop, prims, host, depth)
    decreases body, 0
  {
    if body != [] {
      var other := at.(inst := at.inst.(dependsOn := deps, policy := policy));
      BodyOrderIsDropped(body[1..], at, deps, policy, env, loop, prims, host, depth);
      match body[0] {
        case One(n) => NodeOrderIsDropped(n, at, deps, policy, env, loop, prims, host, depth);
        case Foreach(x, range, inner) =>
          var vs := Range(range, env, at.prepared);
          if vs.Some? { EachOrderIsDropped(vs.value, x, inner, at, deps, policy, env, prims, host, depth); }
      }
    }
  }

  lemma NodeOrderIsDropped(n: BodyNode, at: Instance, deps: seq<string>, policy: Option<string>, env: Env, loop: Loop,
      prims: Prims, host: Host, depth: nat)
    ensures var other := at.(inst := at.inst.(dependsOn := deps, policy := policy));
            ExpandNode(n, other, env, loop, prims, host, depth) == ExpandNode(n, at, env, loop, prims, host, depth)
  {
    var other := at.(inst := at.inst.(dependsOn := deps, policy := policy));
    var name, inputs := Label(n.name, loop, host), host.lower(n.inputs, env);
    if name.Some? && inputs.Some? {
      assert Lowered(n, name.value, inputs.value, other) == Lowered(n, name.value, inputs.value, at);
    }
  }

  lemma {:induction false} EachOrderIsDropped(vs: seq<Runtime>, x: string, inner: seq<Body>, at: Instance,
      deps: seq<string>, policy: Option<string>, env: Env, prims: Prims, host: Host, depth: nat)
    ensures var other := at.(inst := at.inst.(dependsOn := deps, policy := policy));
            ExpandEach(vs, x, inner, other, env, prims, host, depth)
                == ExpandEach(vs, x, inner, at, env, prims, host, depth)
    decreases inner, |vs| + 1
  {
    if vs != [] {
      BodyOrderIsDropped(inner, at, deps, policy, env[x := vs[0]], Some((x, vs[0])), prims, host, depth);
      EachOrderIsDropped(vs[1..], x, inner, at, deps, policy, env, prims, host, depth);
    }
  }

  // ---- Naming nodes in a loop ----

  predicate OccursAt(s: string, p: string, i: nat) {
    i + |p| <= |s| && s[i..i + |p|] == p
  }

  function Find(s: string, p: string): (at: Option<nat>)
    ensures at.Some? ==> OccursAt(s, p, at.value)
  {
    if |p| <= |s| && s[..|p|] == p then Some(0)
    else if s == [] then None
    else
      var rest := Find(s[1..], p);
      if rest.None? then None else Some(rest.value + 1)
  }

  lemma {:induction false} FindMissesNothing(s: string, p: string, i: nat)
    requires OccursAt(s, p, i)
    ensures Find(s, p).Some?
  {
    if i > 0 {
      assert s[1..][i - 1..i - 1 + |p|] == s[i..i + |p|];
      FindMissesNothing(s[1..], p, i - 1);
    }
  }

  function Replaced(s: string, at: nat, p: string, v: string): string
    requires at + |p| <= |s|
  {
    s[..at] + v + s[at + |p|..]
  }

  /** substituteVarInString for a string element: the first placeholder is replaced until there
      is none. None stands for more than `fuel` rounds. */
  function SubstituteVar(s: string, p: string, v: string, fuel: nat): Option<string>
    decreases fuel
  {
    match Find(s, p)
    case None => Some(s)
    case Some(at) => if fuel == 0 then None else SubstituteVar(Replaced(s, at, p, v), p, v, fuel - 1)
  }

  method SubstituteVarInString(s: string, p: string, v: string, ghost fuel: nat) returns (r: string)
    requires SubstituteVar(s, p, v, fuel).Some?
    ensures Some(r) == SubstituteVar(s, p, v, fuel)
    ensures forall i: nat :: !OccursAt(r, p, i)
  {
    r := s;
    ghost var left := fuel;
    var at := Find(r, p);
    while at.Some?
      invariant at == Find(r, p) && SubstituteVar(r, p, v, left) == SubstituteVar(s, p, v, fuel)
      decreases left
    {
      r, left := Replaced(r, at.value, p, v), left - 1;
      at := Find(r, p);
    }
    forall i: nat ensures !OccursAt(r, p, i) {
      if OccursAt(r, p, i) { FindMissesNothing(r, p, i); }
    }
  }

  lemma RoundUsesDollar(s: string, at: nat, p: string, v: string)
    requires '$' in p && '$' !in v && OccursAt(s, p, at)
    ensures multiset(Replaced(s, at, p, v))['$'] < multiset(s)['$']
  {
    var before, after := s[..at], s[at + |p|..];
    assert s == before + p + after;
    assert multiset(before + p + after) == multiset(before) + multiset(p) + multiset(after);
    assert multiset(before + v + after) == multiset(before) + multiset(v) + multiset(after);
  }

  /** Each round uses up a dollar sign, so an element without one is substituted in as many rounds. */
  lemma {:induction false} PlainElementReturns(s: string, p: string, v: string, fuel: nat)
    requires '$' in p && '$' !in v && multiset(s)['$'] <= fuel
    ensures SubstituteVar(s, p, v, fuel).Some?
    decreases fuel
  {
    var at := Find(s, p);
    if at.Some? {
      RoundUsesDollar(s, at.value, p, v);
      PlainElementReturns(Replaced(s, at.value, p, v), p, v, fuel - 1);
    }
  }

  /** An element shorter than the placeholder shortens the name with every round. */
  lemma {:induction false} ShortElementReturns(s: string, p: string, v: string, fuel: nat)
    requires |v| < |p| && |s| <= fuel
    ensures SubstituteVar(s, p, v, fuel).Some?
    decreases fuel
  {
    var at := Find(s, p);
    if at.Some? { ShortElementReturns(Replaced(s, at.value, p, v), p, v, fuel - 1); }
  }

  /** How often a placeholder could begin. */
  function Openings(s: string): nat {
    if |s| < 2 then 0 else (if s[0] == '$' && s[1] == '{' then 1 else 0) + Openings(s[1..])
  }

  predicate Joins(a: string, b: string) {
    a != "" && b != "" && a[|a| - 1] == '$' && b[0] == '{'
  }

  lemma {:induction false} OpeningsConcat(a: string, b: string)
    ensures Openings(a + b) == Openings(a) + Openings(b) + if Joins(a, b) then 1 else 0
    decreases |a|
  {
    if a == "" {
      assert a + b == b;
    } else {
      assert (a + b)[1..] == a[1..] + b;
      OpeningsConcat(a[1..], b);
      if |a| == 1 { assert a[1..] == ""; }
    }
  }

  /** Neither contains an opening nor completes one with what stands beside it. */
  predicate Inert(v: string) {
    v != "" && Openings(v) == 0 && v[0] != '{' && v[|v| - 1] != '$'
  }

  lemma RoundUsesOpening(s: string, at: nat, p: string, v: string)
    requires OccursAt(s, p, at) && Openings(p) > 0 && Inert(v)
    ensures Openings(Replaced(s, at, p, v)) < Openings(s)
  {
    var before, after := s[..at], s[at + |p|..];
    assert s == before + (p + after) && before + v + after == before + (v + after);
    OpeningsConcat(before, p + after);
    OpeningsConcat(p, after);
    OpeningsConcat(before, v + after);
    OpeningsConcat(v, after);
    assert !Joins(v, after) && !Joins(before, v + after);
  }

  /** Each round uses up an opening, so an inert element is substituted in as many rounds, dollar signs
      or not. */
  lemma {:induction false} InertElementReturns(s: string, p: string, v: string, fuel: nat)
    requires Openings(p) > 0 && Inert(v) && Openings(s) <= fuel
    ensures SubstituteVar(s, p, v, fuel).Some?
    decreases fuel
  {
    var at := Find(s, p);
    if at.Some? {
      RoundUsesOpening(s, at.value, p, v);
      InertElementReturns(Replaced(s, at.value, p, v), p, v, fuel - 1);
    }
  }

  lemma ReplacedContains(s: string, at: nat, p: string, v: string, i: nat)
    requires at + |p| <= |s| && OccursAt(v, p, i)
    ensures OccursAt(Replaced(s, at, p, v), p, at + i)
  {
    assert Replaced(s, at, p, v)[at + i..at + i + |p|] == v[i..i + |p|];
  }

  /** An element that contains its own placeholder keeps the loop going for ever. */
  lemma {:induction false} SelfReferenceNeverReturns(s: string, p: string, v: string, fuel: nat)
    requires Find(s, p).Some? && Find(v, p).Some?
    ensures SubstituteVar(s, p, v, fuel).None?
    decreases fuel
  {
    if fuel > 0 {
      var at, i := Find(s, p).value, Find(v, p).value;
      var t := Replaced(s, at, p, v);
      ReplacedContains(s, at, p, v, i);
      FindMissesNothing(t, p, at + i);
      SelfReferenceNeverReturns(t, p, v, fuel - 1);
    }
  }

  lemma {:induction false} FindIsFirst(s: string, p: string, i: nat)
    requires OccursAt(s, p, i) && forall j :: 0 <= j < i ==> !OccursAt(s, p, j)
    ensures Find(s, p) == Some(i)
    decreases i
  {
    if i > 0 {
      assert !OccursAt(s, p, 0);
      assert s[1..][i - 1..i - 1 + |p|] == s[i..i + |p|];
      forall j | 0 <= j < i - 1 ensures !OccursAt(s[1..], p, j) {
        assert !OccursAt(s, p, j + 1);
        assert j + 1 + |p| <= |s| ==> s[1..][j..j + |p|] == s[j + 1..j + 1 + |p|];
      }
      FindIsFirst(s[1..], p, i - 1);
    }
  }

  const OPEN := "${"

  lemma OccursChar(s: string, p: string, i: nat, k: nat)
    requires k < |p|
    ensures OccursAt(s, p, i) ==> s[i + k] == p[k]
  {
    if OccursAt(s, p, i) { assert s[i..i + |p|][k] == p[k]; }
  }

  /** One round on before + p + after, where no occurrence of p starts in `before`. */
  lemma RoundAt(before: string, p: string, after: string, v: string)
    requires |p| > 2 && p[0] == '$' && p[2] != '$'
    requires forall j :: 0 <= j < |before| && before[j] == '$' ==> j == |before| - 2
    ensures var s := before + p + after;
            Find(s, p) == Some(|before|) && Replaced(s, |before|, p, v) == before + v + after
  {
    var s := before + p + after;
    assert s[|before|..|before| + |p|] == p;
    forall j | 0 <= j < |before| ensures !OccursAt(s, p, j) {
      assert s[j] == before[j] && s[|before|] == '$';
      OccursChar(s, p, j, 0);
      OccursChar(s, p, j, 2);
    }
    FindIsFirst(s, p, |before|);
    assert s[..|before|] == before && s[|before| + |p|..] == after;
  }

  /** A name as its pieces between placeholders, with x in the place of each. */
  function Filled(pieces: seq<string>, x: string): string {
    if pieces == [] then "" else if |pieces| == 1 then pieces[0] else pieces[0] + x + Filled(pieces[1..], x)
  }

  /** An element without a dollar sign is put in the place of every placeholder, and the rest stays. */
  lemma TemplateIsFilled(pieces: seq<string>, p: string, v: string, fuel: nat)
    requires |p| > 2 && p[0] == '$' && p[2] != '$' && '$' !in v
    requires (forall i :: 0 <= i < |pieces| ==> '$' !in pieces[i]) && |pieces| <= fuel + 1
    ensures SubstituteVar(Filled(pieces, p), p, v, fuel) == Some(Filled(pieces, v))
  {
    if pieces != [] { FillsFrom("", pieces, Filled(pieces, p), Filled(pieces, v), p, v, fuel); }
    assert "" + Filled(pieces, p) == Filled(pieces, p) && "" + Filled(pieces, v) == Filled(pieces, v);
  }

  /** With what is filled already, `before`, in front. */
  lemma {:induction false} FillsFrom(before: string, pieces: seq<string>, s: string, filled: string, p: string,
      v: string, fuel: nat)
    requires |p| > 2 && p[0] == '$' && p[2] != '$' && '$' !in v && '$' !in before && pieces != []
    requires (forall i :: 0 <= i < |pieces| ==> '$' !in pieces[i]) && |pieces| <= fuel + 1
    requires s == Filled(pieces, p) && filled == Filled(pieces, v)
    ensures SubstituteVar(before + s, p, v, fuel) == Some(before + filled)
    decreases |pieces|
  {
    if |pieces| == 1 {
      NoDollarNoPlaceholder(before + s, p);
    } else {
      var rest, restFilled := Filled(pieces[1..], p), Filled(pieces[1..], v);
      FillsFrom(before + pieces[0] + v, pieces[1..], rest, restFilled, p, v, fuel - 1);
      FillsOne(before, pieces[0], p, rest, v, fuel);
      assert before + (pieces[0] + v + restFilled) == before + pieces[0] + v + restFilled;
    }
  }

  lemma FillsOne(before: string, piece: string, p: string, rest: string, v: string, fuel: nat)
    requires |p| > 2 && p[0] == '$' && p[2] != '$' && '$' !in before && '$' !in piece && fuel > 0
    ensures SubstituteVar(before + (piece + p + rest), p, v, fuel)
         == SubstituteVar(before + piece + v + rest, p, v, fuel - 1)
  {
    RoundAt(before + piece, p, rest, v);
    assert before + (piece + p + rest) == before + piece + p + rest;
  }

  lemma NoDollarNoPlaceholder(s: string, p: string)
    requires p != "" && p[0] == '$' && '$' !in s
    ensures Find(s, p).None?
  {
    var at := Find(s, p);
    if at.Some? { OccursChar(s, p, at.value, 0); }
  }

  /** An element need not contain its placeholder to loop. With y the variable's name and a closing
      brace, "${" + y is the placeholder; the element y y ${ ${ puts one together out of the y that
      follows in the name, and leaves another y behind it after two rounds. */
  lemma AssembledPlaceholderNeverReturns(before: string, x: string, after: string, fuel: nat)
    requires '$' !in x && '$' !in before
    ensures var y := x + "}"; var p := OPEN + y; var v := y + y + OPEN + OPEN;
            Find(v, p).None? && SubstituteVar(before + p + (y + after), p, v, fuel).None?
  {
    AssembledIsElsewhere(x + "}");
    KeepsAssembling(before, x + "}", after, fuel);
  }

  lemma {:induction false} KeepsAssembling(before: string, y: string, after: string, fuel: nat)
    requires '$' !in y && '$' !in before && y != ""
    ensures SubstituteVar(before + (OPEN + y) + (y + after), OPEN + y, y + y + OPEN + OPEN, fuel).None?
    decreases fuel
  {
    TwoRounds(before, y, after, fuel);
    if fuel > 1 { KeepsAssembling(before + y + y, y, OPEN + OPEN + after, fuel - 2); }
  }

  lemma TwoRounds(before: string, y: string, after: string, fuel: nat)
    requires '$' !in y && '$' !in before && y != ""
    ensures var p := OPEN + y; var v := y + y + OPEN + OPEN;
            SubstituteVar(before + p + (y + after), p, v, fuel)
            == if fuel < 2 then None
               else SubstituteVar((before + y + y) + p + (y + (OPEN + OPEN + after)), p, v, fuel - 2)
  {
    var p, v := OPEN + y, y + y + OPEN + OPEN;
    RoundAt(before, p, y + after, v);
    var longer := before + y + y;
    FirstRound(before, OPEN, y, after);
    assert forall j :: 0 <= j < |longer| ==> (longer + OPEN)[j] in longer;
    RoundAt(longer + OPEN, p, after, v);
    SecondRound(longer, OPEN, y, after);
  }

  lemma FirstRound(before: string, open: string, y: string, after: string)
    ensures before + (y + y + open + open) + (y + after) == (before + y + y + open) + (open + y) + after
  {
  }

  lemma SecondRound(longer: string, open: string, y: string, after: string)
    ensures (longer + open) + (y + y + open + open) + after == longer + (open + y) + (y + (open + open + after))
  {
  }

  lemma AssembledIsElsewhere(y: string)
    requires '$' !in y && y != ""
    ensures Find(y + y + OPEN + OPEN, OPEN + y).None?
  {
    var v, p := y + y + OPEN + OPEN, OPEN + y;
    assert p[0] == '$' && p[2] == y[0];
    assert forall i :: 0 <= i < |y + y| ==> v[i] in y + y;
    if Find(v, p).Some? {
      OccursChar(v, p, Find(v, p).value, 0);
      OccursChar(v, p, Find(v, p).value, 2);
    }
  }
}
