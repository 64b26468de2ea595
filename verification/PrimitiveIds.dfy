/** internal/devlang/lower.go: the ids and dependencies that expanding a custom primitive puts out. */
module PrimitiveIds {
  import opened Wrappers
  import opened Expr
  import opened Primitives

  // ---- The nodes a body makes ----

  /** A node a body makes: its name, the loop variable put in, and its type. */
  datatype Made = Made(title: string, typ: string)

  function MadeBody(body: seq<Body>, at: Instance, env: Env, loop: Loop, host: Host): seq<Made>
    decreases body, 0
  {
    if body == [] then [] else MadeDecl(body[0], at, env, loop, host) + MadeBody(body[1..], at, env, loop, host)
  }

  function MadeDecl(d: Body, at: Instance, env: Env, loop: Loop, host: Host): seq<Made>
    decreases d, 0
  {
    match d
    case One(n) =>
      var title := Label(n.name, loop, host);
      [Made(if title.Some? then title.value else n.name, n.typ)]
    case Foreach(x, range, inner) =>
      match Range(range, env, at.prepared)
      case None => []
      case Some(vs) => MadeEach(vs, x, inner, at, env, host)
  }

  function MadeEach(vs: seq<Runtime>, x: string, inner: seq<Body>, at: Instance, env: Env, host: Host): seq<Made>
    decreases inner, |vs| + 1
  {
    if vs == [] then []
    else
      MadeBody(inner, at, env[x := vs[0]], Some((x, vs[0])), host) + MadeEach(vs[1..], x, inner, at, env, host)
  }

  /** A built-in node has its own name under the instance's; a custom one leaves names below its own. */
  ghost predicate MayGive(m: Made, root: string, id: string, prims: Prims) {
    if m.typ in prims then Extends(id, Child(root, m.title)) else id == Child(root, m.title)
  }

  ghost predicate Given(made: seq<Made>, root: string, id: string, prims: Prims) {
    exists j :: 0 <= j < |made| && MayGive(made[j], root, id, prims)
  }

  /** Every id comes from a node made, and every built-in node made is there. */
  ghost predicate Covers(out: seq<PlanNode>, made: seq<Made>, root: string, prims: Prims) {
    && (forall i :: 0 <= i < |out| ==> Given(made, root, out[i].id, prims))
    && (forall j :: 0 <= j < |made| && made[j].typ !in prims ==> Named(out, Child(root, made[j].title)))
  }

  ghost predicate CoversResult(r: Expansion, made: seq<Made>, root: string, prims: Prims) {
    r.Ok? ==> Covers(r.value, made, root, prims)
  }

  lemma CoversBoth(a: seq<PlanNode>, ma: seq<Made>, b: seq<PlanNode>, mb: seq<Made>, root: string, prims: Prims)
    requires Covers(a, ma, root, prims) && Covers(b, mb, root, prims)
    ensures Covers(a + b, ma + mb, root, prims)
  {
    forall i | 0 <= i < |a + b| ensures Given(ma + mb, root, (a + b)[i].id, prims) {
      if i < |a| {
        assert Given(ma, root, a[i].id, prims);
        var j :| 0 <= j < |ma| && MayGive(ma[j], root, a[i].id, prims);
        assert (ma + mb)[j] == ma[j];
      } else {
        assert Given(mb, root, b[i - |a|].id, prims);
        var j :| 0 <= j < |mb| && MayGive(mb[j], root, b[i - |a|].id, prims);
        assert (ma + mb)[|ma| + j] == mb[j];
      }
    }
    forall j | 0 <= j < |ma + mb| && (ma + mb)[j].typ !in prims ensures Named(a + b, Child(root, (ma + mb)[j].title)) {
      NamedInEither(a, b, Child(root, (ma + mb)[j].title));
      assert j >= |ma| ==> (ma + mb)[j] == mb[j - |ma|];
    }
  }

  lemma {:induction false} BodyCovers(body: seq<Body>, at: Instance, env: Env, loop: Loop, prims: Prims, host: Host,
      depth: nat)
    ensures CoversResult(ExpandBody(body, at, env, loop, prims, host, depth), MadeBody(body, at, env, loop, host),
        at.inst.id, prims)
    decreases body, 0
  {
    if body != [] {
      DeclCovers(body[0], at, env, loop, prims, host, depth);
      BodyCovers(body[1..], at, env, loop, prims, host, depth);
      var a := ExpandDecl(body[0], at, env, loop, prims, host, depth);
      var b := ExpandBody(body[1..], at, env, loop, prims, host, depth);
      if a.Ok? && b.Ok? {
        CoversBoth(a.value, MadeDecl(body[0], at, env, loop, host), b.value, MadeBody(body[1..], at, env, loop, host),
            at.inst.id, prims);
      }
    }
  }

  lemma {:induction false} DeclCovers(d: Body, at: Instance, env: Env, loop: Loop, prims: Prims, host: Host, depth: nat)
    ensures CoversResult(ExpandDecl(d, at, env, loop, prims, host, depth), MadeDecl(d, at, env, loop, host),
        at.inst.id, prims)
    decreases d, 0
  {
    match d
    case One(n) => NodeCovers(n, at, env, loop, prims, host, depth);
    case Foreach(x, range, inner) =>
      var vs := Range(range, env, at.prepared);
      if vs.Some? { EachCovers(vs.value, x, inner, at, env, prims, host, depth); }
  }

  lemma NodeCovers(n: BodyNode, at: Instance, env: Env, loop: Loop, prims: Prims, host: Host, depth: nat)
    ensures CoversResult(ExpandNode(n, at, env, loop, prims, host, depth), MadeDecl(One(n), at, env, loop, host),
        at.inst.id, prims)
  {
    var name, inputs := Label(n.name, loop, host), host.lower(n.inputs, env);
    var r := ExpandNode(n, at, env, loop, prims, host, depth);
    if r.Ok? {
      var p := Lowered(n, name.value, inputs.value, at);
      var m := Made(name.value, n.typ);
      assert MadeDecl(One(n), at, env, loop, host) == [m];
      if n.typ in prims {
        ExpandIsOneWay(p, prims, host, depth - 1);
      } else {
        assert r.value == [p] && r.value[0] == p;
      }
      forall i | 0 <= i < |r.value| ensures Given([m], at.inst.id, r.value[i].id, prims) {
        assert MayGive([m][0], at.inst.id, r.value[i].id, prims);
      }
    }
  }

  lemma {:induction false} EachCovers(vs: seq<Runtime>, x: string, inner: seq<Body>, at: Instance, env: Env,
      prims: Prims, host: Host, depth: nat)
    ensures CoversResult(ExpandEach(vs, x, inner, at, env, prims, host, depth), MadeEach(vs, x, inner, at, env, host),
        at.inst.id, prims)
    decreases inner, |vs| + 1
  {
    if vs != [] {
      var env', loop := env[x := vs[0]], Some((x, vs[0]));
      BodyCovers(inner, at, env', loop, prims, host, depth);
      EachCovers(vs[1..], x, inner, at, env, prims, host, depth);
      var a := ExpandBody(inner, at, env', loop, prims, host, depth);
      var b := ExpandEach(vs[1..], x, inner, at, env, prims, host, depth);
      if a.Ok? && b.Ok? {
        CoversBoth(a.value, MadeBody(inner, at, env', loop, host), b.value, MadeEach(vs[1..], x, inner, at, env, host),
            at.inst.id, prims);
      }
    }
  }

  // ---- Dependencies inside a body ----

  /** What an instance's body makes, and the expansion's result in terms of it. */
  ghost function InstanceOf(inst: PlanNode, prims: Prims, host: Host): (Instance, Env)
    requires inst.typ in prims
      && host.prepare(prims[inst.typ].name, InputEnv(prims[inst.typ].inputs, inst.inputs)).Some?
  {
    var prim := prims[inst.typ];
    var env := InputEnv(prim.inputs, inst.inputs);
    (Instance(inst, prim, host.prepare(prim.name, env).value), env)
  }

  ghost function MadeBy(inst: PlanNode, prims: Prims, host: Host): seq<Made>
    requires inst.typ in prims
      && host.prepare(prims[inst.typ].name, InputEnv(prims[inst.typ].inputs, inst.inputs)).Some?
  {
    var (at, env) := InstanceOf(inst, prims, host);
    MadeBody(prims[inst.typ].body, at, env, None, host)
  }

  /** A node of the body stands in the result under its own name, its dependencies on top-level nodes
      of the body rewritten and the others as they are. */
  ghost predicate Stands(out: seq<PlanNode>, n: BodyNode, at: Instance, d: string) {
    exists i :: 0 <= i < |out| && out[i].id == Child(at.inst.id, n.name)
                && (if Internal(at.prim, d) then Child(at.inst.id, d) else d) in out[i].dependsOn
  }

  lemma StandsInEither(a: seq<PlanNode>, b: seq<PlanNode>, n: BodyNode, at: Instance, d: string)
    requires Stands(a, n, at, d) || Stands(b, n, at, d)
    ensures Stands(a + b, n, at, d)
  {
    var dep := if Internal(at.prim, d) then Child(at.inst.id, d) else d;
    if i :| 0 <= i < |a| && a[i].id == Child(at.inst.id, n.name) && dep in a[i].dependsOn {
      assert (a + b)[i] == a[i];
    } else {
      var i :| 0 <= i < |b| && b[i].id == Child(at.inst.id, n.name) && dep in b[i].dependsOn;
      assert (a + b)[|a| + i] == b[i];
    }
  }

  lemma {:induction false} NodeStands(body: seq<Body>, n: BodyNode, at: Instance, env: Env, prims: Prims, host: Host,
      depth: nat, d: string)
    requires One(n) in body && n.typ !in prims && d in n.dependsOn
    requires ExpandBody(body, at, env, None, prims, host, depth).Ok?
    ensures Stands(ExpandBody(body, at, env, None, prims, host, depth).value, n, at, d)
    decreases |body|
  {
    var a := ExpandDecl(body[0], at, env, None, prims, host, depth).value;
    var b := ExpandBody(body[1..], at, env, None, prims, host, depth).value;
    if body[0] == One(n) {
      assert ExpandDecl(One(n), at, env, None, prims, host, depth) == ExpandNode(n, at, env, None, prims, host, depth);
      var p := Lowered(n, n.name, host.lower(n.inputs, env).value, at);
      assert a == [p] && a[0] == p;
      var i :| 0 <= i < |n.dependsOn| && n.dependsOn[i] == d;
      assert p.dependsOn[i] == if Internal(at.prim, d) then Child(at.inst.id, d) else d;
    } else {
      NodeStands(body[1..], n, at, env, prims, host, depth, d);
    }
    StandsInEither(a, b, n, at, d);
  }

  /** Where a dependency inside a body leads. On a top-level node it is rewritten, and then resolves
      exactly if a built-in node of that name is made, a sibling of custom type being gone. On anything
      else, a node in a foreach block included, it keeps a bare name that no node of the expansion has. */
  lemma DependencyInBody(inst: PlanNode, prims: Prims, host: Host, depth: nat, n: BodyNode, d: string)
    requires inst.typ in prims && Expand(inst, prims, host, depth).Ok?
    requires One(n) in prims[inst.typ].body && n.typ !in prims && d in n.dependsOn
    ensures var out, made := Expand(inst, prims, host, depth).value, MadeBy(inst, prims, host);
            && Stands(out, n, InstanceOf(inst, prims, host).0, d)
            && (Internal(prims[inst.typ], d) && (forall m :: m in made && m.typ in prims ==> !Extends(d, m.title)) ==>
                  (Named(out, Child(inst.id, d)) <==> exists m :: m in made && m.typ !in prims && m.title == d))
            && (!Internal(prims[inst.typ], d) && !Extends(d, inst.id) ==> !Named(out, d))
  {
    var prim := prims[inst.typ];
    var (at, env) := InstanceOf(inst, prims, host);
    var out, made := Expand(inst, prims, host, depth).value, MadeBy(inst, prims, host);
    NodeStands(prim.body, n, at, env, prims, host, depth, d);
    BodyCovers(prim.body, at, env, None, prims, host, depth);
    ExpandIsOneWay(inst, prims, host, depth);
    if forall m :: m in made && m.typ in prims ==> !Extends(d, m.title) { SiblingNamed(out, made, inst.id, prims, d); }
  }

  lemma SiblingNamed(out: seq<PlanNode>, made: seq<Made>, root: string, prims: Prims, d: string)
    requires Covers(out, made, root, prims) && forall m :: m in made && m.typ in prims ==> !Extends(d, m.title)
    ensures Named(out, Child(root, d)) <==> exists m :: m in made && m.typ !in prims && m.title == d
  {
    if i :| 0 <= i < |out| && out[i].id == Child(root, d) {
      assert Given(made, root, out[i].id, prims);
      var j :| 0 <= j < |made| && MayGive(made[j], root, out[i].id, prims);
      ChildInjective(root, made[j].title, d);
      assert made[j] in made;
    }
    if m :| m in made && m.typ !in prims && m.title == d {
      var j :| 0 <= j < |made| && made[j] == m;
    }
  }

  lemma ChildInjective(root: string, a: string, b: string)
    ensures Child(root, a) == Child(root, b) ==> a == b
    ensures Extends(Child(root, b), Child(root, a)) ==> Extends(b, a)
  {
    var x, y, n := Child(root, a), Child(root, b), |root| + 1;
    assert x[n..] == a && y[n..] == b;
    if Extends(y, x) {
      assert b[..|a|] == y[..|x|][n..];
      assert b[|a|] == y[|x|];
    }
  }

  // ---- When ids are distinct ----

  ghost predicate DistinctPlan(out: seq<PlanNode>) {
    forall i, j :: 0 <= i < j < |out| ==> out[i].id != out[j].id
  }

  /** Different names without dots. */
  ghost predicate TidyLabels(made: seq<Made>) {
    && (forall i, j :: 0 <= i < j < |made| ==> made[i].title != made[j].title)
    && (forall i :: 0 <= i < |made| ==> '.' !in made[i].title)
  }

  /** Every instance met on the way makes nodes with different names without dots. */
  ghost predicate TidyInst(inst: PlanNode, prims: Prims, host: Host, depth: nat)
    requires inst.typ in prims
    decreases depth, 2
  {
    var prim := prims[inst.typ];
    var env := InputEnv(prim.inputs, inst.inputs);
    var prepared := host.prepare(prim.name, env);
    prepared.Some? ==>
      var at := Instance(inst, prim, prepared.value);
      TidyLabels(MadeBody(prim.body, at, env, None, host)) && TidyBody(prim.body, at, env, None, prims, host, depth)
  }

  ghost predicate TidyBody(body: seq<Body>, at: Instance, env: Env, loop: Loop, prims: Prims, host: Host, depth: nat)
    decreases depth, 1, body, 0
  {
    body == [] || (TidyDecl(body[0], at, env, loop, prims, host, depth)
                   && TidyBody(body[1..], at, env, loop, prims, host, depth))
  }

  ghost predicate TidyDecl(d: Body, at: Instance, env: Env, loop: Loop, prims: Prims, host: Host, depth: nat)
    decreases depth, 1, d, 0
  {
    match d
    case One(n) => TidyNode(n, at, env, loop, prims, host, depth)
    case Foreach(x, range, inner) =>
      match Range(range, env, at.prepared)
      case None => true
      case Some(vs) => TidyEach(vs, x, inner, at, env, prims, host, depth)
  }

  ghost predicate TidyEach(vs: seq<Runtime>, x: string, inner: seq<Body>, at: Instance, env: Env, prims: Prims,
      host: Host, depth: nat)
    decreases depth, 1, inner, |vs| + 1
  {
    vs == [] || (TidyBody(inner, at, env[x := vs[0]], Some((x, vs[0])), prims, host, depth)
                 && TidyEach(vs[1..], x, inner, at, env, prims, host, depth))
  }

  ghost predicate TidyNode(n: BodyNode, at: Instance, env: Env, loop: Loop, prims: Prims, host: Host, depth: nat)
    decreases depth, 0
  {
    var name, inputs := Label(n.name, loop, host), host.lower(n.inputs, env);
    name.Some? && inputs.Some? && n.typ in prims && depth > 0 ==>
      TidyInst(Lowered(n, name.value, inputs.value, at), prims, host, depth - 1)
  }

  /** What two nodes with different dotless names leave behind does not meet. */
  lemma ApartIds(a: Made, b: Made, root: string, id: string, prims: Prims)
    requires MayGive(a, root, id, prims) && MayGive(b, root, id, prims) && '.' !in a.title && '.' !in b.title
    ensures a.title == b.title
  {
    if |a.title| < |b.title| {
      ShorterLabel(a, b, root, id, prims);
    } else if |b.title| < |a.title| {
      ShorterLabel(b, a, root, id, prims);
    } else {
      var n := |root| + 1;
      assert id[..n + |a.title|] == Child(root, a.title) && id[..n + |b.title|] == Child(root, b.title);
      ChildInjective(root, a.title, b.title);
    }
  }

  lemma ShorterLabel(a: Made, b: Made, root: string, id: string, prims: Prims)
    requires MayGive(a, root, id, prims) && MayGive(b, root, id, prims) && |a.title| < |b.title|
    ensures '.' in b.title
  {
    var n := |root| + 1;
    assert id[..n + |b.title|] == Child(root, b.title);
    assert id[n + |a.title|] == Child(root, b.title)[n + |a.title|] == b.title[|a.title|];
  }

  lemma DistinctBoth(a: seq<PlanNode>, ma: seq<Made>, b: seq<PlanNode>, mb: seq<Made>, root: string, prims: Prims)
    requires Covers(a, ma, root, prims) && Covers(b, mb, root, prims) && TidyLabels(ma + mb)
    requires DistinctPlan(a) && DistinctPlan(b)
    ensures DistinctPlan(a + b)
  {
    forall i, j | 0 <= i < |a| && 0 <= j < |b| ensures a[i].id != b[j].id {
      assert Given(ma, root, a[i].id, prims) && Given(mb, root, b[j].id, prims);
      var x :| 0 <= x < |ma| && MayGive(ma[x], root, a[i].id, prims);
      var y :| 0 <= y < |mb| && MayGive(mb[y], root, b[j].id, prims);
      assert (ma + mb)[x] == ma[x] && (ma + mb)[|ma| + y] == mb[y];
      if a[i].id == b[j].id { ApartIds(ma[x], mb[y], root, a[i].id, prims); }
    }
  }

  lemma TidyParts(ma: seq<Made>, mb: seq<Made>)
    requires TidyLabels(ma + mb)
    ensures TidyLabels(ma) && TidyLabels(mb)
  {
    assert forall i :: 0 <= i < |ma| ==> (ma + mb)[i] == ma[i];
    assert forall i :: 0 <= i < |mb| ==> (ma + mb)[|ma| + i] == mb[i];
  }

  ghost predicate DistinctResult(r: Expansion) {
    r.Ok? ==> DistinctPlan(r.value)
  }

  /** An expansion whose instances are tidy puts out every id once. */
  lemma {:induction false} IdsAreDistinct(inst: PlanNode, prims: Prims, host: Host, depth: nat)
    requires inst.typ in prims && TidyInst(inst, prims, host, depth)
    ensures DistinctResult(Expand(inst, prims, host, depth))
    decreases depth, 2
  {
    var prim := prims[inst.typ];
    var env := InputEnv(prim.inputs, inst.inputs);
    var prepared := host.prepare(prim.name, env);
    if prepared.Some? { BodyDistinct(prim.body, Instance(inst, prim, prepared.value), env, None, prims, host, depth); }
  }

  lemma {:induction false} BodyDistinct(body: seq<Body>, at: Instance, env: Env, loop: Loop, prims: Prims, host: Host,
      depth: nat)
    requires TidyLabels(MadeBody(body, at, env, loop, host)) && TidyBody(body, at, env, loop, prims, host, depth)
    ensures DistinctResult(ExpandBody(body, at, env, loop, prims, host, depth))
    decreases depth, 1, body, 0
  {
    if body != [] {
      var ma, mb := MadeDecl(body[0], at, env, loop, host), MadeBody(body[1..], at, env, loop, host);
      TidyParts(ma, mb);
      DeclDistinct(body[0], at, env, loop, prims, host, depth);
      BodyDistinct(body[1..], at, env, loop, prims, host, depth);
      DeclCovers(body[0], at, env, loop, prims, host, depth);
      BodyCovers(body[1..], at, env, loop, prims, host, depth);
      var a := ExpandDecl(body[0], at, env, loop, prims, host, depth);
      var b := ExpandBody(body[1..], at, env, loop, prims, host, depth);
      if a.Ok? && b.Ok? { DistinctBoth(a.value, ma, b.value, mb, at.inst.id, prims); }
    }
  }

  lemma {:induction false} DeclDistinct(d: Body, at: Instance, env: Env, loop: Loop, prims: Prims, host: Host,
      depth: nat)
    requires TidyLabels(MadeDecl(d, at, env, loop, host)) && TidyDecl(d, at, env, loop, prims, host, depth)
    ensures DistinctResult(ExpandDecl(d, at, env, loop, prims, host, depth))
    decreases depth, 1, d, 0
  {
    match d
    case One(n) =>
      var name, inputs := Label(n.name, loop, host), host.lower(n.inputs, env);
      if name.Some? && inputs.Some? && n.typ in prims && depth > 0 {
        IdsAreDistinct(Lowered(n, name.value, inputs.value, at), prims, host, depth - 1);
      }
    case Foreach(x, range, inner) =>
      var vs := Range(range, env, at.prepared);
      if vs.Some? { EachDistinct(vs.value, x, inner, at, env, prims, host, depth); }
  }

  lemma {:induction false} EachDistinct(vs: seq<Runtime>, x: string, inner: seq<Body>, at: Instance, env: Env,
      prims: Prims, host: Host, depth: nat)
    requires TidyLabels(MadeEach(vs, x, inner, at, env, host)) && TidyEach(vs, x, inner, at, env, prims, host, depth)
    ensures DistinctResult(ExpandEach(vs, x, inner, at, env, prims, host, depth))
    decreases depth, 1, inner, |vs| + 1
  {
    if vs != [] {
      var env', loop := env[x := vs[0]], Some((x, vs[0]));
      var ma, mb := MadeBody(inner, at, env', loop, host), MadeEach(vs[1..], x, inner, at, env, host);
      TidyParts(ma, mb);
      BodyDistinct(inner, at, env', loop, prims, host, depth);
      EachDistinct(vs[1..], x, inner, at, env, prims, host, depth);
      BodyCovers(inner, at, env', loop, prims, host, depth);
      EachCovers(vs[1..], x, inner, at, env, prims, host, depth);
      var a := ExpandBody(inner, at, env', loop, prims, host, depth);
      var b := ExpandEach(vs[1..], x, inner, at, env, prims, host, depth);
      if a.Ok? && b.Ok? { DistinctBoth(a.value, ma, b.value, mb, at.inst.id, prims); }
    }
  }

  // ---- When they are not ----

  /** Two built-in nodes are made under one name. */
  ghost predicate SameLabelTwice(made: seq<Made>, prims: Prims) {
    exists i, j :: 0 <= i < j < |made| && made[i].typ !in prims && made[j].typ !in prims
        && made[i].title == made[j].title
  }

  ghost predicate Repeats(r: Expansion, made: seq<Made>, prims: Prims) {
    r.Ok? && SameLabelTwice(made, prims) ==> !DistinctPlan(r.value)
  }

  lemma RepeatsBoth(a: seq<PlanNode>, ma: seq<Made>, b: seq<PlanNode>, mb: seq<Made>, root: string, prims: Prims)
    requires Covers(a, ma, root, prims) && Covers(b, mb, root, prims)
    requires Repeats(Ok(a), ma, prims) && Repeats(Ok(b), mb, prims)
    ensures Repeats(Ok(a + b), ma + mb, prims)
  {
    if SameLabelTwice(ma + mb, prims) {
      DistinctInParts(a, b);
      var m := ma + mb;
      var i, j :| 0 <= i < j < |m| && m[i].typ !in prims && m[j].typ !in prims && m[i].title == m[j].title;
      if j < |ma| {
        assert ma[i].title == ma[j].title;
      } else if i >= |ma| {
        assert mb[i - |ma|].title == mb[j - |ma|].title;
      } else {
        assert Named(a, Child(root, ma[i].title)) && Named(b, Child(root, mb[j - |ma|].title));
        var x :| 0 <= x < |a| && a[x].id == Child(root, ma[i].title);
        var y :| 0 <= y < |b| && b[y].id == Child(root, ma[i].title);
        assert (a + b)[x].id == (a + b)[|a| + y].id;
      }
    }
  }

  lemma DistinctInParts(a: seq<PlanNode>, b: seq<PlanNode>)
    ensures DistinctPlan(a + b) ==> DistinctPlan(a) && DistinctPlan(b)
  {
    if DistinctPlan(a + b) {
      forall i, j | 0 <= i < j < |a| ensures a[i].id != a[j].id { assert (a + b)[i].id != (a + b)[j].id; }
      forall i, j | 0 <= i < j < |b| ensures b[i].id != b[j].id { assert (a + b)[|a| + i].id != (a + b)[|a| + j].id; }
    }
  }

  /** A body that makes two built-in nodes under one name puts out an id twice. */
  lemma {:induction false} BodyRepeats(body: seq<Body>, at: Instance, env: Env, loop: Loop, prims: Prims, host: Host,
      depth: nat)
    ensures Repeats(ExpandBody(body, at, env, loop, prims, host, depth), MadeBody(body, at, env, loop, host), prims)
    decreases body, 0
  {
    if body != [] {
      DeclRepeats(body[0], at, env, loop, prims, host, depth);
      BodyRepeats(body[1..], at, env, loop, prims, host, depth);
      DeclCovers(body[0], at, env, loop, prims, host, depth);
      BodyCovers(body[1..], at, env, loop, prims, host, depth);
      var a := ExpandDecl(body[0], at, env, loop, prims, host, depth);
      var b := ExpandBody(body[1..], at, env, loop, prims, host, depth);
      if a.Ok? && b.Ok? {
        RepeatsBoth(a.value, MadeDecl(body[0], at, env, loop, host), b.value, MadeBody(body[1..], at, env, loop, host),
            at.inst.id, prims);
      }
    }
  }

  lemma {:induction false} DeclRepeats(d: Body, at: Instance, env: Env, loop: Loop, prims: Prims, host: Host,
      depth: nat)
    ensures Repeats(ExpandDecl(d, at, env, loop, prims, host, depth), MadeDecl(d, at, env, loop, host), prims)
    decreases d, 0
  {
    match d
    case One(n) =>
    case Foreach(x, range, inner) =>
      var vs := Range(range, env, at.prepared);
      if vs.Some? { EachRepeats(vs.value, x, inner, at, env, prims, host, depth); }
  }

  lemma {:induction false} EachRepeats(vs: seq<Runtime>, x: string, inner: seq<Body>, at: Instance, env: Env,
      prims: Prims, host: Host, depth: nat)
    ensures Repeats(ExpandEach(vs, x, inner, at, env, prims, host, depth), MadeEach(vs, x, inner, at, env, host), prims)
    decreases inner, |vs| + 1
  {
    if vs != [] {
      var env', loop := env[x := vs[0]], Some((x, vs[0]));
      BodyRepeats(inner, at, env', loop, prims, host, depth);
      EachRepeats(vs[1..], x, inner, at, env, prims, host, depth);
      BodyCovers(inner, at, env', loop, prims, host, depth);
      EachCovers(vs[1..], x, inner, at, env, prims, host, depth);
      var a := ExpandBody(inner, at, env', loop, prims, host, depth);
      var b := ExpandEach(vs[1..], x, inner, at, env, prims, host, depth);
      if a.Ok? && b.Ok? {
        RepeatsBoth(a.value, MadeBody(inner, at, env', loop, host), b.value, MadeEach(vs[1..], x, inner, at, env, host),
            at.inst.id, prims);
      }
    }
  }

  /** A nested block names its nodes by its own variable only. So two elements of the outer block give
      the same names, and a body with a built-in node in a nested block over literal lists puts out ids
      twice as soon as the outer list has two elements and the inner one. */
  lemma NestedBlockRepeats(x: string, es: seq<Expr>, y: string, fs: seq<Expr>, n: BodyNode, at: Instance, env: Env,
      loop: Loop, prims: Prims, host: Host, depth: nat)
    requires Literals(es).Some? && |es| >= 2 && Literals(fs).Some? && fs != [] && n.typ !in prims
    requires ExpandBody([Foreach(x, List(es), [Foreach(y, List(fs), [One(n)])])], at, env, loop, prims, host, depth).Ok?
    ensures var body := [Foreach(x, List(es), [Foreach(y, List(fs), [One(n)])])];
            !DistinctPlan(ExpandBody(body, at, env, loop, prims, host, depth).value)
  {
    var block := Foreach(y, List(fs), [One(n)]);
    var body := [Foreach(x, List(es), [block])];
    var vs, ws := Literals(es).value, Literals(fs).value;
    LiteralsLength(es);
    LiteralsLength(fs);
    var m := BlockMakes(n, y, fs, ws, at, env[x := vs[0]], Some((x, vs[0])), host);
    var m' := BlockMakes(n, y, fs, ws, at, env[x := vs[1]], Some((x, vs[1])), host);
    var a := MadeBody([block], at, env[x := vs[0]], Some((x, vs[0])), host);
    var b := MadeBody([block], at, env[x := vs[1]], Some((x, vs[1])), host);
    assert vs[1..][0] == vs[1];
    var rest := MadeEach(vs[1..][1..], x, [block], at, env, host);
    assert MadeEach(vs, x, [block], at, env, host) == a + (b + rest);
    assert body[1..] == [] && MadeBody(body, at, env, loop, host) == MadeEach(vs, x, [block], at, env, host) + [];
    var made := MadeBody(body, at, env, loop, host);
    assert made[0] == m && made[|a|] == m';
    BodyRepeats(body, at, env, loop, prims, host, depth);
  }

  /** The first node a block makes depends on its own loop only. */
  lemma BlockMakes(n: BodyNode, y: string, fs: seq<Expr>, ws: seq<Runtime>, at: Instance, env: Env, loop: Loop,
      host: Host)
    returns (m: Made)
    requires Literals(fs) == Some(ws) && ws != []
    ensures var title := host.relabel(n.name, y, ws[0]);
            m == Made(if title.Some? then title.value else n.name, n.typ)
    ensures var made := MadeBody([Foreach(y, List(fs), [One(n)])], at, env, loop, host);
            |made| > 0 && made[0] == m
  {
    var title := host.relabel(n.name, y, ws[0]);
    m := Made(if title.Some? then title.value else n.name, n.typ);
    var block := Foreach(y, List(fs), [One(n)]);
    var one, env', inside := [One(n)], env[y := ws[0]], Some((y, ws[0]));
    assert one[1..] == [] && [block][1..] == [];
    assert MadeDecl(one[0], at, env', inside, host) == [m];
    assert MadeBody(one, at, env', inside, host) ==
      MadeDecl(one[0], at, env', inside, host) + MadeBody(one[1..], at, env', inside, host);
    assert MadeBody(one, at, env', inside, host) == [m];
    assert MadeDecl(block, at, env, loop, host) == MadeEach(ws, y, [One(n)], at, env, host);
    assert MadeBody([block], at, env, loop, host) == MadeDecl(block, at, env, loop, host) + [];
  }
}
