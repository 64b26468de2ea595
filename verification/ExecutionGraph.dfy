/** internal/controller/graph.go: building the execution graph and Kahn's cycle check. */
module ExecutionGraph {
  import opened Digraph
  import opened Plan
  import opened Wrappers

  datatype BuildError =
    | DuplicateId(id: Id)
    | UnknownDep(node: Id, dep: Id)
    | CycleDetected

  /** The dependency relation as a graph: an edge from each node to what it depends on. */
  ghost function DepGraph(nodes: map<Id, Node>): Graph {
    map id | id in nodes :: nodes[id].dependsOn
  }

  ghost function NodeMap(ns: seq<Node>): map<Id, Node> {
    if ns == [] then map[] else NodeMap(ns[..|ns| - 1])[ns[|ns| - 1].id := ns[|ns| - 1]]
  }

  /** The node table holds exactly the listed nodes, each under its own id. */
  ghost predicate Registered(ns: seq<Node>, nodes: map<Id, Node>) {
    && (forall j :: 0 <= j < |ns| ==> ns[j].id in nodes && nodes[ns[j].id] == ns[j])
    && (forall v :: v in nodes ==> HasId(ns, v))
  }

  lemma RegisterNext(ns: seq<Node>, n: Node, nodes: map<Id, Node>)
    requires DistinctIds(ns) && Registered(ns, nodes) && n.id !in nodes
    ensures DistinctIds(ns + [n]) && Registered(ns + [n], nodes[n.id := n])
  {
    var ns' := ns + [n];
    forall v | v in nodes[n.id := n] ensures HasId(ns', v) {
      if v == n.id {
        assert ns'[|ns|].id == v;
      } else {
        var j :| 0 <= j < |ns| && ns[j].id == v;
        assert ns'[j].id == v;
      }
    }
  }

  lemma {:induction false} RegisteredIsNodeMap(ns: seq<Node>, nodes: map<Id, Node>)
    requires DistinctIds(ns) && Registered(ns, nodes)
    ensures nodes == NodeMap(ns)
  {
    if ns == [] {
      assert nodes.Keys == {};
    } else {
      var last, front := ns[|ns| - 1], ns[..|ns| - 1];
      var before := nodes - {last.id};
      forall v | v in before ensures HasId(front, v) {
        var j :| 0 <= j < |ns| && ns[j].id == v;
        assert front[j].id == v;
      }
      assert forall j :: 0 <= j < |front| ==> front[j] == ns[j];
      RegisteredIsNodeMap(front, before);
      assert nodes == before[last.id := last];
    }
  }

  /** Edges with multiplicity: v occurs in edges[u] as often as u occurs in v's depends_on,
      and the in-degree counts every occurrence. */
  ghost predicate Mirrors(nodes: map<Id, Node>, edges: map<Id, seq<Id>>, inDegree: map<Id, int>) {
    && inDegree.Keys == nodes.Keys
    && (forall v :: v in nodes ==> inDegree[v] == |nodes[v].dependsOn|)
    && (forall v, d :: v in nodes && d in nodes[v].dependsOn ==> d in nodes)
    && (forall u, v :: v in Succ(edges, u) ==> v in nodes)
    && (forall u, v {:trigger Copies(edges, u, v)} :: v in nodes ==>
         Copies(edges, u, v) == multiset(nodes[v].dependsOn)[u])
  }

  ghost function Copies(edges: map<Id, seq<Id>>, u: Id, v: Id): nat {
    multiset(Succ(edges, u))[v]
  }

  /** The nodes with counter zero, in whatever order the map is iterated. */
  method ZeroNodes(degree: map<Id, int>) returns (queue: seq<Id>)
    ensures Distinct(queue) && forall v :: v in queue <==> v in degree && degree[v] == 0
  {
    queue := [];
    var todo := degree.Keys;
    while todo != {}
      invariant todo <= degree.Keys && Distinct(queue)
      invariant forall v :: v in queue <==> v in degree && v !in todo && degree[v] == 0
    {
      var id :| id in todo;
      if degree[id] == 0 { queue := queue + [id]; }
      todo := todo - {id};
    }
  }

  /** The inner loop over edges[u]. */
  method ReleaseDependents(degree0: map<Id, int>, queue0: seq<Id>, outgoing: seq<Id>)
    returns (degree: map<Id, int>, queue: seq<Id>)
    ensures (degree, queue) == Release(degree0, queue0, outgoing)
  {
    degree, queue := degree0, queue0;
    for k := 0 to |outgoing|
      invariant Release(degree, queue, outgoing[k..]) == Release(degree0, queue0, outgoing)
    {
      var v := outgoing[k];
      assert outgoing[k..][1..] == outgoing[k + 1..];
      degree := TakeOne(degree, v);
      if degree[v] == 0 { queue := queue + [v]; }
    }
  }

  ghost predicate KnownUpTo(deps: seq<Id>, nodes: map<Id, Node>, k: nat) {
    forall j :: 0 <= j < k && j < |deps| ==> deps[j] in nodes
  }

  ghost predicate RowsKnown(ns: seq<Node>, nodes: map<Id, Node>, i: nat) {
    forall j :: 0 <= j < i && j < |ns| ==> KnownUpTo(ns[j].dependsOn, nodes, |ns[j].dependsOn|)
  }

  /** The culprit named: a node that lists the name of no node. */
  ghost predicate NamesUnknown(ns: seq<Node>, e: BuildError) {
    && e.UnknownDep? && !HasId(ns, e.dep)
    && exists i :: 0 <= i < |ns| && ns[i].id == e.node && e.dep in ns[i].dependsOn
  }

  /** The culprit named: an id that two nodes carry. */
  ghost predicate NamesDuplicate(ns: seq<Node>, e: BuildError) {
    e.DuplicateId? && exists i, j :: 0 <= i < j < |ns| && ns[i].id == ns[j].id == e.id
  }

  lemma UnknownNamed(ns: seq<Node>, nodes: map<Id, Node>, i: nat, e: BuildError)
    requires Registered(ns, nodes) && i < |ns|
    requires e.UnknownDep? && e.node == ns[i].id && e.dep !in nodes && e.dep in ns[i].dependsOn
    ensures NamesUnknown(ns, e) && !DepsKnown(ns)
  {
    assert !HasId(ns, e.dep);
  }

  lemma AllKnown(ns: seq<Node>, nodes: map<Id, Node>)
    requires Registered(ns, nodes) && RowsKnown(ns, nodes, |ns|)
    ensures DepsKnown(ns)
  {
  }

  /** The inner loop over one node's depends_on. */
  method AddRow(nodes: map<Id, Node>, ns: seq<Node>, i: nat, edges0: map<Id, seq<Id>>, inDegree0: map<Id, int>,
      ghost seen0: Graph)
    returns (err: Option<BuildError>, edges: map<Id, seq<Id>>, inDegree: map<Id, int>, ghost seen: Graph)
    requires DistinctIds(ns) && Registered(ns, nodes) && i < |ns|
    requires MirrorsSeen(seen0, nodes.Keys, edges0, inDegree0) && SeenUpTo(ns, seen0, i, 0)
    ensures err.None? ==> MirrorsSeen(seen, nodes.Keys, edges, inDegree) && SeenUpTo(ns, seen, i + 1, 0)
    ensures err.None? ==> KnownUpTo(ns[i].dependsOn, nodes, |ns[i].dependsOn|)
    ensures err.Some? ==> NamesUnknown(ns, err.value) && !DepsKnown(ns)
  {
    err, edges, inDegree, seen := None, edges0, inDegree0, seen0;
    var n := ns[i];
    for k := 0 to |n.dependsOn|
      invariant MirrorsSeen(seen, nodes.Keys, edges, inDegree) && SeenUpTo(ns, seen, i, k)
      invariant KnownUpTo(n.dependsOn, nodes, k)
    {
      var dep := n.dependsOn[k];
      if dep !in nodes {
        err := Some(UnknownDep(n.id, dep));
        UnknownNamed(ns, nodes, i, err.value);
        return;
      }
      ExtendRow(ns, nodes, seen, edges, inDegree, i, k);
      seen := seen[n.id := seen[n.id] + [dep]];
      edges := edges[dep := Succ(edges, dep) + [n.id]];
      inDegree := inDegree[n.id := inDegree[n.id] + 1];
    }
    SeenRow(ns, seen, i);
  }

  lemma DuplicateNamed(ns: seq<Node>, nodes: map<Id, Node>, i: nat)
    requires i < |ns| && Registered(ns[..i], nodes) && ns[i].id in nodes
    ensures NamesDuplicate(ns, DuplicateId(ns[i].id)) && !DistinctIds(ns)
  {
    assert HasId(ns[..i], ns[i].id);
    var j :| 0 <= j < i && ns[..i][j].id == ns[i].id;
    assert ns[j].id == ns[i].id;
  }

  method AddRows(nodes: map<Id, Node>, ns: seq<Node>, inDegree0: map<Id, int>)
    returns (err: Option<BuildError>, edges: map<Id, seq<Id>>, inDegree: map<Id, int>)
    requires DistinctIds(ns) && Registered(ns, nodes)
    requires inDegree0.Keys == nodes.Keys && forall v :: v in inDegree0 ==> inDegree0[v] == 0
    ensures err.None? <==> DepsKnown(ns)
    ensures err.None? ==> Mirrors(nodes, edges, inDegree)
    ensures err.Some? ==> NamesUnknown(ns, err.value)
  {
    err, edges, inDegree := None, map[], inDegree0;
    ghost var seen: Graph := map v | v in nodes :: [];
    for i := 0 to |ns|
      invariant err.None? && MirrorsSeen(seen, nodes.Keys, edges, inDegree) && SeenUpTo(ns, seen, i, 0)
      invariant RowsKnown(ns, nodes, i)
    {
      err, edges, inDegree, seen := AddRow(nodes, ns, i, edges, inDegree, seen);
      if err.Some? { return; }
    }
    AllKnown(ns, nodes);
    SeenAll(ns, nodes, seen, edges, inDegree);
  }

  class ExecGraph {
    var nodes: map<Id, Node>
    var edges: map<Id, seq<Id>>
    var inDegree: map<Id, int>

    ghost predicate Valid()
      reads this
    {
      Mirrors(nodes, edges, inDegree)
    }

    constructor ()
      ensures nodes == map[] && edges == map[] && inDegree == map[]
    {
      nodes, edges, inDegree := map[], map[], map[];
    }

    method AddNodes(ns: seq<Node>) returns (err: Option<BuildError>)
      requires nodes == map[] && edges == map[] && inDegree == map[]
      modifies this
      ensures err.None? <==> DistinctIds(ns)
      ensures err.None? ==> Registered(ns, nodes) && edges == map[]
      ensures err.None? ==> inDegree.Keys == nodes.Keys && forall v :: v in inDegree ==> inDegree[v] == 0
      ensures err.Some? ==> NamesDuplicate(ns, err.value)
    {
      for i := 0 to |ns|
        invariant Registered(ns[..i], nodes) && DistinctIds(ns[..i]) && edges == map[]
        invariant inDegree.Keys == nodes.Keys && forall v :: v in inDegree ==> inDegree[v] == 0
      {
        var n := ns[i];
        if n.id in nodes {
          DuplicateNamed(ns, nodes, i);
          return Some(DuplicateId(n.id));
        }
        RegisterNext(ns[..i], n, nodes);
        assert ns[..i + 1] == ns[..i] + [n];
        nodes := nodes[n.id := n];
        inDegree := inDegree[n.id := 0];
      }
      assert ns[..|ns|] == ns;
      return None;
    }

    method AddEdges(ns: seq<Node>) returns (err: Option<BuildError>)
      requires DistinctIds(ns) && Registered(ns, nodes) && edges == map[]
      requires inDegree.Keys == nodes.Keys && forall v :: v in inDegree ==> inDegree[v] == 0
      modifies this`edges, this`inDegree
      ensures err.None? <==> DepsKnown(ns)
      ensures err.None? ==> Valid()
      ensures err.Some? ==> NamesUnknown(ns, err.value)
    {
      err, edges, inDegree := AddRows(nodes, ns, inDegree);
    }

    /** Kahn's algorithm. The ghost result lists the nodes in the order they were dequeued. */
    method DetectCycles() returns (ok: bool, ghost order: seq<Id>)
      requires Valid()
      ensures ok <==> Acyclic(DepGraph(nodes))
      ensures Distinct(order) && DependenciesFirst(nodes, order)
      ensures ok ==> Elems(order) == nodes.Keys
      ensures !ok ==> exists c :: IsCycle(DepGraph(nodes), c) && Elems(c) <= nodes.Keys - Elems(order)
    {
      var degree := inDegree;
      var queue := ZeroNodes(degree);
      var count := 0;
      order := [];
      InitialFrontier(nodes, degree, queue);
      while |queue| > 0
        invariant count == |order|
        invariant Frontier(nodes, degree, order, queue)
        decreases |nodes| - |order|
      {
        ghost var next := DequeueKeepsFrontier(nodes, edges, inDegree, degree, order, queue);
        var u := queue[0];
        queue := queue[1..];
        count := count + 1;
        order := order + [u];
        degree, queue := ReleaseDependents(degree, queue, Succ(edges, u));
      }
      ok := count == |nodes|;
      DistinctSize(order);
      SubsetSize(Elems(order), nodes.Keys);
      if ok {
        OrderIsAcyclic(nodes, order);
      } else {
        var c := NeverDequeuedHasCycle(nodes, degree, order);
      }
    }
  }

  ghost predicate DependenciesFirst(nodes: map<Id, Node>, order: seq<Id>) {
    forall k, d :: 0 <= k < |order| && order[k] in nodes && d in nodes[order[k]].dependsOn ==> d in order[..k]
  }

  /** The counters say what is still undelivered, and the queue and the dequeued nodes
      together are exactly the nodes whose counter is zero. */
  ghost predicate Frontier(nodes: map<Id, Node>, degree: map<Id, int>, order: seq<Id>, queue: seq<Id>) {
    && degree.Keys == nodes.Keys
    && Distinct(order) && Distinct(queue) && Elems(order) !! Elems(queue)
    && Elems(order) + Elems(queue) <= nodes.Keys
    && (forall v :: v in nodes ==> degree[v] == Pending(nodes[v].dependsOn, Elems(order)))
    && (forall v :: v in nodes ==> (v in Elems(order) + Elems(queue) <==> degree[v] == 0))
    && DependenciesFirst(nodes, order)
  }

  lemma InitialFrontier(nodes: map<Id, Node>, degree: map<Id, int>, queue: seq<Id>)
    requires degree.Keys == nodes.Keys && Distinct(queue) && Elems(queue) <= nodes.Keys
    requires forall v :: v in nodes ==> degree[v] == |nodes[v].dependsOn|
    requires forall v :: v in nodes ==> (v in queue <==> degree[v] == 0)
    ensures Frontier(nodes, degree, [], queue)
  {
    assert Elems([]) == {};
    forall v | v in nodes ensures degree[v] == Pending(nodes[v].dependsOn, {}) {
      PendingNone(nodes[v].dependsOn);
    }
  }

  /** As Frontier, while the occurrences listed in `out` are still to be taken off. */
  ghost predicate Releasing(nodes: map<Id, Node>, degree: map<Id, int>, order: seq<Id>, rest: seq<Id>, out: seq<Id>) {
    && degree.Keys == nodes.Keys && (forall v :: v in out ==> v in nodes)
    && Distinct(order) && Distinct(rest) && Elems(order) !! Elems(rest)
    && Elems(order) + Elems(rest) <= nodes.Keys && DependenciesFirst(nodes, order)
    && (forall v :: v in nodes ==> degree[v] == Pending(nodes[v].dependsOn, Elems(order)) + multiset(out)[v])
    && (forall v :: v in nodes ==> (v in Elems(order) + Elems(rest) <==> degree[v] == 0))
  }

  lemma DequeueKeepsFrontier(nodes: map<Id, Node>, edges: map<Id, seq<Id>>, inDegree: map<Id, int>,
                             degree: map<Id, int>, order: seq<Id>, queue: seq<Id>)
    returns (next: (map<Id, int>, seq<Id>))
    requires Mirrors(nodes, edges, inDegree) && Frontier(nodes, degree, order, queue) && |queue| > 0
    ensures next == Release(degree, queue[1..], Succ(edges, queue[0]))
    ensures Frontier(nodes, next.0, order + [queue[0]], next.1)
    ensures |order| < |nodes|
  {
    DequeueStartsRelease(nodes, edges, inDegree, degree, order, queue);
    next := ReleaseKeepsZeroSet(nodes, degree, order + [queue[0]], queue[1..], Succ(edges, queue[0]));
    DistinctSize(order + [queue[0]]);
    SubsetSize(Elems(order + [queue[0]]), nodes.Keys);
  }

  lemma DequeueStartsRelease(nodes: map<Id, Node>, edges: map<Id, seq<Id>>, inDegree: map<Id, int>,
                             degree: map<Id, int>, order: seq<Id>, queue: seq<Id>)
    requires Mirrors(nodes, edges, inDegree) && Frontier(nodes, degree, order, queue) && |queue| > 0
    ensures Releasing(nodes, degree, order + [queue[0]], queue[1..], Succ(edges, queue[0]))
  {
    var u := queue[0];
    DequeueSets(order, queue);
    CountersAfter(nodes, edges, inDegree, degree, order, u);
    OrderExtends(nodes, order, u);
  }

  lemma DequeueSets(order: seq<Id>, queue: seq<Id>)
    requires Distinct(order) && Distinct(queue) && Elems(order) !! Elems(queue) && |queue| > 0
    ensures var order', rest := order + [queue[0]], queue[1..];
            && Distinct(order') && Distinct(rest) && Elems(order') !! Elems(rest)
            && Elems(order') + Elems(rest) == Elems(order) + Elems(queue) && queue[0] !in Elems(order)
  {
    var u, rest := queue[0], queue[1..];
    assert queue == [u] + rest;
    assert Elems(queue) == {u} + Elems(rest) && u !in Elems(rest);
    assert Elems([u]) == {u};
    DistinctConcat(order, [u]);
  }

  lemma ReleaseKeepsZeroSet(nodes: map<Id, Node>, degree: map<Id, int>, order: seq<Id>, rest: seq<Id>, out: seq<Id>)
    returns (next: (map<Id, int>, seq<Id>))
    requires Releasing(nodes, degree, order, rest, out)
    ensures next == Release(degree, rest, out)
    ensures Frontier(nodes, next.0, order, next.1)
  {
    next := Release(degree, rest, out);
    assert forall v :: v in out ==> v in degree;
    ReleaseCounters(degree, rest, out);
    var added := ReleaseQueue(degree, rest, out);
    assert Elems(rest) !! Elems(added) by {
      forall v | v in rest ensures v !in added { assert v in Elems(order) + Elems(rest); }
    }
    DistinctConcat(rest, added);
    forall v | v in Elems(added) ensures v in nodes && v !in Elems(order) {
      assert v !in Elems(order) + Elems(rest);
    }
    forall v | v in nodes ensures v in Elems(order) + Elems(next.1) <==> next.0[v] == 0 {
      assert v in Elems(added) <==> v in added;
    }
  }

  lemma CountersAfter(nodes: map<Id, Node>, edges: map<Id, seq<Id>>, inDegree: map<Id, int>,
                      degree: map<Id, int>, order: seq<Id>, u: Id)
    requires Mirrors(nodes, edges, inDegree) && degree.Keys == nodes.Keys && u !in Elems(order)
    requires forall v :: v in nodes ==> degree[v] == Pending(nodes[v].dependsOn, Elems(order))
    ensures forall v :: v in nodes ==>
      degree[v] == Pending(nodes[v].dependsOn, Elems(order + [u])) + multiset(Succ(edges, u))[v]
  {
    assert Elems(order + [u]) == Elems(order) + {u};
    forall v | v in nodes
      ensures degree[v] == Pending(nodes[v].dependsOn, Elems(order + [u])) + multiset(Succ(edges, u))[v]
    {
      PendingDrops(nodes[v].dependsOn, Elems(order), u);
      assert Copies(edges, u, v) == multiset(nodes[v].dependsOn)[u];
    }
  }

  lemma OrderExtends(nodes: map<Id, Node>, order: seq<Id>, u: Id)
    requires DependenciesFirst(nodes, order)
    requires u in nodes ==> forall d :: d in nodes[u].dependsOn ==> d in Elems(order)
    ensures DependenciesFirst(nodes, order + [u])
  {
    var order' := order + [u];
    forall k, d | 0 <= k < |order'| && order'[k] in nodes && d in nodes[order'[k]].dependsOn
      ensures d in order'[..k]
    {
      if k < |order| { assert order'[..k] == order[..k]; } else { assert order'[..k] == order; }
    }
  }

  lemma OrderIsAcyclic(nodes: map<Id, Node>, order: seq<Id>)
    requires Distinct(order) && Elems(order) == nodes.Keys && DependenciesFirst(nodes, order)
    ensures Acyclic(DepGraph(nodes))
  {
    var g := DepGraph(nodes);
    var rank: map<Id, nat> := map v | v in nodes :: IndexOf(order, v);
    forall u, v | v in Succ(g, u) ensures u in rank && v in rank && rank[v] < rank[u] {
      var k := IndexOf(order, u);
      assert v in order[..k];
      var j :| 0 <= j < k && order[..k][j] == v;
    }
    RankedIsAcyclic(g, rank);
  }

  ghost function IndexOf(s: seq<Id>, x: Id): (k: nat)
    requires x in s
    ensures k < |s| && s[k] == x
  {
    var k :| 0 <= k < |s| && s[k] == x; k
  }

  lemma NeverDequeuedHasCycle(nodes: map<Id, Node>, degree: map<Id, int>, order: seq<Id>) returns (c: seq<Id>)
    requires Frontier(nodes, degree, order, []) && Elems(order) != nodes.Keys
    requires forall v, d :: v in nodes && d in nodes[v].dependsOn ==> d in nodes
    ensures IsCycle(DepGraph(nodes), c) && Elems(c) <= nodes.Keys - Elems(order)
    ensures !Acyclic(DepGraph(nodes))
  {
    var g, rest := DepGraph(nodes), nodes.Keys - Elems(order);
    assert nodes.Keys == Elems(order) + rest;
    forall v {:trigger HasSuccIn(g, v, rest)} | v in rest ensures HasSuccIn(g, v, rest) {
      assert degree[v] != 0;
      var d :| d in nodes[v].dependsOn && d !in Elems(order);
      assert d in Succ(g, v) && d in rest;
    }
    c := StuckSetHasCycle(g, rest);
  }

  /** The adjacency lists and counters after the dependency occurrences in `seen`. */
  ghost predicate MirrorsSeen(seen: Graph, ids: set<Id>, edges: map<Id, seq<Id>>, inDegree: map<Id, int>) {
    && inDegree.Keys == seen.Keys == ids
    && (forall v :: v in ids ==> inDegree[v] == |seen[v]| && forall d :: d in seen[v] ==> d in ids)
    && (forall u, v :: v in Succ(edges, u) ==> v in ids)
    && (forall u, v {:trigger Copies(edges, u, v)} :: v in ids ==> Copies(edges, u, v) == multiset(seen[v])[u])
  }

  lemma AddEdge(seen: Graph, ids: set<Id>, edges: map<Id, seq<Id>>, inDegree: map<Id, int>, n: Id, dep: Id)
    requires MirrorsSeen(seen, ids, edges, inDegree) && n in ids && dep in ids
    ensures MirrorsSeen(seen[n := seen[n] + [dep]], ids, edges[dep := Succ(edges, dep) + [n]],
        inDegree[n := inDegree[n] + 1])
  {
    var seen', edges' := seen[n := seen[n] + [dep]], edges[dep := Succ(edges, dep) + [n]];
    forall u, v {:trigger Copies(edges', u, v)} | v in ids
      ensures Copies(edges', u, v) == multiset(seen'[v])[u]
    {
      assert Copies(edges, u, v) == multiset(seen[v])[u];
      OneMoreCopy(seen[v], edges, n, dep, u, v);
    }
    forall u, v | v in Succ(edges', u) ensures v in ids {
      assert u != dep ==> v in Succ(edges, u);
    }
  }

  lemma OneMoreCopy(row: seq<Id>, edges: map<Id, seq<Id>>, n: Id, dep: Id, u: Id, v: Id)
    requires Copies(edges, u, v) == multiset(row)[u]
    ensures Copies(edges[dep := Succ(edges, dep) + [n]], u, v) == multiset(if v == n then row + [dep] else row)[u]
  {
    assert Succ(edges[dep := Succ(edges, dep) + [n]], u) == if u == dep then Succ(edges, u) + [n] else Succ(edges, u);
  }

  method BuildGraph(ns: seq<Node>) returns (g: ExecGraph, err: Option<BuildError>)
    ensures fresh(g)
    ensures err.None? <==> DistinctIds(ns) && DepsKnown(ns) && Acyclic(DepGraph(NodeMap(ns)))
    ensures err.None? ==> g.Valid() && g.nodes == NodeMap(ns)
    ensures err.Some? && err.value.DuplicateId? <==> !DistinctIds(ns)
    ensures err.Some? && err.value.UnknownDep? <==> DistinctIds(ns) && !DepsKnown(ns)
    ensures err.Some? && err.value.DuplicateId? ==> NamesDuplicate(ns, err.value)
    ensures err.Some? && err.value.UnknownDep? ==> NamesUnknown(ns, err.value)
  {
    g := new ExecGraph();
    err := g.AddNodes(ns);
    if err.Some? { return; }
    RegisteredIsNodeMap(ns, g.nodes);
    err := g.AddEdges(ns);
    if err.Some? { return; }
    var ok, order := g.DetectCycles();
    err := if ok then None else Some(CycleDetected);
  }

  lemma ExtendRow(ns: seq<Node>, nodes: map<Id, Node>, seen: Graph, edges: map<Id, seq<Id>>, inDegree: map<Id, int>,
                  i: nat, k: nat)
    requires DistinctIds(ns) && Registered(ns, nodes) && MirrorsSeen(seen, nodes.Keys, edges, inDegree)
    requires SeenUpTo(ns, seen, i, k) && i < |ns| && k < |ns[i].dependsOn| && ns[i].dependsOn[k] in nodes
    ensures ns[i].id in seen && ns[i].id in inDegree
    ensures var n, dep := ns[i].id, ns[i].dependsOn[k];
            var seen' := seen[n := seen[n] + [dep]];
            && MirrorsSeen(seen', nodes.Keys, edges[dep := Succ(edges, dep) + [n]], inDegree[n := inDegree[n] + 1])
            && SeenUpTo(ns, seen', i, k + 1)
  {
    AddEdge(seen, nodes.Keys, edges, inDegree, ns[i].id, ns[i].dependsOn[k]);
    SeenNext(ns, seen, i, k);
  }

  ghost function SeenPart(ns: seq<Node>, i: nat, k: nat, j: nat): seq<Id>
    requires j < |ns| && (i < |ns| ==> k <= |ns[i].dependsOn|)
  {
    if j < i then ns[j].dependsOn else if j == i then ns[j].dependsOn[..k] else []
  }

  /** The double loop has handled all of rows 0 .. i-1 and the first k entries of row i. */
  ghost predicate SeenUpTo(ns: seq<Node>, seen: Graph, i: nat, k: nat) {
    && (i < |ns| ==> k <= |ns[i].dependsOn|)
    && forall j :: 0 <= j < |ns| ==> ns[j].id in seen && seen[ns[j].id] == SeenPart(ns, i, k, j)
  }

  lemma SeenNext(ns: seq<Node>, seen: Graph, i: nat, k: nat)
    requires DistinctIds(ns) && SeenUpTo(ns, seen, i, k) && i < |ns| && k < |ns[i].dependsOn|
    ensures SeenUpTo(ns, seen[ns[i].id := seen[ns[i].id] + [ns[i].dependsOn[k]]], i, k + 1)
  {
    assert ns[i].dependsOn[..k + 1] == ns[i].dependsOn[..k] + [ns[i].dependsOn[k]];
  }

  lemma SeenRow(ns: seq<Node>, seen: Graph, i: nat)
    requires i < |ns| && SeenUpTo(ns, seen, i, |ns[i].dependsOn|)
    ensures SeenUpTo(ns, seen, i + 1, 0)
  {
    assert ns[i].dependsOn[..|ns[i].dependsOn|] == ns[i].dependsOn;
  }

  lemma SeenAll(ns: seq<Node>, nodes: map<Id, Node>, seen: Graph, edges: map<Id, seq<Id>>, inDegree: map<Id, int>)
    requires Registered(ns, nodes) && MirrorsSeen(seen, nodes.Keys, edges, inDegree) && SeenUpTo(ns, seen, |ns|, 0)
    ensures Mirrors(nodes, edges, inDegree)
  {
    forall v | v in nodes ensures nodes[v].dependsOn == seen[v] {
      var j :| 0 <= j < |ns| && ns[j].id == v;
    }
  }
}
