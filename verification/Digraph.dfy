/** Finite directed graphs over string names, and the facts about cycles that the
    execution graph, the step graph, the primitive graph and the import graph share. */
module Digraph {

  type Id = string

  /** Adjacency lists; a name without an entry has no outgoing edge. */
  type Graph = map<Id, seq<Id>>

  function Succ(g: Graph, u: Id): seq<Id> {
    if u in g then g[u] else []
  }

  ghost predicate IsWalk(g: Graph, w: seq<Id>) {
    |w| >= 1 && (|w| == 1 || (w[1] in Succ(g, w[0]) && IsWalk(g, w[1..])))
  }

  /** A closed walk with at least one edge. */
  ghost predicate IsCycle(g: Graph, c: seq<Id>) {
    |c| >= 2 && IsWalk(g, c) && c[0] == c[|c| - 1]
  }

  ghost predicate Acyclic(g: Graph) {
    forall c :: !IsCycle(g, c)
  }

  /** Every edge goes strictly down in rank. */
  ghost predicate IsRanking(g: Graph, rank: map<Id, nat>) {
    forall u, v :: v in Succ(g, u) ==> u in rank && v in rank && rank[v] < rank[u]
  }

  ghost function Nodes(g: Graph): set<Id> {
    g.Keys + set u, v | u in g && v in g[u] :: v
  }

  ghost function Elems(w: seq<Id>): set<Id> {
    set x | x in w
  }

  ghost predicate HasSuccIn(g: Graph, u: Id, s: set<Id>) {
    exists v :: v in Succ(g, u) && v in s
  }

  /** Every member of s has a successor in s. */
  ghost predicate Stuck(g: Graph, s: set<Id>) {
    forall u {:trigger HasSuccIn(g, u, s)} :: u in s ==> HasSuccIn(g, u, s)
  }

  /** A walk from u to v with at least one edge. */
  ghost predicate Reaches(g: Graph, u: Id, v: Id) {
    exists w :: IsWalkBetween(g, w, u, v)
  }

  ghost predicate IsWalkBetween(g: Graph, w: seq<Id>, u: Id, v: Id) {
    |w| >= 2 && IsWalk(g, w) && w[0] == u && w[|w| - 1] == v
  }

  lemma EdgeDrops(g: Graph, rank: map<Id, nat>, u: Id, v: Id)
    requires IsRanking(g, rank) && v in Succ(g, u)
    ensures u in rank && v in rank && rank[v] < rank[u]
  {
  }

  lemma {:induction false} RankDropsAlongWalk(g: Graph, rank: map<Id, nat>, w: seq<Id>)
    requires IsRanking(g, rank) && IsWalk(g, w) && |w| >= 2
    ensures w[0] in rank && w[|w| - 1] in rank && rank[w[|w| - 1]] < rank[w[0]]
    decreases |w|
  {
    EdgeDrops(g, rank, w[0], w[1]);
    if |w| > 2 {
      RankDropsAlongWalk(g, rank, w[1..]);
    }
  }

  lemma RankedIsAcyclic(g: Graph, rank: map<Id, nat>)
    requires IsRanking(g, rank)
    ensures Acyclic(g)
  {
    forall c | IsCycle(g, c) ensures false {
      RankDropsAlongWalk(g, rank, c);
    }
  }

  lemma {:induction false} WalkAppend(g: Graph, w: seq<Id>, v: Id)
    requires IsWalk(g, w) && v in Succ(g, w[|w| - 1])
    ensures IsWalk(g, w + [v])
    decreases |w|
  {
    if |w| == 1 {
      assert (w + [v])[1..] == [v];
    } else {
      WalkAppend(g, w[1..], v);
      assert (w + [v])[1..] == w[1..] + [v];
    }
  }

  lemma {:induction false} WalkDrop(g: Graph, w: seq<Id>, k: nat)
    requires IsWalk(g, w) && k < |w|
    ensures IsWalk(g, w[k..])
    decreases k
  {
    if k > 0 {
      WalkDrop(g, w[1..], k - 1);
      assert w[1..][k - 1..] == w[k..];
    }
  }

  lemma {:induction false} WalkJoin(g: Graph, w: seq<Id>, x: seq<Id>)
    requires IsWalk(g, w) && IsWalk(g, x) && w[|w| - 1] == x[0]
    ensures IsWalk(g, w + x[1..])
    decreases |w|
  {
    if |w| == 1 {
      assert w + x[1..] == x;
    } else {
      WalkJoin(g, w[1..], x);
      assert (w + x[1..])[1..] == w[1..] + x[1..];
    }
  }

  lemma ReachesTrans(g: Graph, u: Id, v: Id, x: Id)
    requires Reaches(g, u, v) && Reaches(g, v, x)
    ensures Reaches(g, u, x)
  {
    var w :| IsWalkBetween(g, w, u, v);
    var y :| IsWalkBetween(g, y, v, x);
    WalkJoin(g, w, y);
    assert IsWalkBetween(g, w + y[1..], u, x);
  }

  lemma EdgeReaches(g: Graph, u: Id, v: Id)
    requires v in Succ(g, u)
    ensures Reaches(g, u, v)
  {
    assert IsWalk(g, [u, v][1..]);
    assert IsWalkBetween(g, [u, v], u, v);
  }

  /** The pigeonhole step: if every member of a nonempty finite set has a successor in the
      set, following successors must close a cycle inside it. */
  lemma StuckSetHasCycle(g: Graph, s: set<Id>) returns (c: seq<Id>)
    requires s != {}
    requires Stuck(g, s)
    ensures IsCycle(g, c) && Elems(c) <= s
  {
    var u :| u in s;
    c := ExtendToCycle(g, s, [u]);
  }

  lemma {:induction false} ExtendToCycle(g: Graph, s: set<Id>, w: seq<Id>) returns (c: seq<Id>)
    requires Stuck(g, s) && IsWalk(g, w) && Elems(w) <= s
    ensures IsCycle(g, c) && Elems(c) <= s
    decreases |s - Elems(w)|
  {
    var last := w[|w| - 1];
    assert last in Elems(w);
    assert HasSuccIn(g, last, s);
    var v :| v in Succ(g, last) && v in s;
    WalkAppend(g, w, v);
    assert Elems(w + [v]) == Elems(w) + {v};
    if v in w {
      c := CloseWalk(g, w + [v]);
    } else {
      assert s - Elems(w + [v]) == (s - Elems(w)) - {v};
      c := ExtendToCycle(g, s, w + [v]);
    }
  }

  lemma CloseWalk(g: Graph, w: seq<Id>) returns (c: seq<Id>)
    requires IsWalk(g, w) && |w| >= 2 && w[|w| - 1] in w[..|w| - 1]
    ensures IsCycle(g, c) && Elems(c) <= Elems(w)
  {
    var k :| 0 <= k < |w| - 1 && w[k] == w[|w| - 1];
    WalkDrop(g, w, k);
    c := w[k..];
  }

  /** No cycle means a topological ranking exists, built by peeling off nodes all of whose
      successors are ranked already. */
  lemma AcyclicHasRanking(g: Graph) returns (rank: map<Id, nat>)
    requires Acyclic(g)
    ensures IsRanking(g, rank) && rank.Keys == Nodes(g)
  {
    rank := map[];
    while rank.Keys != Nodes(g)
      invariant PartlyRanked(g, rank)
      decreases |Nodes(g) - rank.Keys|
    {
      var u := PickPeelable(g, rank.Keys);
      assert Nodes(g) - rank[u := |rank|].Keys == Nodes(g) - rank.Keys - {u};
      PeelOne(g, rank, u);
      rank := rank[u := |rank|];
    }
    assert forall u :: Succ(g, u) != [] ==> u in Nodes(g);
  }

  ghost predicate PartlyRanked(g: Graph, rank: map<Id, nat>) {
    && rank.Keys <= Nodes(g)
    && (forall u :: u in rank ==> rank[u] < |rank|)
    && (forall u, v :: u in rank && v in Succ(g, u) ==> v in rank && rank[v] < rank[u])
  }

  lemma PeelOne(g: Graph, rank: map<Id, nat>, u: Id)
    requires PartlyRanked(g, rank) && u in Nodes(g) && u !in rank
    requires forall v :: v in Succ(g, u) ==> v in rank
    ensures PartlyRanked(g, rank[u := |rank|])
  {
  }

  lemma PickPeelable(g: Graph, done: set<Id>) returns (u: Id)
    requires Acyclic(g) && done <= Nodes(g) && done != Nodes(g)
    ensures u in Nodes(g) - done && forall v :: v in Succ(g, u) ==> v in done
  {
    var rest := Nodes(g) - done;
    assert Nodes(g) == done + rest;
    u := PickLast(g, rest);
    forall v | v in Succ(g, u) ensures v in done {
      assert v in Nodes(g);
      assert v !in rest;
    }
  }

  lemma PickLast(g: Graph, s: set<Id>) returns (u: Id)
    requires Acyclic(g) && s != {}
    ensures u in s && forall v :: v in Succ(g, u) ==> v !in s
  {
    if Stuck(g, s) {
      var c := StuckSetHasCycle(g, s);
      assert false;
    } else {
      u :| u in s && !HasSuccIn(g, u, s);
    }
  }

  /** Stepping along a cycle stays on a cycle. */
  lemma CycleNext(g: Graph, u: Id) returns (v: Id)
    requires Reaches(g, u, u)
    ensures v in Succ(g, u) && Reaches(g, v, v)
  {
    var w :| IsWalkBetween(g, w, u, u);
    v := w[1];
    var t := w[1..];
    WalkAppend(g, t, v);
    assert IsWalkBetween(g, t + [v], v, v);
  }

  lemma CyclicHasLoop(g: Graph)
    requires !Acyclic(g)
    ensures exists u :: Reaches(g, u, u)
  {
    var c :| IsCycle(g, c);
    assert IsWalkBetween(g, c, c[0], c[0]);
    assert Reaches(g, c[0], c[0]);
  }

  ghost function Largest(rank: map<Id, nat>): (m: nat)
    ensures forall x :: x in rank ==> rank[x] <= m
  {
    if rank == map[] then 0
    else
      var x :| x in rank;
      var rest := Largest(rank - {x});
      assert forall y :: y in rank ==> y == x || y in rank - {x};
      if rank[x] > rest then rank[x] else rest
  }
}
