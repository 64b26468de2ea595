/** internal/devlang/validate.go: the depth-first search shared by detectStepCycles and
    findPrimitiveCycles. */
module CycleFinder {
  import opened Digraph
  import opened Wrappers

  /** A closed walk that visits no name twice before it closes. */
  ghost predicate IsSimpleCycle(g: Graph, c: seq<Id>) {
    IsCycle(g, c) && Distinct(c[..|c| - 1])
  }

  ghost predicate AllSimpleCycles(g: Graph, cs: seq<seq<Id>>) {
    forall i :: 0 <= i < |cs| ==> IsSimpleCycle(g, cs[i])
  }

  /** Every name on a cycle has an out-edge, so every reported name is declared. */
  lemma {:induction false} CycleNamesHaveEdges(g: Graph, c: seq<Id>, k: nat)
    requires IsCycle(g, c) && k < |c|
    ensures c[k] in g && g[c[k]] != []
  {
    var at := if k == |c| - 1 then 0 else k;
    WalkDrop(g, c, at);
    assert c[at..][1] in Succ(g, c[at..][0]);
  }

  /** All names a search may meet. */
  ghost predicate Covers(universe: set<Id>, g: Graph) {
    forall u, v :: v in Succ(g, u) ==> v in universe
  }

  lemma StackGrows(path: seq<Id>, node: Id)
    requires Distinct(path) && node !in Elems(path)
    ensures Elems(path + [node]) == Elems(path) + {node} && Distinct(path + [node])
  {
    forall i, j | 0 <= i < j < |path + [node]| ensures (path + [node])[i] != (path + [node])[j] {
      if j == |path| { assert path[i] in Elems(path); }
    }
  }

  lemma ReportedCycle(g: Graph, here: seq<Id>, v: Id, start: nat)
    requires IsWalk(g, here) && Distinct(here) && v in Succ(g, here[|here| - 1]) && start < |here| && here[start] == v
    ensures IsSimpleCycle(g, here[start..] + [v])
  {
    WalkAppend(g, here, v);
    WalkDrop(g, here + [v], start);
    assert (here + [v])[start..] == here[start..] + [v];
  }

  ghost predicate FirstIn(w: seq<Id>, n: int, s: set<Id>) {
    0 <= n <= |w| && forall j :: 0 <= j < n ==> w[j] in s
  }

  lemma AllFirst(w: seq<Id>, s: set<Id>)
    ensures FirstIn(w, |w|, s) ==> forall x :: x in w ==> x in s
  {
  }

  lemma CountOneMore(finished: map<Id, nat>, node: Id)
    requires node !in finished
    ensures |finished[node := |finished|]| == |finished| + 1
  {
    assert finished[node := |finished|].Keys == finished.Keys + {node};
  }

  /** Finishing a node all of whose successors are finished. */
  lemma FinishLast(g: Graph, finished: map<Id, nat>, node: Id, n: nat)
    requires node !in finished && forall u :: u in finished ==> finished[u] < n
    requires Finder.Ordered(g, finished) && forall v :: v in Succ(g, node) ==> v in finished
    ensures Finder.Ordered(g, finished[node := n])
  {
  }

  lemma FirstInGrows(w: seq<Id>, n: int, s: set<Id>, t: set<Id>)
    requires FirstIn(w, n, s) && s <= t && n < |w| && w[n] in t
    ensures FirstIn(w, n + 1, t)
  {
  }

  class Finder {
    const g: Graph
    ghost const universe: set<Id>
    var visited: set<Id>
    var onStack: set<Id>
    var cycles: seq<seq<Id>>
    /** Names whose search is over, in the order it ended. */
    ghost var finished: map<Id, nat>

    constructor (g: Graph, ghost universe: set<Id>)
      requires Covers(universe, g)
      ensures this.g == g && this.universe == universe && Valid()
      ensures visited == {} && onStack == {} && cycles == []
    {
      this.g, this.universe := g, universe;
      visited, onStack, cycles, finished := {}, {}, [], map[];
    }

    ghost predicate Valid()
      reads this
    {
      && Covers(universe, g) && visited <= universe && onStack <= visited
      && finished.Keys == visited - onStack
      && (forall u :: u in finished ==> finished[u] < |finished|)
      && AllSimpleCycles(g, cycles)
      && (cycles == [] ==> Ordered(g, finished))
    }

    /** Edges out of a finished name lead to names finished before it. */
    static ghost predicate Ordered(g: Graph, finished: map<Id, nat>) {
      forall u, v :: u in finished && v in Succ(g, u) ==> v in finished && finished[v] < finished[u]
    }

    /** What a search leaves behind: the stack as it was, cycles only added. */
    twostate predicate Progress()
      reads this
    {
      Valid() && onStack == old(onStack) && old(visited) <= visited && old(cycles) <= cycles
    }

    method Dfs(node: Id, path: seq<Id>)
      requires Valid() && node in universe && node !in visited
      requires IsWalk(g, path + [node]) && Distinct(path) && onStack == Elems(path)
      modifies this
      ensures Progress() && node in finished && node in visited
      decreases universe - visited, 1
    {
      var here := path + [node];
      StackGrows(path, node);
      Enter(node);
      FollowAll(if node in g then g[node] else [], here);
      Leave(node);
    }

    /** The loop over the neighbours. */
    method FollowAll(next: seq<Id>, here: seq<Id>)
      requires Valid() && IsWalk(g, here) && Distinct(here) && onStack == Elems(here)
          && next == Succ(g, here[|here| - 1])
      modifies this
      ensures Progress() && (cycles == [] ==> FirstIn(next, |next|, finished.Keys))
      decreases universe - visited, 3
    {
      for i := 0 to |next|
        invariant Progress() && onStack == Elems(here)
        invariant cycles == [] ==> FirstIn(next, i, finished.Keys)
      {
        ghost var before := finished.Keys;
        Follow(next[i], here);
        if cycles == [] { FirstInGrows(next, i, before, finished.Keys); }
      }
    }

    method Follow(v: Id, here: seq<Id>)
      requires Valid() && IsWalk(g, here) && Distinct(here) && onStack == Elems(here) && v in Succ(g, here[|here| - 1])
      modifies this
      ensures Progress() && (cycles == [] ==> v in finished)
      decreases universe - visited, 2
    {
      if v !in visited {
        WalkAppend(g, here, v);
        Dfs(v, here);
      } else if v in onStack {
        Report(here, v);
      }
    }

    method Enter(node: Id)
      requires Valid() && node in universe && node !in visited
      modifies this`visited, this`onStack
      ensures Valid() && visited == old(visited) + {node} && onStack == old(onStack) + {node}
    {
      visited, onStack := visited + {node}, onStack + {node};
      assert visited - onStack == old(visited) - old(onStack);
    }

    /** A neighbour on the stack: the path from its first occurrence on, closed. */
    method Report(here: seq<Id>, v: Id)
      requires Valid() && IsWalk(g, here) && Distinct(here) && v in Elems(here) && v in Succ(g, here[|here| - 1])
      modifies this`cycles
      ensures Valid() && old(cycles) < cycles
    {
      var start := 0;
      while here[start] != v
        invariant 0 <= start < |here| && v !in here[..start]
        decreases |here| - start
      {
        start := start + 1;
      }
      ReportedCycle(g, here, v, start);
      cycles := cycles + [here[start..] + [v]];
    }

    method Leave(node: Id)
      requires Valid() && node in onStack
      requires cycles == [] ==> FirstIn(Succ(g, node), |Succ(g, node)|, finished.Keys)
      modifies this`onStack, this`finished
      ensures Valid() && onStack == old(onStack) - {node} && node in finished
    {
      AllFirst(Succ(g, node), finished.Keys);
      CountOneMore(finished, node);
      if cycles == [] { FinishLast(g, finished, node, |finished|); }
      finished := finished[node := |finished|];
      onStack := onStack - {node};
      assert visited - onStack == (visited - old(onStack)) + {node};
    }
  }

  /** The search is exact: it returns no cycle if and only if there is none, and whatever it
      returns are real cycles of the graph. */
  method FindCycles(g: Graph, starts: seq<Id>) returns (cycles: seq<seq<Id>>)
    requires g.Keys <= Elems(starts)
    ensures cycles == [] <==> Acyclic(g)
    ensures AllSimpleCycles(g, cycles)
  {
    ghost var universe := Nodes(g) + Elems(starts);
    assert Covers(universe, g);
    var finder := new Finder(g, universe);
    for i := 0 to |starts|
      invariant finder.Valid() && finder.onStack == {} && fresh(finder)
      invariant finder.g == g && finder.universe == universe
      invariant FirstIn(starts, i, finder.visited)
    {
      assert starts[i] in Elems(starts);
      ghost var before := finder.visited;
      if starts[i] !in finder.visited {
        finder.Dfs(starts[i], []);
      }
      FirstInGrows(starts, i, before, finder.visited);
    }
    cycles := finder.cycles;
    if cycles == [] {
      SearchedIsAcyclic(g, finder.finished);
    } else {
      assert IsSimpleCycle(g, cycles[0]);
    }
  }

  lemma SearchedIsAcyclic(g: Graph, finished: map<Id, nat>)
    requires g.Keys <= finished.Keys && Finder.Ordered(g, finished)
    ensures Acyclic(g)
  {
    assert IsRanking(g, finished);
    RankedIsAcyclic(g, finished);
  }
}
