/** The plan the compiler emits and the controller runs: internal/plan/schema.go. */
module Plan {
  import opened Digraph
  import opened Wrappers

  /** `failure_policy`; an absent policy behaves as halt. */
  datatype Policy = Unset | Halt | Continue | Rollback

  datatype When = When(node: Id, changed: bool)

  datatype Node = Node(id: Id, targets: seq<Id>, dependsOn: seq<Id>, cond: Option<When>, policy: Policy)

  ghost predicate DistinctIds(ns: seq<Node>) {
    forall i, j :: 0 <= i < j < |ns| ==> ns[i].id != ns[j].id
  }

  ghost predicate HasId(ns: seq<Node>, id: Id) {
    exists j :: 0 <= j < |ns| && ns[j].id == id
  }

  ghost predicate DepsKnown(ns: seq<Node>) {
    forall i, d :: 0 <= i < |ns| && d in ns[i].dependsOn ==> HasId(ns, d)
  }

  /** How many occurrences in `deps` lie outside `received`. */
  function Pending(deps: seq<Id>, received: set<Id>): (n: nat)
    ensures n <= |deps|
    ensures n == 0 <==> forall d :: d in deps ==> d in received
  {
    if deps == [] then 0
    else Pending(deps[1..], received) + if deps[0] in received then 0 else 1
  }

  lemma {:induction false} PendingNone(deps: seq<Id>)
    ensures Pending(deps, {}) == |deps|
  {
    if deps != [] { PendingNone(deps[1..]); }
  }

  /** Receiving u pays for all its occurrences at once, repeated edges included. */
  lemma {:induction false} PendingDrops(deps: seq<Id>, received: set<Id>, u: Id)
    requires u !in received
    ensures Pending(deps, received + {u}) + multiset(deps)[u] == Pending(deps, received)
  {
    if deps != [] {
      PendingDrops(deps[1..], received, u);
      assert deps == [deps[0]] + deps[1..];
    }
  }

  /** `inDegree[v]--`; a missing entry counts as zero. */
  function TakeOne(degree: map<Id, int>, v: Id): map<Id, int> {
    degree[v := (if v in degree then degree[v] else 0) - 1]
  }

  /** The release loop that both Kahn's check and the completion loop run: take one off the
      counter of every listed dependent and queue those that reach zero. */
  function Release(degree: map<Id, int>, queue: seq<Id>, out: seq<Id>): (map<Id, int>, seq<Id>)
    decreases |out|
  {
    if out == [] then (degree, queue)
    else
      var v := out[0];
      var next := TakeOne(degree, v);
      Release(next, if next[v] == 0 then queue + [v] else queue, out[1..])
  }

  lemma {:induction false} ReleaseCounters(degree: map<Id, int>, queue: seq<Id>, out: seq<Id>)
    requires forall v :: v in out ==> v in degree
    ensures Release(degree, queue, out).0.Keys == degree.Keys
    ensures forall v :: v in degree ==> Release(degree, queue, out).0[v] == degree[v] - multiset(out)[v]
    decreases |out|
  {
    if out != [] {
      var next := TakeOne(degree, out[0]);
      ReleaseCounters(next, if next[out[0]] == 0 then queue + [out[0]] else queue, out[1..]);
      assert multiset(out) == multiset{out[0]} + multiset(out[1..]) by { assert out == [out[0]] + out[1..]; }
    }
  }

  /** What the release loop appends: each node whose last occurrence it pays for. */
  ghost predicate Unlocks(degree: map<Id, int>, out: seq<Id>, added: seq<Id>) {
    && Distinct(added)
    && forall v {:trigger v in added} :: v in added <==> v in degree && 0 < degree[v] == multiset(out)[v]
  }

  /** Counters that never go below zero queue each node at most once. */
  lemma {:induction false} ReleaseQueue(degree: map<Id, int>, queue: seq<Id>, out: seq<Id>) returns (added: seq<Id>)
    requires forall v :: v in out ==> v in degree
    requires forall v :: v in degree ==> multiset(out)[v] <= degree[v]
    ensures Release(degree, queue, out).1 == queue + added
    ensures Unlocks(degree, out, added)
    decreases |out|
  {
    if out == [] {
      added := [];
    } else {
      var v, tail := out[0], out[1..];
      var next := TakeOne(degree, v);
      assert multiset(out) == multiset{v} + multiset(tail) by { assert out == [v] + tail; }
      var more := ReleaseQueue(next, if next[v] == 0 then queue + [v] else queue, tail);
      added := if next[v] == 0 then [v] + more else more;
      assert queue + added == (if next[v] == 0 then queue + [v] else queue) + more;
      UnlocksNext(degree, v, tail, more, added);
    }
  }

  lemma UnlocksNext(degree: map<Id, int>, v: Id, tail: seq<Id>, more: seq<Id>, added: seq<Id>)
    requires v in degree && Unlocks(TakeOne(degree, v), tail, more)
    requires added == if degree[v] == 1 then [v] + more else more
    requires multiset(tail)[v] + 1 <= degree[v]
    ensures Unlocks(degree, [v] + tail, added)
  {
    assert multiset([v] + tail) == multiset{v} + multiset(tail);
    assert forall x :: x in added <==> x in more || (x == v && degree[v] == 1);
    assert degree[v] == 1 ==> v !in more;
  }

  lemma {:induction false} DistinctSize(s: seq<Id>)
    requires Distinct(s)
    ensures |Elems(s)| == |s|
  {
    if s != [] {
      var front := s[..|s| - 1];
      DistinctSize(front);
      assert s == front + [s[|s| - 1]];
      assert Elems(s) == Elems(front) + {s[|s| - 1]};
    }
  }

  lemma DistinctConcat(a: seq<Id>, b: seq<Id>)
    requires Distinct(a) && Distinct(b) && Elems(a) !! Elems(b)
    ensures Distinct(a + b) && Elems(a + b) == Elems(a) + Elems(b)
  {
    forall i, j | 0 <= i < j < |a + b| ensures (a + b)[i] != (a + b)[j] {
      if i < |a| <= j {
        assert a[i] in Elems(a) && b[j - |a|] in Elems(b);
      }
    }
  }

  lemma SubsetSize<T>(a: set<T>, b: set<T>)
    requires a <= b
    ensures |a| <= |b| && (|a| == |b| ==> a == b)
  {
    assert b == a + (b - a);
  }
}
