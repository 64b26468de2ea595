/** What every interleaving keeps about the two channels, the counters and the goroutines. */
module SchedulerFlow {
  import opened Digraph
  import opened Plan
  import opened Wrappers
  import opened ExecutionGraph
  import opened Scheduler

  ghost function Received(ch: Channels): set<Id>
    requires ch.completed <= |ch.sent|
  {
    Elems(ch.sent[..ch.completed])
  }

  /** `spawned` are the nodes whose goroutine has not sent on doneChan yet. */
  ghost predicate Flow(c: Config, ch: Channels, spawned: set<Id>) {
    && ch.taken <= |ch.queued| && ch.completed <= |ch.sent|
    && Distinct(ch.queued) && Distinct(ch.sent)
    && spawned !! Elems(ch.sent) && spawned + Elems(ch.sent) == Elems(ch.queued[..ch.taken])
    && ch.inDegree.Keys == c.nodes.Keys
    && (forall v :: v in c.nodes ==> ch.inDegree[v] == Pending(c.nodes[v].dependsOn, Received(ch)))
    && (forall v :: v in ch.queued <==> v in c.nodes && ch.inDegree[v] == 0)
    && (ch.finished <==> 0 < ch.completed == |c.nodes|)
  }

  lemma InitFlow(c: Config, s: State)
    requires Good(c) && Init(c, s)
    ensures Flow(c, s.ch, s.workers.Keys)
  {
    assert s.ch.sent[..0] == [] && s.ch.queued[..0] == [];
    forall v | v in c.nodes ensures s.ch.inDegree[v] == Pending(c.nodes[v].dependsOn, Received(s.ch)) {
      PendingNone(c.nodes[v].dependsOn);
      assert Received(s.ch) == {};
    }
  }

  lemma DispatchFlow(c: Config, ch: Channels, spawned: set<Id>)
    requires Flow(c, ch, spawned) && ch.taken < |ch.queued|
    ensures var id := ch.queued[ch.taken];
            && id in c.nodes && id !in spawned && id !in ch.sent
            && Flow(c, ch.(taken := ch.taken + 1), spawned + {id})
  {
    TakeNext(ch.queued, ch.taken);
  }

  lemma TakeNext(queued: seq<Id>, taken: nat)
    requires Distinct(queued) && taken < |queued|
    ensures Elems(queued[..taken + 1]) == Elems(queued[..taken]) + {queued[taken]}
    ensures queued[taken] in queued && queued[taken] !in Elems(queued[..taken])
  {
    assert queued[..taken + 1] == queued[..taken] + [queued[taken]];
  }

  lemma SendFlow(c: Config, ch: Channels, spawned: set<Id>, id: Id)
    requires Flow(c, ch, spawned) && id in spawned
    ensures Flow(c, ch.(sent := ch.sent + [id]), spawned - {id})
  {
    assert (ch.sent + [id])[..ch.completed] == ch.sent[..ch.completed];
    assert Elems([id]) == {id};
    DistinctConcat(ch.sent, [id]);
  }

  lemma ReceiveFlow(c: Config, ch: Channels, spawned: set<Id>)
    requires Good(c) && Flow(c, ch, spawned) && ch.completed < |ch.sent| && !ch.finished
    ensures CanReceive(c, ch)
    ensures Flow(c, AfterReceive(c, ch), spawned)
    ensures Elems(ch.queued) <= Elems(AfterReceive(c, ch).queued)
  {
    ReceivePays(c, ch, spawned);
    QueueAfter(c.nodes.Keys, ch.inDegree, ch.queued, ch.taken, Succ(c.edges, ch.sent[ch.completed]));
    CompletedBounded(c, ch, spawned);
    Bounded(AfterReceive(c, ch).queued, c.nodes.Keys);
  }

  /** The queue after a release: what was there, and the nodes whose counter has come down to zero. */
  lemma QueueAfter(ids: set<Id>, degree: map<Id, int>, queued: seq<Id>, taken: nat, out: seq<Id>)
    requires degree.Keys == ids && Distinct(queued) && forall v :: v in queued <==> v in ids && degree[v] == 0
    requires taken <= |queued| && forall v :: v in out ==> v in degree
    requires forall v :: v in degree ==> multiset(out)[v] <= degree[v]
    ensures var next := Release(degree, queued, out);
            && next.0.Keys == ids && Distinct(next.1) && Elems(queued) <= Elems(next.1) <= ids
            && taken <= |next.1| && next.1[..taken] == queued[..taken]
            && (forall v :: v in next.1 <==> v in ids && next.0[v] == 0)
  {
    var added := ReleaseQueue(degree, queued, out);
    ReleaseCounters(degree, queued, out);
    forall v | v in queued ensures v !in added { assert degree[v] == 0; }
    DistinctConcat(queued, added);
    assert forall v :: v in out <==> multiset(out)[v] > 0;
  }

  lemma ReceivePays(c: Config, ch: Channels, spawned: set<Id>)
    requires Good(c) && Flow(c, ch, spawned) && ch.completed < |ch.sent|
    ensures var out, next := Succ(c.edges, ch.sent[ch.completed]), AfterReceive(c, ch);
            && (forall v :: v in out ==> v in ch.inDegree)
            && (forall v :: v in ch.inDegree ==> multiset(out)[v] <= ch.inDegree[v])
            && next.inDegree.Keys == c.nodes.Keys
            && (forall v :: v in c.nodes ==> next.inDegree[v] == ch.inDegree[v] - multiset(out)[v])
            && (forall v :: v in c.nodes ==> next.inDegree[v] == Pending(c.nodes[v].dependsOn, Received(next)))
  {
    var out, received := Succ(c.edges, ch.sent[ch.completed]), Elems(ch.sent[..ch.completed + 1]);
    PaidAfter(c, ch, spawned);
    PaidRelease(c.nodes, ch.inDegree, ch.queued, out, received);
    AfterReceiveIs(c, ch, out, received);
  }

  lemma AfterReceiveIs(c: Config, ch: Channels, out: seq<Id>, received: set<Id>)
    requires ch.completed < |ch.sent| && out == Succ(c.edges, ch.sent[ch.completed])
    requires received == Elems(ch.sent[..ch.completed + 1])
    ensures AfterReceive(c, ch).inDegree == Release(ch.inDegree, ch.queued, out).0
    ensures Received(AfterReceive(c, ch)) == received
  {
  }

  lemma PaidRelease(nodes: map<Id, Node>, degree: map<Id, int>, queue: seq<Id>, out: seq<Id>, received: set<Id>)
    requires degree.Keys == nodes.Keys && forall v :: v in out ==> v in degree
    requires forall v :: v in nodes ==> degree[v] == Pending(nodes[v].dependsOn, received) + multiset(out)[v]
    ensures var next := Release(degree, queue, out).0;
            && next.Keys == nodes.Keys
            && (forall v :: v in nodes ==>
                 next[v] == degree[v] - multiset(out)[v] && next[v] == Pending(nodes[v].dependsOn, received))
    ensures forall v :: v in degree ==> multiset(out)[v] <= degree[v]
  {
    ReleaseCounters(degree, queue, out);
  }

  /** Receiving the next node leaves each counter with what its node still waits for. */
  lemma PaidAfter(c: Config, ch: Channels, spawned: set<Id>)
    requires Good(c) && Flow(c, ch, spawned) && ch.completed < |ch.sent|
    ensures var out, received := Succ(c.edges, ch.sent[ch.completed]), Elems(ch.sent[..ch.completed + 1]);
            && (forall v :: v in out ==> v in ch.inDegree)
            && (forall v :: v in c.nodes ==>
                 ch.inDegree[v] == Pending(c.nodes[v].dependsOn, received) + multiset(out)[v])
  {
    var id := ch.sent[ch.completed];
    NextIsNew(ch);
    CountersAfter(c.nodes, c.edges, c.inDegree, ch.inDegree, ch.sent[..ch.completed], id);
  }

  lemma NextIsNew(ch: Channels)
    requires Distinct(ch.sent) && ch.completed < |ch.sent|
    ensures ch.sent[ch.completed] !in ch.sent[..ch.completed]
    ensures ch.sent[..ch.completed + 1] == ch.sent[..ch.completed] + [ch.sent[ch.completed]]
  {
  }

  lemma Bounded(s: seq<Id>, all: set<Id>)
    requires Distinct(s) && Elems(s) <= all
    ensures |s| <= |all| && (|s| == |all| <==> Elems(s) == all)
  {
    DistinctSize(s);
    SubsetSize(Elems(s), all);
  }

  /** Neither channel can overflow: at most one message per node is ever sent on either. */
  lemma CompletedBounded(c: Config, ch: Channels, spawned: set<Id>)
    requires Flow(c, ch, spawned)
    ensures |ch.queued| <= |c.nodes| && |ch.sent| + |spawned| <= |c.nodes|
    ensures Elems(ch.sent) <= c.nodes.Keys && spawned <= c.nodes.Keys
  {
    var taken := ch.queued[..ch.taken];
    assert Elems(ch.queued) <= c.nodes.Keys by {
      forall v | v in Elems(ch.queued) ensures v in c.nodes { assert v in ch.queued; }
    }
    assert Elems(taken) <= Elems(ch.queued);
    Bounded(ch.queued, c.nodes.Keys);
    DistinctSize(ch.sent);
    SubsetSize(spawned + Elems(ch.sent), c.nodes.Keys);
  }

  /** A queued node has had all its dependencies received, transitively. */
  lemma {:induction false} QueuedAfterWalk(c: Config, ch: Channels, spawned: set<Id>, w: seq<Id>)
    requires Flow(c, ch, spawned) && IsWalk(DepGraph(c.nodes), w) && |w| >= 2 && w[0] in ch.queued
    ensures w[|w| - 1] in Received(ch)
    decreases |w|
  {
    var d := w[1];
    assert ch.inDegree[w[0]] == 0;
    assert d in Received(ch);
    if |w| > 2 {
      assert d in Elems(ch.sent);
      assert d in Elems(ch.queued[..ch.taken]);
      QueuedAfterWalk(c, ch, spawned, w[1..]);
    }
  }

  lemma QueuedAfterDependencies(c: Config, ch: Channels, spawned: set<Id>, v: Id, d: Id)
    requires Flow(c, ch, spawned) && v in ch.queued && Reaches(DepGraph(c.nodes), v, d)
    ensures d in Received(ch)
  {
    var w :| IsWalkBetween(DepGraph(c.nodes), w, v, d);
    QueuedAfterWalk(c, ch, spawned, w);
  }

  /** While some node is not received, one is queued but not received: otherwise every
      unreceived node waits for an unreceived one, and that closes a cycle. */
  lemma SomethingQueued(c: Config, ch: Channels, spawned: set<Id>) returns (v: Id)
    requires Good(c) && Flow(c, ch, spawned) && ch.completed < |c.nodes|
    ensures v in ch.queued && v !in Received(ch)
  {
    var rest := c.nodes.Keys - Received(ch);
    SomeUnreceived(c, ch, spawned);
    v := PickLast(DepGraph(c.nodes), rest);
    forall d | d in c.nodes[v].dependsOn ensures d in Received(ch) {
      assert d in Succ(DepGraph(c.nodes), v) && d in c.nodes;
    }
    PaidIsQueued(c, ch, spawned, v);
  }

  lemma SomeUnreceived(c: Config, ch: Channels, spawned: set<Id>)
    requires Flow(c, ch, spawned) && ch.completed < |c.nodes|
    ensures c.nodes.Keys - Received(ch) != {}
  {
    CompletedBounded(c, ch, spawned);
    Bounded(ch.sent[..ch.completed], c.nodes.Keys);
    assert c.nodes.Keys == Received(ch) + (c.nodes.Keys - Received(ch));
  }

  lemma PaidIsQueued(c: Config, ch: Channels, spawned: set<Id>, v: Id)
    requires Flow(c, ch, spawned) && v in c.nodes && forall d :: d in c.nodes[v].dependsOn ==> d in Received(ch)
    ensures v in ch.queued
  {
    assert ch.inDegree[v] == Pending(c.nodes[v].dependsOn, Received(ch)) == 0;
  }
}
