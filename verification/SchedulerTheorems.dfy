/** The guarantees of Run over every interleaving and every answer of the targets. */
module SchedulerTheorems {
  import opened Digraph
  import opened Plan
  import opened Wrappers
  import opened ExecutionGraph
  import opened Scheduler
  import opened SchedulerFlow
  import opened SchedulerPhases
  import opened SchedulerCauses
  import opened SchedulerDecisions

  ghost predicate Inv(c: Config, s: State) {
    Flow(c, s.ch, s.workers.Keys) && Records(c, s) && Targets(c, s) && Causes(c, s)
  }

  lemma InitInv(c: Config, s: State)
    requires Good(c) && Init(c, s)
    ensures Inv(c, s)
  {
    InitFlow(c, s);
    InitTargets(c, s);
    InitCauses(c, s);
  }

  lemma InitTargets(c: Config, s: State)
    requires Init(c, s)
    ensures Records(c, s) && Targets(c, s)
  {
  }

  lemma InitCauses(c: Config, s: State)
    requires Init(c, s)
    ensures Causes(c, s)
  {
  }

  lemma StepInv(c: Config, s: State, l: Label)
    requires Good(c) && Inv(c, s) && Enabled(c, s, l)
    ensures Inv(c, Step(c, s, l))
  {
    StepFlow(c, s, l);
    StepRecords(c, s, l);
    StepTargets(c, s, l);
    StepCauses(c, s, l);
  }

  lemma StepFlow(c: Config, s: State, l: Label)
    requires Good(c) && Flow(c, s.ch, s.workers.Keys) && Enabled(c, s, l)
    ensures Flow(c, Step(c, s, l).ch, Step(c, s, l).workers.Keys)
  {
    if l.Dispatch? {
      DispatchFlow(c, s.ch, s.workers.Keys);
      DispatchKeys(c, s);
    } else if l.Send? {
      SendFlow(c, s.ch, s.workers.Keys, l.id);
      SendKeys(c, s, l.id);
    } else if l.Receive? {
      ReceiveFlow(c, s.ch, s.workers.Keys);
      ReceiveKeys(c, s);
    } else {
      LocalStep(c, s, l);
    }
  }

  lemma ReceiveKeys(c: Config, s: State)
    requires Enabled(c, s, Receive)
    ensures Step(c, s, Receive).ch == AfterReceive(c, s.ch) && Step(c, s, Receive).workers == s.workers
  {
  }

  lemma DispatchKeys(c: Config, s: State)
    requires Enabled(c, s, Dispatch)
    ensures var t := Step(c, s, Dispatch);
            t.ch == s.ch.(taken := s.ch.taken + 1) && t.workers.Keys == s.workers.Keys + {s.ch.queued[s.ch.taken]}
  {
  }

  lemma SendKeys(c: Config, s: State, id: Id)
    requires Enabled(c, s, Send(id))
    ensures var t := Step(c, s, Send(id));
            t.ch == s.ch.(sent := s.ch.sent + [id]) && t.workers.Keys == s.workers.Keys - {id}
  {
  }

  lemma LocalStep(c: Config, s: State, l: Label)
    requires Enabled(c, s, l) && !l.Dispatch? && !l.Send? && !l.Receive?
    ensures Step(c, s, l).ch == s.ch && Step(c, s, l).workers.Keys == s.workers.Keys
  {
  }

  /** Every step spends one of finitely many credits. */
  ghost function Spent(s: State): nat {
    s.ch.taken + |Decided(s)| + |Settled(s)| + |s.ch.sent| + s.ch.completed + |s.begun| + |s.over|
    + if s.cancelled then 1 else 0
  }

  ghost function Settled(s: State): set<Id> {
    set v | v in s.status && !s.status[v].NotYet?
  }

  ghost function Decided(s: State): set<Id> {
    set v | v in s.status && (!s.status[v].NotYet? || At(s, v, Skipping) || RunningAt(s, v))
  }

  ghost function AllTargets(c: Config): set<(Id, nat)> {
    set v, k: nat | v in c.nodes && k < |c.nodes[v].targets| :: (v, k)
  }

  ghost function Credits(c: Config): nat {
    5 * |c.nodes| + 2 * |AllTargets(c)| + 1
  }

  lemma SpentBounded(c: Config, s: State)
    requires Inv(c, s)
    ensures Spent(s) <= Credits(c)
  {
    CompletedBounded(c, s.ch, s.workers.Keys);
    SubsetSize(Settled(s), c.nodes.Keys);
    SubsetSize(Decided(s), c.nodes.Keys);
    forall p | p in s.begun ensures p in AllTargets(c) {
      assert (p.0, p.1) in s.begun;
      assert Begun(c, s, p.0, p.1);
    }
    SubsetSize(s.begun, AllTargets(c));
    SubsetSize(s.over, AllTargets(c));
  }

  lemma {:induction false} RunInv(c: Config, ls: seq<Label>, s: State)
    requires Good(c) && Run(c, ls, s)
    ensures Inv(c, s) && |ls| <= Spent(s)
    decreases |ls|
  {
    var s0 :| Init(c, s0) && After(c, s0, ls) == Some(s);
    if ls == [] {
      InitInv(c, s);
    } else {
      var front, m, l := LastStep(c, s0, ls, s);
      assert Run(c, front, m);
      RunInv(c, front, m);
      StepInv(c, m, l);
      StepSpends(c, m, l);
    }
  }

  lemma SameDecided(s: State, t: State)
    requires t.status == s.status
    requires forall v :: v in s.status && s.status[v].NotYet? ==>
      (At(t, v, Skipping) || RunningAt(t, v) <==> At(s, v, Skipping) || RunningAt(s, v))
    ensures Decided(t) == Decided(s) && Settled(t) == Settled(s)
  {
  }

  lemma GrowsBy<T>(a: set<T>, b: set<T>, x: T)
    requires b == a + {x} && x !in a
    ensures |b| == |a| + 1
  {
  }

  lemma DecideSpends(c: Config, s: State, id: Id)
    requires Records(c, s) && id in c.nodes && At(s, id, Start)
    ensures Spent(AfterDecide(c, s, id)) > Spent(s)
  {
    assert !Reported(s, id);
    DecideSets(c, s, id);
    SubsetSize(Settled(s), Settled(AfterDecide(c, s, id)));
    GrowsBy(Decided(s), Decided(AfterDecide(c, s, id)), id);
  }

  lemma DecideSets(c: Config, s: State, id: Id)
    requires s.status.Keys == c.nodes.Keys && id in c.nodes && At(s, id, Start) && StatusOf(s, id).NotYet?
    ensures id !in Decided(s) && Decided(AfterDecide(c, s, id)) == Decided(s) + {id}
    ensures Settled(s) <= Settled(AfterDecide(c, s, id))
  {
    var t := AfterDecide(c, s, id);
    forall v | v in c.nodes ensures v in Decided(t) <==> v in Decided(s) + {id} {
      if v != id { assert At(t, v, Skipping) || RunningAt(t, v) <==> At(s, v, Skipping) || RunningAt(s, v); }
    }
  }

  lemma RecordSpends(c: Config, s: State, t: State, id: Id)
    requires Records(c, s) && id in c.nodes && (At(s, id, Skipping) || RunningAt(s, id))
    requires t.workers == s.workers[id := Sending] && !StatusOf(t, id).NotYet?
        && t.status == s.status[id := StatusOf(t, id)]
    requires t.ch == s.ch && t.begun == s.begun && t.over == s.over && (s.cancelled ==> t.cancelled)
    ensures Spent(t) > Spent(s)
  {
    assert !Reported(s, id);
    assert Decided(t) == Decided(s);
    GrowsBy(Settled(s), Settled(t), id);
  }

  lemma StartTargetSpends(c: Config, s: State, id: Id)
    requires Targets(c, s) && Records(c, s) && CanStartTarget(c, s, id)
    ensures Spent(AfterStartTarget(c, s, id)) > Spent(s)
  {
    var t := AfterStartTarget(c, s, id);
    var p := (id, s.workers[id].next);
    StartTargetTargets(c, s, id);
    GrowsBy(s.begun, t.begun, p);
    assert p !in s.over;
    if t.over != s.over { GrowsBy(s.over, t.over, p); }
    SameDecided(s, t);
  }

  /** Channel operations, target completions and the timeout touch no record. */
  lemma CounterSpends(c: Config, s: State, t: State)
    requires Records(c, s) && t.status == s.status
    requires forall v :: v in s.status && s.status[v].NotYet? ==>
      (At(t, v, Skipping) || RunningAt(t, v) <==> At(s, v, Skipping) || RunningAt(s, v))
    requires t.begun == s.begun && s.over <= t.over && (s.cancelled ==> t.cancelled)
    requires s.ch.taken <= t.ch.taken && |s.ch.sent| <= |t.ch.sent| && s.ch.completed <= t.ch.completed
    requires s.ch.taken < t.ch.taken || |s.ch.sent| < |t.ch.sent| || s.ch.completed < t.ch.completed
             || s.over != t.over || (t.cancelled && !s.cancelled)
    ensures Spent(t) > Spent(s)
  {
    SameDecided(s, t);
    SubsetSize(s.over, t.over);
  }

  lemma ChannelSpends(c: Config, s: State, l: Label)
    requires Records(c, s) && Enabled(c, s, l) && (l.Dispatch? ==> NewWorker(c, s))
    requires l.Dispatch? || l.Receive? || l.Timeout? || l.Send?
    ensures Spent(Step(c, s, l)) > Spent(s)
  {
    match l
    case Dispatch => DispatchSpends(c, s);
    case Send(id) => SendSpends(c, s, id);
    case Receive => ReceiveSpends(c, s);
    case Timeout => CounterSpends(c, s, Step(c, s, Timeout));
  }

  lemma DispatchSpends(c: Config, s: State)
    requires Records(c, s) && Enabled(c, s, Dispatch) && NewWorker(c, s)
    ensures Spent(Step(c, s, Dispatch)) > Spent(s)
  {
    CounterSpends(c, s, Step(c, s, Dispatch));
  }

  lemma ReceiveSpends(c: Config, s: State)
    requires Records(c, s) && Enabled(c, s, Receive)
    ensures Spent(Step(c, s, Receive)) > Spent(s)
  {
    CounterSpends(c, s, Step(c, s, Receive));
  }

  lemma SendSpends(c: Config, s: State, id: Id)
    requires Records(c, s) && Enabled(c, s, Send(id))
    ensures Spent(Step(c, s, Send(id))) > Spent(s)
  {
    CounterSpends(c, s, Step(c, s, Send(id)));
  }

  lemma EndTargetSpends(c: Config, s: State, l: Label)
    requires Records(c, s) && l.EndTarget? && Enabled(c, s, l)
    ensures Spent(Step(c, s, l)) > Spent(s)
  {
    var t := Step(c, s, l);
    assert (l.id, l.k) in t.over && (l.id, l.k) !in s.over;
    CounterSpends(c, s, t);
  }

  lemma StepSpends(c: Config, s: State, l: Label)
    requires Inv(c, s) && Enabled(c, s, l)
    ensures Spent(Step(c, s, l)) > Spent(s)
  {
    if l.Dispatch? || l.Receive? || l.Timeout? || l.Send? {
      if l.Dispatch? { DispatchFlow(c, s.ch, s.workers.Keys); }
      ChannelSpends(c, s, l);
    } else {
      WorkSpends(c, s, l);
    }
  }

  lemma WorkSpends(c: Config, s: State, l: Label)
    requires Records(c, s) && Targets(c, s) && Enabled(c, s, l) && !l.Dispatch? && !l.Receive? && !l.Timeout?
      && !l.Send?
    ensures Spent(Step(c, s, l)) > Spent(s)
  {
    match l
    case Decide(id) => DecideSpends(c, s, id);
    case RecordSkip(id) => RecordSpends(c, s, Step(c, s, l), id);
    case StartTarget(id) => StartTargetSpends(c, s, id);
    case EndTarget(id, k, res) => EndTargetSpends(c, s, l);
    case Finish(id) => FinishSpends(c, s, id);
  }

  /** One step: the invariant stays, and credit is used up that can run out. */
  lemma StepCounts(c: Config, s: State, l: Label)
    requires Good(c) && Inv(c, s) && Enabled(c, s, l)
    ensures Inv(c, Step(c, s, l)) && Spent(s) < Spent(Step(c, s, l)) <= Credits(c)
  {
    StepInv(c, s, l);
    StepSpends(c, s, l);
    SpentBounded(c, Step(c, s, l));
  }

  lemma FinishSpends(c: Config, s: State, id: Id)
    requires Records(c, s) && CanFinish(c, s, id)
    ensures Spent(AfterFinish(c, s, id)) > Spent(s)
  {
    RecordSpends(c, s, AfterFinish(c, s, id), id);
  }

  // ---- The guarantees ----

  /** Each node is queued once, after everything it depends on has been received; and no send
      on either channel ever finds it full. */
  lemma EveryRunIsSafe(c: Config, ls: seq<Label>, s: State)
    requires Good(c) && Run(c, ls, s)
    ensures Distinct(s.ch.queued) && Distinct(s.ch.sent) && s.ch.completed <= |s.ch.sent|
    ensures forall v, d :: v in s.ch.queued && Reaches(DepGraph(c.nodes), v, d) ==> d in Received(s.ch)
    ensures forall v :: At(s, v, Sending) ==> Enabled(c, s, Send(v))
    ensures s.ch.completed < |s.ch.sent| && !s.ch.finished ==> Enabled(c, s, Receive)
    ensures |Active(s)| <= c.parallelism
  {
    RunInv(c, ls, s);
    forall v, d | v in s.ch.queued && Reaches(DepGraph(c.nodes), v, d) ensures d in Received(s.ch) {
      QueuedAfterDependencies(c, s.ch, s.workers.Keys, v, d);
    }
    forall v | At(s, v, Sending) ensures Enabled(c, s, Send(v)) {
      HasRoom(c, s.ch, s.workers.Keys, v);
    }
    if s.ch.completed < |s.ch.sent| && !s.ch.finished {
      ReceiveFlow(c, s.ch, s.workers.Keys);
    }
  }

  lemma HasRoom(c: Config, ch: Channels, spawned: set<Id>, v: Id)
    requires Flow(c, ch, spawned) && v in spawned
    ensures |ch.sent| < |c.nodes|
  {
    CompletedBounded(c, ch, spawned);
    SubsetSize({v}, spawned);
  }

  /** No run is longer than the plan's credits, whatever the scheduler does. */
  lemma EveryRunEnds(c: Config, ls: seq<Label>, s: State)
    requires Good(c) && Run(c, ls, s)
    ensures |ls| <= Credits(c)
  {
    RunInv(c, ls, s);
    SpentBounded(c, s);
  }

  lemma WorkerCanMove(c: Config, s: State, id: Id) returns (l: Label)
    requires Good(c) && Inv(c, s) && id in s.workers
    ensures Enabled(c, s, l) && !l.Timeout? && (l.Decide? ==> l.id == id)
  {
    match s.workers[id]
    case Start => l := Decide(id);
    case Skipping => l := RecordSkip(id);
    case Sending => HasRoom(c, s.ch, s.workers.Keys, id); l := Send(id);
    case Running(next, failed, changed) => l := RunningCanMove(c, s, id);
  }

  /** A running node waits only for a semaphore slot or for its own targets, and both are held
      by target goroutines that can finish. */
  lemma RunningCanMove(c: Config, s: State, id: Id) returns (l: Label)
    requires Good(c) && Targets(c, s) && id in c.nodes && RunningAt(s, id)
    ensures Enabled(c, s, l) && !l.Timeout? && !l.Decide?
  {
    if Active(s) != {} {
      var p :| p in Active(s);
      assert (p.0, p.1) in Active(s);
      l := EndTarget(p.0, p.1, TargetResult.Ran(false, false));
    } else if s.workers[id].next < |c.nodes[id].targets| {
      l := StartTarget(id);
    } else {
      l := Finish(id);
    }
  }

  lemma SomethingCanMove(c: Config, s: State) returns (l: Label)
    requires Good(c) && Inv(c, s) && |c.nodes| > 0 && !s.ch.finished
    ensures Enabled(c, s, l) && !l.Timeout?
  {
    if s.workers.Keys != {} {
      var id :| id in s.workers.Keys;
      l := WorkerCanMove(c, s, id);
    } else if s.ch.taken < |s.ch.queued| {
      l := Dispatch;
    } else {
      l := Receive;
      IdleCanReceive(c, s.ch);
      ReceiveFlow(c, s.ch, s.workers.Keys);
    }
  }

  lemma IdleCanReceive(c: Config, ch: Channels)
    requires Good(c) && Flow(c, ch, {}) && |c.nodes| > 0 && !ch.finished && ch.taken == |ch.queued|
    ensures ch.completed < |ch.sent|
  {
    CompletedBounded(c, ch, {});
    assert ch.queued[..ch.taken] == ch.queued;
    assert Elems(ch.queued) == Elems(ch.sent);
    if ch.completed == |ch.sent| {
      assert ch.sent[..ch.completed] == ch.sent;
      var v := SomethingQueued(c, ch, {});
    }
  }

  ghost predicate Quiet(c: Config, s: State) {
    forall l :: Enabled(c, s, l) ==> l.Timeout?
  }

  /** Run returns on every interleaving exactly when the plan has a node. */
  lemma RunReturnsIffNonempty(c: Config)
    requires Good(c)
    ensures (forall ls, s :: Run(c, ls, s) && Quiet(c, s) ==> s.ch.finished) <==> |c.nodes| > 0
  {
    if |c.nodes| > 0 {
      forall ls, s | Run(c, ls, s) && Quiet(c, s) ensures s.ch.finished {
        RunInv(c, ls, s);
        if !s.ch.finished {
          var l := SomethingCanMove(c, s);
        }
      }
    } else {
      assert c.nodes.Keys == {};
      var s := State(Channels(c.inDegree, [], 0, [], 0, false), map[], map[], map[], [], false, false, {}, {});
      assert Init(c, s) && After(c, s, []) == Some(s);
      assert Run(c, [], s) && Quiet(c, s) && !s.ch.finished;
    }
  }

  /** What a finished run leaves behind. */
  ghost predicate Contained(c: Config, s: State) {
    && Elems(s.ch.sent) == c.nodes.Keys && |s.ch.sent| == s.ch.completed == |c.nodes| && s.workers == map[]
    && (forall v :: v in c.nodes ==> !StatusOf(s, v).NotYet?)
    && (forall v, d :: v in c.nodes && Reaches(DepGraph(c.nodes), v, d) && Bad(s, d) ==> StatusOf(s, v).Skipped?)
    && (forall v :: v in c.nodes && StatusOf(s, v).Skipped? ==> Cause(c, s, v))
    && HaltsOnFailure(c, s)
    && (s.errs != [] <==> exists x :: StatusOf(s, x).Failed?)
  }

  lemma {:induction false} RanOverApplied(c: Config, s: State, w: seq<Id>)
    requires Causes(c, s) && IsWalk(DepGraph(c.nodes), w) && |w| >= 2 && Admitted(s, w[0])
    ensures StatusOf(s, w[|w| - 1]).Applied?
    decreases |w|
  {
    assert StatusOf(s, w[1]).Applied?;
    if |w| > 2 {
      RanOverApplied(c, s, w[1..]);
    }
  }

  lemma FinishedIsContained(c: Config, s: State)
    requires Good(c) && Inv(c, s) && s.ch.finished
    ensures Contained(c, s)
  {
    AllReceived(c, s.ch, s.workers.Keys);
    AllSettled(c, s);
    forall v, d | v in c.nodes && Reaches(DepGraph(c.nodes), v, d) && Bad(s, d) ensures StatusOf(s, v).Skipped? {
      BadDependencySkips(c, s, v, d);
    }
    assert s.errs != [] ==> s.errs[0] in s.errs;
  }

  lemma AllSettled(c: Config, s: State)
    requires Records(c, s) && s.workers.Keys == {} && Elems(s.ch.sent) == c.nodes.Keys
    ensures forall v :: v in c.nodes ==> !StatusOf(s, v).NotYet?
    ensures s.workers == map[]
  {
    forall v | v in c.nodes ensures !StatusOf(s, v).NotYet? {
      assert v in Elems(s.ch.sent);
      assert Reported(s, v);
    }
  }

  lemma BadDependencySkips(c: Config, s: State, v: Id, d: Id)
    requires Causes(c, s) && Reaches(DepGraph(c.nodes), v, d) && Bad(s, d) && !StatusOf(s, v).NotYet?
    ensures StatusOf(s, v).Skipped?
  {
    if HasRun(s, v) {
      var w :| IsWalkBetween(DepGraph(c.nodes), w, v, d);
      RanOverApplied(c, s, w);
    }
  }

  lemma AllReceived(c: Config, ch: Channels, spawned: set<Id>)
    requires Flow(c, ch, spawned) && ch.finished
    ensures spawned == {} && Elems(ch.sent) == c.nodes.Keys && |ch.sent| == ch.completed == |c.nodes|
  {
    CompletedBounded(c, ch, spawned);
    Bounded(ch.sent, c.nodes.Keys);
  }

  lemma {:induction false} RunJudged(c: Config, s0: State, ls: seq<Label>, s: State)
    requires Good(c) && Init(c, s0) && After(c, s0, ls) == Some(s)
    ensures EachJudgedOnce(c, s0, ls, s)
    decreases |ls|
  {
    if ls != [] {
      var front, m, l := LastStep(c, s0, ls, s);
      RunJudged(c, s0, front, m);
      assert Run(c, front, m);
      RunInv(c, front, m);
      OneMoreJudged(c, s0, front, m, l);
    }
  }

  lemma OneMoreJudged(c: Config, s0: State, ls: seq<Label>, s: State, l: Label)
    requires Inv(c, s) && Enabled(c, s, l) && After(c, s0, ls) == Some(s) && EachJudgedOnce(c, s0, ls, s)
    ensures EachJudgedOnce(c, s0, ls + [l], Step(c, s, l))
  {
    if l.Dispatch? { DispatchFlow(c, s.ch, s.workers.Keys); }
    StepJudged(c, s0, ls, s, l);
  }

  lemma FinishedWasJudged(c: Config, s0: State, ls: seq<Label>, s: State)
    requires Good(c) && Init(c, s0) && After(c, s0, ls) == Some(s) && s.ch.finished
    ensures SkipsAreDecided(c, s0, ls, s)
  {
    assert Run(c, ls, s);
    RunInv(c, ls, s);
    FinishedIsContained(c, s);
    RunJudged(c, s0, ls, s);
    SettledWasJudged(c, s0, ls, s);
  }

  /** Failure containment: for every interleaving, every policy mix and every answer. A node is
      skipped if and only if, when it was judged, the run had halted, a dependency had failed or been
      skipped, or its `when` was not met. */
  lemma FailuresAreContained(c: Config, ls: seq<Label>, s: State)
    requires Good(c) && Run(c, ls, s) && s.ch.finished
    ensures Contained(c, s)
    ensures exists s0 :: Init(c, s0) && After(c, s0, ls) == Some(s) && SkipsAreDecided(c, s0, ls, s)
  {
    RunInv(c, ls, s);
    FinishedIsContained(c, s);
    var s0 :| Init(c, s0) && After(c, s0, ls) == Some(s);
    FinishedWasJudged(c, s0, ls, s);
  }
}
