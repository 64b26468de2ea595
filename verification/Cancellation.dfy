/** What cancellation takes away: a target that meets the cancelled context answers nothing, and a
    node without an error is recorded applied. Which plans this can happen to. */
module Cancellation {
  import opened Digraph
  import opened Wrappers
  import opened ExecutionGraph
  import opened Scheduler
  import opened SchedulerFlow
  import opened SchedulerPhases
  import opened SchedulerCauses
  import opened SchedulerDecisions
  import opened SchedulerTheorems
  import opened SchedulerAnswers
  import opened PartialRuns

  /** A node recorded applied or failed has an answer from each of its known targets. */
  ghost predicate AllAnswered(c: Config, ls: seq<Label>, s: State) {
    forall v, k: nat :: HasRun(s, v) && KnownTarget(c, v, k) ==> RanIn(ls, v, k)
  }

  ghost predicate HasTarget(c: Config, v: Id) {
    exists k: nat :: KnownTarget(c, v, k)
  }

  /** h may fail and halt the run, and both nodes have something to do. */
  ghost predicate MayCut(c: Config, h: Id, v: Id) {
    h in c.nodes && h != v && !c.nodes[h].policy.Continue? && HasTarget(c, h) && HasTarget(c, v)
  }

  /** Nothing can cancel a node at work: there is no timeout, and a node that may halt the run stands
      before or behind every other. */
  ghost predicate Uncut(c: Config) {
    !c.timeout && forall h, v :: MayCut(c, h, v) ==> Ordered(c, h, v)
  }

  ghost predicate Ordered(c: Config, h: Id, v: Id) {
    Reaches(DepGraph(c.nodes), h, v) || Reaches(DepGraph(c.nodes), v, h)
  }

  // ---- Where nothing can be cut ----

  /** Every target that has ended has answered. */
  ghost predicate AllRan(ls: seq<Label>) {
    forall l :: l in ls && l.EndTarget? ==> l.res.Ran?
  }

  lemma FailedHasTarget(c: Config, ls: seq<Label>, s: State, x: Id)
    requires Records(c, s) && Tallies(ls, s) && Accounted(c, ls, s) && StatusOf(s, x).Failed?
    ensures HasTarget(c, x)
  {
    RecordIsClosed(c, s, x);
    assert FailedSoFar(s, x);
    var l :| l in ls && ReportsFailure(l, x);
    assert KnownTarget(c, x, l.k);
  }

  lemma RunningIsNotOrdered(c: Config, s: State, x: Id, v: Id)
    requires Inv(c, s) && StatusOf(s, x).Failed? && RunningAt(s, v)
    ensures x != v && !Ordered(c, x, v)
  {
    RecordIsClosed(c, s, x);
    assert Reported(s, x) && !Reported(s, v);
    FlowBehind(c, s);
    if Reaches(DepGraph(c.nodes), v, x) {
      var w :| IsWalkBetween(DepGraph(c.nodes), w, v, x);
      assert Admitted(s, v);
      RanOverApplied(c, s, w);
    }
  }

  lemma NoneCut(c: Config, ls: seq<Label>, s: State, l: Label)
    requires Uncut(c) && Inv(c, s) && Tallies(ls, s) && Accounted(c, ls, s)
    requires Enabled(c, s, l) && l.EndTarget?
    ensures l.res.Ran?
  {
    assert KnownTarget(c, l.id, l.k) && HasTarget(c, l.id);
    if l.res.NotRun? {
      var x :| FailedHard(c, s, x);
      FailedHasTarget(c, ls, s, x);
      RunningIsNotOrdered(c, s, x, l.id);
    }
  }

  lemma {:induction false} UncutRun(c: Config, s0: State, ls: seq<Label>, s: State)
    requires Good(c) && Uncut(c) && Init(c, s0) && After(c, s0, ls) == Some(s)
    ensures AllRan(ls)
    decreases |ls|
  {
    if ls != [] {
      var front, m, l := LastStep(c, s0, ls, s);
      UncutRun(c, s0, front, m);
      assert Run(c, front, m);
      RunInv(c, front, m);
      RunTallies(c, s0, front, m);
      if l.EndTarget? { NoneCut(c, front, m, l); }
      AllRanMore(front, l);
    }
  }

  lemma AllRanMore(ls: seq<Label>, l: Label)
    requires AllRan(ls) && (l.EndTarget? ==> l.res.Ran?)
    ensures AllRan(ls + [l])
  {
  }

  /** Where nothing can be cut, every run of any plan has all the answers it records. */
  lemma UncutAnswersAll(c: Config, ls: seq<Label>, s: State)
    requires Good(c) && Uncut(c) && Run(c, ls, s)
    ensures AllAnswered(c, ls, s)
  {
    var s0 :| Init(c, s0) && After(c, s0, ls) == Some(s);
    UncutRun(c, s0, ls, s);
    RunTallies(c, s0, ls, s);
    RunInv(c, ls, s);
    forall v, k: nat | HasRun(s, v) && KnownTarget(c, v, k) ensures RanIn(ls, v, k) {
      AllEnded(c, ls, s, v, k);
      var l :| l in ls && Ends(l, v, k);
      assert l.res.Ran?;
    }
  }

  // ---- Playing out a cancelled run ----

  /** `all` goes on from ls without another answer. */
  ghost predicate Unanswered(ls: seq<Label>, all: seq<Label>) {
    forall l :: l in all && l.EndTarget? ==> l in ls || l.res.NotRun?
  }

  ghost predicate AdmittedStay(s: State, t: State) {
    forall v :: Admitted(s, v) ==> Admitted(t, v)
  }

  lemma StepAdmits(c: Config, s: State, l: Label)
    requires Records(c, s) && Causes(c, s) && Enabled(c, s, l) && (l.Dispatch? ==> NewWorker(c, s))
    ensures AdmittedStay(s, Step(c, s, l))
  {
    forall v | Admitted(s, v) ensures Admitted(Step(c, s, l), v) {
      if l == Decide(v) { OpenRecord(c, s, v); } else { StepSame(c, s, l, v); }
    }
  }

  lemma AnyStepAdmits(c: Config, s: State, l: Label)
    requires Inv(c, s) && Enabled(c, s, l)
    ensures AdmittedStay(s, Step(c, s, l))
  {
    if l.Dispatch? { DispatchFlow(c, s.ch, s.workers.Keys); }
    StepAdmits(c, s, l);
  }

  ghost predicate Unconditioned(c: Config) {
    forall v :: v in c.nodes ==> c.nodes[v].cond.None?
  }

  lemma IdleStep(c: Config, s: State) returns (l: Label)
    requires Good(c) && |c.nodes| > 0 && Inv(c, s) && s.cancelled && !s.ch.finished
    ensures Enabled(c, s, l) && (l.EndTarget? ==> l.res.NotRun?)
    ensures Inv(c, Step(c, s, l)) && Spent(s) < Spent(Step(c, s, l)) <= Credits(c)
    ensures Step(c, s, l).cancelled && AdmittedStay(s, Step(c, s, l))
    ensures Unconditioned(c) && Smooth(s) ==> Smooth(Step(c, s, l))
  {
    l := SomethingCanMove(c, s);
    if l.EndTarget? { l := EndTarget(l.id, l.k, NotRun); }
    StepCounts(c, s, l);
    AnyStepAdmits(c, s, l);
    StepOver(c, s, l);
    if Unconditioned(c) && Smooth(s) { StepSmooth(c, s, l); }
  }

  /** A cancelled run ends without another answer. */
  lemma {:induction false} PlayIdle(c: Config, s0: State, ls: seq<Label>, s: State) returns (all: seq<Label>, t: State)
    requires Good(c) && |c.nodes| > 0 && Inv(c, s) && After(c, s0, ls) == Some(s) && s.cancelled
    ensures After(c, s0, all) == Some(t) && t.ch.finished && Unanswered(ls, all) && AdmittedStay(s, t)
    ensures Unconditioned(c) && Smooth(s) ==> Smooth(t)
    decreases Credits(c) - Spent(s)
  {
    if s.ch.finished { return ls, s; }
    var l := IdleStep(c, s);
    var mid, m := ls + [l], Step(c, s, l);
    AfterOneMore(c, s0, ls, s, l);
    all, t := PlayIdle(c, s0, mid, m);
    StillUnanswered(ls, l, all);
    StillAdmitted(s, m, t);
  }

  lemma StillUnanswered(ls: seq<Label>, l: Label, all: seq<Label>)
    requires Unanswered(ls + [l], all) && (l.EndTarget? ==> l.res.NotRun?)
    ensures Unanswered(ls, all)
  {
  }

  lemma StillAdmitted(s: State, m: State, t: State)
    requires AdmittedStay(s, m) && AdmittedStay(m, t)
    ensures AdmittedStay(s, t)
  {
  }

  /** The timeout makes targets return at once without an answer, and a node without an error is
      recorded applied: every plan with a timeout and without `when` has a finished run in which
      every node is applied and no target has run. */
  lemma CancelledCountsAsApplied(c: Config) returns (ls: seq<Label>, s: State)
    requires Good(c) && |c.nodes| > 0 && c.timeout && Unconditioned(c)
    ensures Run(c, ls, s) && s.ch.finished
    ensures forall v :: v in c.nodes ==> StatusOf(s, v).Applied? && forall k: nat :: !RanIn(ls, v, k)
  {
    var s0 := InitExists(c);
    var s1 := CancelAtOnce(c, s0);
    ls, s := PlayIdle(c, s0, [Timeout], s1);
    NothingRan(ls);
    AllFine(c, s0, ls, s);
  }

  lemma NothingRan(ls: seq<Label>)
    requires Unanswered([Timeout], ls)
    ensures forall v, k: nat :: !RanIn(ls, v, k)
  {
  }

  lemma AllFine(c: Config, s0: State, ls: seq<Label>, s: State)
    requires Good(c) && Init(c, s0) && After(c, s0, ls) == Some(s) && s.ch.finished && Smooth(s)
    ensures Run(c, ls, s) && forall v :: v in c.nodes ==> StatusOf(s, v).Applied?
  {
    assert Run(c, ls, s);
    RunInv(c, ls, s);
    FinishedIsContained(c, s);
    forall v | v in c.nodes ensures StatusOf(s, v).Applied? { assert Fine(s, v); }
  }

  lemma CancelAtOnce(c: Config, s: State) returns (t: State)
    requires Good(c) && Init(c, s) && c.timeout
    ensures Inv(c, t) && t.cancelled && Smooth(t) && After(c, s, [Timeout]) == Some(t)
  {
    t := Step(c, s, Timeout);
    assert [] + [Timeout] == [Timeout];
    AfterOneMore(c, s, [], s, Timeout);
    InitInv(c, s);
    StepInv(c, s, Timeout);
    InitSmooth(c, s);
    StepSmooth(c, s, Timeout);
  }

  // ---- A failure beside a node at work ----

  lemma TakeStep(c: Config, ls: seq<Label>, s: State, l: Label) returns (all: seq<Label>, t: State)
    requires Run(c, ls, s) && Enabled(c, s, l)
    ensures t == Step(c, s, l) && all == ls + [l] && Run(c, all, t)
  {
    t, all := Step(c, s, l), ls + [l];
    var s0 :| Init(c, s0) && After(c, s0, ls) == Some(s);
    AfterOneMore(c, s0, ls, s, l);
  }

  ghost predicate OnlyFrom(ls: seq<Label>, all: seq<Label>, h: Id) {
    forall l :: l in all && l.EndTarget? ==> l in ls || l.id == h
  }

  lemma OnlyFromOnly(ls: seq<Label>, mid: seq<Label>, all: seq<Label>, h: Id)
    requires OnlyFrom(ls, mid, h) && OnlyFrom(mid, all, h)
    ensures OnlyFrom(ls, all, h)
  {
  }

  /** h's goroutine is w, and no target is at work. */
  ghost predicate Lone(c: Config, s: State, h: Id, w: Place) {
    h in c.nodes && w.Running? && At(s, h, w) && Active(s) == {}
  }

  lemma NotHandedOut(c: Config, ls: seq<Label>, s: State, h: Id, w: Place)
    requires Good(c) && Run(c, ls, s) && Lone(c, s, h, w)
    ensures (h, w.next) !in s.begun && s.over <= s.begun
  {
    RunInv(c, ls, s);
    NotYetBegun(c, s, h, w);
  }

  lemma NotYetBegun(c: Config, s: State, h: Id, w: Place)
    requires Records(c, s) && Causes(c, s) && Targets(c, s) && Lone(c, s, h, w)
    ensures (h, w.next) !in s.begun
  {
    OpenRecord(c, s, h);
    assert !Begun(c, s, h, w.next);
  }

  lemma HandOut(c: Config, s: State, h: Id, w: Place)
    requires Lone(c, s, h, w) && w.next < |c.nodes[h].targets| && c.parallelism > 0 && (h, w.next) !in s.begun
    requires s.over <= s.begun
    ensures Enabled(c, s, StartTarget(h))
    ensures Step(c, s, StartTarget(h)).workers == s.workers[h := w.(next := w.next + 1)]
    ensures Active(Step(c, s, StartTarget(h))) == if KnownTarget(c, h, w.next) then {(h, w.next)} else {}
  {
    forall p | p in s.begun ensures p in s.over { assert p !in Active(s); }
  }

  lemma StartNow(c: Config, ls: seq<Label>, s: State, h: Id, w: Place) returns (all: seq<Label>, t: State)
    requires Good(c) && Run(c, ls, s) && Lone(c, s, h, w) && w.next < |c.nodes[h].targets|
    ensures Run(c, all, t) && OnlyFrom(ls, all, h) && t.workers == s.workers[h := w.(next := w.next + 1)]
    ensures Active(t) == if KnownTarget(c, h, w.next) then {(h, w.next)} else {}
  {
    NotHandedOut(c, ls, s, h, w);
    HandOut(c, s, h, w);
    all, t := TakeStep(c, ls, s, StartTarget(h));
  }

  lemma FailsAtOnce(c: Config, s: State, h: Id, w: Place, k: nat)
    requires At(s, h, w) && w.Running? && Active(s) == {(h, k)}
    ensures var e := EndTarget(h, k, Ran(true, true));
            && Enabled(c, s, e) && Active(Step(c, s, e)) == {}
            && Step(c, s, e).workers == s.workers[h := w.(failed := true, changed := true)]
  {
    assert (h, k) in Active(s);
    assert forall p :: p in s.begun && p !in s.over ==> p in Active(s);
  }

  lemma FailNow(c: Config, ls: seq<Label>, s: State, h: Id, w: Place, k: nat) returns (all: seq<Label>, t: State)
    requires Run(c, ls, s) && At(s, h, w) && w.Running? && Active(s) == {(h, k)}
    ensures Run(c, all, t) && OnlyFrom(ls, all, h) && t.workers == s.workers[h := w.(failed := true, changed := true)]
    ensures Active(t) == {}
  {
    FailsAtOnce(c, s, h, w, k);
    all, t := TakeStep(c, ls, s, EndTarget(h, k, Ran(true, true)));
  }

  /** h hands out its next target, which fails if it is known; nothing else moves. */
  lemma OneTarget(c: Config, ls: seq<Label>, s: State, h: Id, w: Place) returns (all: seq<Label>, t: State, next: Place)
    requires Good(c) && Run(c, ls, s) && Lone(c, s, h, w) && w.next < |c.nodes[h].targets|
    ensures Run(c, all, t) && OnlyFrom(ls, all, h) && Lone(c, t, h, next) && t.workers == s.workers[h := next]
    ensures next.next == w.next + 1 && (next.failed <==> w.failed || KnownTarget(c, h, w.next))
  {
    all, t := StartNow(c, ls, s, h, w);
    next := w.(next := w.next + 1);
    if KnownTarget(c, h, w.next) {
      var started := next;
      all, t, next := ThenFails(c, ls, all, t, h, started, w.next);
      SameOthers(s.workers, h, started, next);
    }
  }

  lemma ThenFails(c: Config, ls0: seq<Label>, ls: seq<Label>, s: State, h: Id, w: Place, k: nat)
    returns (all: seq<Label>, t: State, next: Place)
    requires h in c.nodes && Run(c, ls, s) && At(s, h, w) && w.Running? && Active(s) == {(h, k)} && OnlyFrom(ls0, ls, h)
    ensures Run(c, all, t) && OnlyFrom(ls0, all, h) && Lone(c, t, h, next) && t.workers == s.workers[h := next]
    ensures next == w.(failed := true, changed := true)
  {
    all, t := FailNow(c, ls, s, h, w, k);
    next := w.(failed := true, changed := true);
    OnlyFromOnly(ls0, ls, all, h);
  }

  lemma StillToFail(c: Config, h: Id, w: Place, next: Place, k: nat)
    requires w.Running? && next.Running? && KnownTarget(c, h, k)
    requires next.next == w.next + 1 && (next.failed <==> w.failed || KnownTarget(c, h, w.next))
    ensures w.failed || w.next <= k ==> next.failed || next.next <= k
  {
  }

  lemma SameOthers(workers: map<Id, Place>, h: Id, a: Place, b: Place)
    ensures workers[h := a][h := b] == workers[h := b]
  {
  }

  /** h runs all its targets, nothing else moves, and every known one fails. */
  lemma {:induction false} RunTargets(c: Config, ls: seq<Label>, s: State, h: Id, w: Place, k: nat)
    returns (all: seq<Label>, t: State, last: Place)
    requires Good(c) && Run(c, ls, s) && Lone(c, s, h, w) && w.next <= |c.nodes[h].targets| && KnownTarget(c, h, k)
    ensures Run(c, all, t) && OnlyFrom(ls, all, h) && Lone(c, t, h, last) && t.workers == s.workers[h := last]
    ensures last.next == |c.nodes[h].targets| && (w.failed || w.next <= k ==> last.failed)
    decreases |c.nodes[h].targets| - w.next
  {
    if w.next == |c.nodes[h].targets| {
      all, t, last := ls, s, w;
      assert s.workers[h := w] == s.workers;
    } else {
      var mid, m, next := OneTarget(c, ls, s, h, w);
      StillToFail(c, h, w, next, k);
      all, t, last := RunTargets(c, mid, m, h, next, k);
      OnlyFromOnly(ls, mid, all, h);
      SameOthers(s.workers, h, next, last);
    }
  }

  lemma FinishCancels(c: Config, s: State, h: Id, w: Place, v: Id)
    requires Lone(c, s, h, w) && w.next == |c.nodes[h].targets| && w.failed && !c.nodes[h].policy.Continue?
    requires v != h && RunningAt(s, v)
    ensures Enabled(c, s, Finish(h)) && Step(c, s, Finish(h)).cancelled && RunningAt(Step(c, s, Finish(h)), v)
  {
  }

  /** h fails and halts the run while v is at work. */
  lemma FailAndHalt(c: Config, ls: seq<Label>, s: State, h: Id, v: Id) returns (all: seq<Label>, t: State)
    requires Good(c) && Run(c, ls, s) && MayCut(c, h, v) && Lone(c, s, h, Running(0, false, false)) && RunningAt(s, v)
    ensures Run(c, all, t) && OnlyFrom(ls, all, h) && t.cancelled && RunningAt(t, v)
  {
    var k: nat :| KnownTarget(c, h, k);
    var mid, m, w := RunTargets(c, ls, s, h, Running(0, false, false), k);
    FinishCancels(c, m, h, w, v);
    all, t := TakeStep(c, mid, m, Finish(h));
    OnlyFromOnly(ls, mid, all, h);
  }

  lemma EndIdle(c: Config, ls: seq<Label>, s: State, v: Id) returns (all: seq<Label>, t: State)
    requires Good(c) && v in c.nodes && Run(c, ls, s) && s.cancelled && RunningAt(s, v)
    ensures Run(c, all, t) && t.ch.finished && Unanswered(ls, all) && HasRun(t, v)
  {
    var s0 :| Init(c, s0) && After(c, s0, ls) == Some(s);
    RunInv(c, ls, s);
    all, t := PlayIdle(c, s0, ls, s);
    assert Admitted(s, v);
    assert Run(c, all, t);
    RunInv(c, all, t);
    FinishedIsContained(c, t);
  }

  /** What two nodes that do not stand behind one another depend on, both left out. */
  lemma PartBefore(c: Config, h: Id, v: Id) returns (part: set<Id>)
    requires Good(c) && h in c.nodes && v in c.nodes && !Ordered(c, h, v)
    ensures ClosedPart(c, part) && h !in part && v !in part
    ensures forall d :: d in c.nodes[h].dependsOn || d in c.nodes[v].dependsOn ==> d in part
  {
    BelowIsClosed(c, h);
    BelowIsClosed(c, v);
    part := Below(c, h) + Below(c, v);
    NotBelowItself(c, h);
    NotBelowItself(c, v);
  }

  lemma NotBelowItself(c: Config, v: Id)
    requires Good(c)
    ensures v !in Below(c, v)
  {
    if Reaches(DepGraph(c.nodes), v, v) {
      var w :| IsWalkBetween(DepGraph(c.nodes), w, v, v);
      assert IsCycle(DepGraph(c.nodes), w);
    }
  }

  lemma NothingActive(c: Config, s: State, part: set<Id>)
    requires Targets(c, s) && Untouched(s, part) && Exhausted(s, part)
    ensures Active(s) == {}
  {
    if p :| p in Active(s) {
      assert (p.0, p.1) in Active(s);
      assert p.0 in s.workers.Keys;
      assert Past(s, p.0);
    }
  }

  lemma NothingEnded(c: Config, ls: seq<Label>, s: State, v: Id)
    requires Records(c, s) && Causes(c, s) && Targets(c, s) && At(s, v, Start)
    requires forall l :: l in ls && l.EndTarget? ==> (l.id, l.k) in s.over
    ensures forall k: nat :: !EndedIn(ls, v, k)
  {
    OpenRecord(c, s, v);
    forall k: nat ensures !EndedIn(ls, v, k) {
      assert !Begun(c, s, v, k);
      assert (v, k) !in s.over;
    }
  }

  /** Both nodes wait to be judged, and nothing is at work. */
  ghost predicate BothWait(c: Config, s: State, h: Id, v: Id) {
    Smooth(s) && h in c.nodes && v in c.nodes && h != v && At(s, h, Start) && At(s, v, Start) && Active(s) == {}
  }

  lemma JudgeBoth(c: Config, ls: seq<Label>, s: State, h: Id, v: Id) returns (all: seq<Label>, t: State)
    requires Unconditioned(c) && BothWait(c, s, h, v) && Run(c, ls, s)
    ensures Run(c, all, t) && Lone(c, t, h, Running(0, false, false)) && RunningAt(t, v)
    ensures all == ls + [Decide(h), Decide(v)]
  {
    var mid, m := AdmitNow(c, ls, s, h);
    all, t := AdmitNow(c, mid, m, v);
    assert ls + [Decide(h)] + [Decide(v)] == ls + [Decide(h), Decide(v)];
  }

  lemma AdmitNow(c: Config, ls: seq<Label>, s: State, v: Id) returns (all: seq<Label>, t: State)
    requires Unconditioned(c) && Smooth(s) && v in c.nodes && At(s, v, Start) && Run(c, ls, s)
    ensures Run(c, all, t) && Smooth(t) && all == ls + [Decide(v)]
    ensures t.workers == s.workers[v := Running(0, false, false)] && Active(t) == Active(s)
  {
    JudgeStep(c, s, v);
    StepSmooth(c, s, Decide(v));
    all, t := TakeStep(c, ls, s, Decide(v));
    AdmitWorkers(c, s, v);
  }

  lemma AdmitWorkers(c: Config, s: State, v: Id)
    requires v in c.nodes && At(AfterDecide(c, s, v), v, Running(0, false, false))
    ensures AfterDecide(c, s, v).workers == s.workers[v := Running(0, false, false)]
    ensures Active(AfterDecide(c, s, v)) == Active(s)
  {
  }

  /** A run that brings both nodes to where they are judged. */
  lemma BothWaiting(c: Config, h: Id, v: Id) returns (ls: seq<Label>, s: State)
    requires Good(c) && Unconditioned(c) && h in c.nodes && v in c.nodes && h != v && !Ordered(c, h, v)
    ensures Run(c, ls, s) && BothWait(c, s, h, v) && forall k: nat :: !EndedIn(ls, v, k)
  {
    var part := PartBefore(c, h, v);
    var s0 := InitExists(c);
    StartPartial(c, s0, part);
    ls, s := Drive(c, s0, [], s0, part);
    NextIsWaiting(c, s, part, h);
    NextIsWaiting(c, s, part, v);
    RunTallies(c, s0, ls, s);
    NothingEnded(c, ls, s, v);
    NothingActive(c, s, part);
  }

  /** A node that may halt the run beside another at work: a plan without `when` that has them has a
      finished run in which the other is recorded although no target of it ever answered. */
  lemma CutRun(c: Config, h: Id, v: Id) returns (ls: seq<Label>, s: State)
    requires Good(c) && Unconditioned(c) && MayCut(c, h, v) && !Ordered(c, h, v)
    ensures Run(c, ls, s) && s.ch.finished && HasRun(s, v) && forall k: nat :: !RanIn(ls, v, k)
  {
    var k: nat :| KnownTarget(c, v, k);
    var ls0, m0 := BothWaiting(c, h, v);
    var ls1, m1 := JudgeBoth(c, ls0, m0, h, v);
    var ls2, m2 := FailAndHalt(c, ls1, m1, h, v);
    ls, s := EndIdle(c, ls2, m2, v);
    NeverAnswered(ls0, ls1, ls2, ls, h, v);
  }

  lemma NeverAnswered(ls0: seq<Label>, ls1: seq<Label>, ls2: seq<Label>, ls: seq<Label>, h: Id, v: Id)
    requires ls1 == ls0 + [Decide(h), Decide(v)] && OnlyFrom(ls1, ls2, h) && Unanswered(ls2, ls) && h != v
    requires forall k: nat :: !EndedIn(ls0, v, k)
    ensures forall k: nat :: !RanIn(ls, v, k)
  {
    forall k: nat, l | l in ls && Ends(l, v, k) ensures l.res.NotRun? {
      assert !EndedIn(ls0, v, k);
      assert l in ls1 ==> l in ls0;
    }
  }

  ghost predicate AlwaysAnswered(c: Config) {
    forall ls, s :: Run(c, ls, s) && s.ch.finished ==> AllAnswered(c, ls, s)
  }

  /** Exactly when a record can be trusted: in a plan without `when`, every finished run has an answer
      from every known target of every node recorded applied or failed, if and only if there is nothing
      to do at all, or there is no timeout and any two nodes with something to do, one of which may
      halt the run, stand behind one another. */
  lemma RecordsAreEarned(c: Config)
    requires Good(c) && Unconditioned(c)
    ensures AlwaysAnswered(c) <==> (forall v :: !HasTarget(c, v)) || Uncut(c)
  {
    if v :| HasTarget(c, v) {
      if Uncut(c) {
        forall ls, s | Run(c, ls, s) && s.ch.finished ensures AllAnswered(c, ls, s) { UncutAnswersAll(c, ls, s); }
      } else if c.timeout {
        TimeoutCuts(c, v);
      } else {
        var h, u :| MayCut(c, h, u) && !Ordered(c, h, u);
        var ls, s := CutRun(c, h, u);
        Unearned(c, ls, s, u);
      }
    } else {
      NothingToAnswer(c);
    }
  }

  lemma Unearned(c: Config, ls: seq<Label>, s: State, v: Id)
    requires Run(c, ls, s) && s.ch.finished && HasTarget(c, v) && HasRun(s, v) && forall k: nat :: !RanIn(ls, v, k)
    ensures !AlwaysAnswered(c)
  {
    var k: nat :| KnownTarget(c, v, k);
    assert !AllAnswered(c, ls, s);
  }

  lemma TimeoutCuts(c: Config, v: Id)
    requires Good(c) && Unconditioned(c) && c.timeout && HasTarget(c, v)
    ensures !AlwaysAnswered(c)
  {
    assert v in c.nodes;
    assert |c.nodes| > 0;
    var ls, s := CancelledCountsAsApplied(c);
    Unearned(c, ls, s, v);
  }

  lemma NothingToAnswer(c: Config)
    requires forall v :: !HasTarget(c, v)
    ensures AlwaysAnswered(c)
  {
    assert forall v, k: nat :: KnownTarget(c, v, k) ==> HasTarget(c, v);
  }
}
