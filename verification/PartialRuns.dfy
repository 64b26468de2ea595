/** Running a plan only as far as a part of it that is closed under dependencies, and no further. */
module PartialRuns {
  import opened Digraph
  import opened Wrappers
  import opened ExecutionGraph
  import opened Scheduler
  import opened SchedulerFlow
  import opened SchedulerPhases
  import opened SchedulerTheorems
  import opened SchedulerAnswers
  import opened ScheduleIndependence

  // ---- Running a part of the plan ----

  /** The goroutine of u is past its first critical section. */
  ghost predicate Past(s: State, u: Id) {
    u in s.ch.sent || (u in s.workers && s.workers[u] != Start)
  }

  /** No node outside `part` has been judged. */
  ghost predicate Untouched(s: State, part: set<Id>) {
    forall u :: u !in part ==> !Past(s, u)
  }

  /** The nodes of `part` that have a `when` have been judged. */
  ghost predicate Unconditional(c: Config, s: State, part: set<Id>) {
    forall u :: u in part ==> u in c.nodes && (c.nodes[u].cond.None? || Past(s, u))
  }

  ghost predicate Partial(c: Config, s: State, part: set<Id>) {
    Inv(c, s) && Smooth(s) && Untouched(s, part) && Unconditional(c, s, part)
  }

  /** Every target answers that it changed something. */
  function Changing(): Oracle {
    (v: Id, k: nat) => (false, true)
  }

  ghost predicate AllAnswer(ls: seq<Label>) {
    forall l :: l in ls ==> Answers(Changing(), l)
  }

  lemma AnswerMore(ls: seq<Label>, l: Label)
    requires AllAnswer(ls) && Answers(Changing(), l)
    ensures AllAnswer(ls + [l])
  {
  }

  ghost predicate Allowed(l: Label, part: set<Id>) {
    (l.Decide? ==> l.id in part) && Answers(Changing(), l)
  }

  lemma StepPast(c: Config, s: State, l: Label, u: Id)
    requires Records(c, s) && Enabled(c, s, l) && (l.Dispatch? ==> NewWorker(c, s))
    ensures Past(s, u) ==> Past(Step(c, s, l), u)
    ensures Past(Step(c, s, l), u) ==> Past(s, u) || (l.Decide? && l.id == u)
  {
    match l
    case Dispatch => DispatchPast(c, s, u);
    case Send(id) => SendPast(c, s, id, u);
    case Receive =>
    case Timeout =>
    case _ => WorkPast(c, s, l, u);
  }

  lemma DispatchPast(c: Config, s: State, u: Id)
    requires Enabled(c, s, Dispatch) && NewWorker(c, s)
    ensures Past(Step(c, s, Dispatch), u) <==> Past(s, u)
  {
  }

  lemma SendPast(c: Config, s: State, id: Id, u: Id)
    requires Enabled(c, s, Send(id))
    ensures Past(Step(c, s, Send(id)), u) <==> Past(s, u)
  {
    assert u in s.ch.sent + [id] <==> u in s.ch.sent || u == id;
  }

  lemma WorkPast(c: Config, s: State, l: Label, u: Id)
    requires Enabled(c, s, l) && !l.Dispatch? && !l.Send? && !l.Receive? && !l.Timeout?
    ensures Past(s, u) ==> Past(Step(c, s, l), u)
    ensures Past(Step(c, s, l), u) ==> Past(s, u) || (l.Decide? && l.id == u)
  {
    assert Step(c, s, l).ch == s.ch;
  }

  lemma StepPartial(c: Config, s: State, l: Label, part: set<Id>)
    requires Good(c) && Partial(c, s, part) && Enabled(c, s, l) && Allowed(l, part)
    ensures Partial(c, Step(c, s, l), part)
  {
    StepInv(c, s, l);
    if l.Dispatch? { DispatchFlow(c, s.ch, s.workers.Keys); }
    forall u ensures (Past(s, u) ==> Past(Step(c, s, l), u))
        && (Past(Step(c, s, l), u) ==> Past(s, u) || (l.Decide? && l.id == u))
    {
      StepPast(c, s, l, u);
    }
    AllowedIsGentle(c, s, l, part);
    StepSmooth(c, s, l);
  }

  lemma AllowedIsGentle(c: Config, s: State, l: Label, part: set<Id>)
    requires Records(c, s) && Unconditional(c, s, part) && Enabled(c, s, l) && Allowed(l, part)
    ensures Gentle(c, s, l)
  {
    if l.Decide? { assert !Past(s, l.id); }
  }

  /** All that can be done without judging a node outside `part` has been done. */
  ghost predicate Exhausted(s: State, part: set<Id>) {
    s.workers.Keys !! part && s.ch.taken == |s.ch.queued| && s.ch.completed == |s.ch.sent|
  }

  lemma AdvanceWithin(c: Config, s: State, part: set<Id>) returns (l: Label)
    requires Good(c) && Inv(c, s) && !Exhausted(s, part)
    ensures Enabled(c, s, l) && Allowed(l, part)
  {
    if id :| id in s.workers && id in part {
      l := WorkerCanMove(c, s, id);
      if l.EndTarget? { l := EndTarget(l.id, l.k, Ran(false, true)); }
    } else if s.ch.taken < |s.ch.queued| {
      l := Dispatch;
    } else {
      l := Receive;
      if s.ch.finished { AllReceived(c, s.ch, s.workers.Keys); }
      ReceiveFlow(c, s.ch, s.workers.Keys);
    }
  }

  /** Run on without judging a node outside `part` until nothing more can be done. */
  lemma {:induction false} Drive(c: Config, s0: State, ls: seq<Label>, s: State, part: set<Id>)
    returns (all: seq<Label>, t: State)
    requires Good(c) && Partial(c, s, part) && After(c, s0, ls) == Some(s)
    requires AllAnswer(ls)
    ensures After(c, s0, all) == Some(t) && Partial(c, t, part) && Exhausted(t, part)
    ensures AllAnswer(all)
    decreases Credits(c) - Spent(s)
  {
    if Exhausted(s, part) { return ls, s; }
    var l := AdvanceWithin(c, s, part);
    StepPartial(c, s, l, part);
    StepCounts(c, s, l);
    AfterOneMore(c, s0, ls, s, l);
    AnswerMore(ls, l);
    all, t := Drive(c, s0, ls + [l], Step(c, s, l), part);
  }

  // ---- What such a run reaches ----

  ghost predicate ClosedPart(c: Config, part: set<Id>) {
    part <= c.nodes.Keys && forall u, d :: u in part && d in c.nodes[u].dependsOn ==> d in part
  }

  /** Everything in a dependency-closed part has been received. */
  lemma PartIsReceived(c: Config, s: State, part: set<Id>)
    requires Good(c) && Flow(c, s.ch, s.workers.Keys) && ClosedPart(c, part) && Exhausted(s, part)
    ensures part <= Received(s.ch)
  {
    var rest := part - Received(s.ch);
    assert forall u :: u in part ==> u in rest || u in Received(s.ch);
    if rest != {} {
      var u := PickLast(DepGraph(c.nodes), rest);
      forall d | d in c.nodes[u].dependsOn ensures d in Received(s.ch) { assert d in Succ(DepGraph(c.nodes), u); }
      QueuedIsTaken(c, s, u);
    }
  }

  lemma QueuedIsTaken(c: Config, s: State, u: Id)
    requires Flow(c, s.ch, s.workers.Keys) && u in c.nodes && s.ch.taken == |s.ch.queued|
    requires forall d :: d in c.nodes[u].dependsOn ==> d in Received(s.ch)
    ensures u in s.workers || u in s.ch.sent
    ensures s.ch.completed == |s.ch.sent| && u !in s.workers ==> u in Received(s.ch)
  {
    PaidIsQueued(c, s.ch, s.workers.Keys, u);
    assert s.ch.queued[..s.ch.taken] == s.ch.queued;
    assert u in Elems(s.ch.queued);
    assert s.ch.completed == |s.ch.sent| ==> s.ch.sent[..s.ch.completed] == s.ch.sent;
  }

  /** A node right after the part waits to be judged. */
  lemma NextIsWaiting(c: Config, s: State, part: set<Id>, v: Id)
    requires Good(c) && Partial(c, s, part) && ClosedPart(c, part) && Exhausted(s, part)
    requires v in c.nodes && v !in part && forall d :: d in c.nodes[v].dependsOn ==> d in part
    ensures At(s, v, Start)
  {
    PartIsReceived(c, s, part);
    QueuedIsTaken(c, s, v);
    assert !Past(s, v);
  }

  /** A node of the part has been applied. */
  lemma PartIsApplied(c: Config, s: State, part: set<Id>, u: Id)
    requires Good(c) && Partial(c, s, part) && ClosedPart(c, part) && Exhausted(s, part) && u in part
    ensures StatusOf(s, u).Applied?
  {
    PartIsReceived(c, s, part);
    assert u in Elems(s.ch.sent);
    assert Reported(s, u) && Fine(s, u);
  }

  // ---- Judging one more node ----

  lemma JudgeStep(c: Config, s: State, v: Id)
    requires Smooth(s) && v in c.nodes && At(s, v, Start)
    ensures var t := AfterDecide(c, s, v);
            if WhenUnmet(c, s, v) then At(t, v, Skipping) else At(t, v, Running(0, false, false))
  {
    forall d | d in c.nodes[v].dependsOn
      ensures !StatusOf(s, d).Failed? && !StatusOf(s, d).Skipped?
    {
      assert Fine(s, d);
    }
  }

  lemma JudgeNow(c: Config, s0: State, ls: seq<Label>, s: State, v: Id) returns (all: seq<Label>, t: State)
    requires Good(c) && Inv(c, s) && v in c.nodes && At(s, v, Start) && After(c, s0, ls) == Some(s) && AllAnswer(ls)
    ensures t == AfterDecide(c, s, v) && Inv(c, t) && After(c, s0, all) == Some(t) && AllAnswer(all)
  {
    t, all := Step(c, s, Decide(v)), ls + [Decide(v)];
    StepInv(c, s, Decide(v));
    AfterOneMore(c, s0, ls, s, Decide(v));
    AnswerMore(ls, Decide(v));
  }

  lemma ClosedMore(c: Config, part: set<Id>, v: Id)
    requires ClosedPart(c, part) && v in c.nodes && forall d :: d in c.nodes[v].dependsOn ==> d in part
    ensures ClosedPart(c, part + {v})
  {
  }

  /** What v depends on, directly or not. */
  ghost function Below(c: Config, v: Id): set<Id> {
    set d | d in c.nodes && Reaches(DepGraph(c.nodes), v, d)
  }

  lemma BelowIsClosed(c: Config, v: Id)
    requires Good(c) && v in c.nodes
    ensures ClosedPart(c, Below(c, v)) && forall d :: d in c.nodes[v].dependsOn ==> d in Below(c, v)
  {
    var g := DepGraph(c.nodes);
    forall d | d in c.nodes[v].dependsOn ensures d in Below(c, v) {
      EdgeReaches(g, v, d);
    }
    forall u, d | u in Below(c, v) && d in c.nodes[u].dependsOn ensures d in Below(c, v) {
      EdgeReaches(g, u, d);
      ReachesTrans(g, v, u, d);
    }
  }

  lemma StartPartial(c: Config, s0: State, part: set<Id>)
    requires Good(c) && Init(c, s0) && forall u :: u in part ==> u in c.nodes && c.nodes[u].cond.None?
    ensures Partial(c, s0, part)
  {
    InitInv(c, s0);
    InitSmooth(c, s0);
  }
}
