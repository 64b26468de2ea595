/** What a node's record says about what its targets answered, in every run. */
module SchedulerAnswers {
  import opened Digraph
  import opened Wrappers
  import opened Scheduler
  import opened SchedulerFlow
  import opened SchedulerPhases
  import opened SchedulerCauses
  import opened SchedulerTheorems

  predicate ReportsFailure(l: Label, v: Id) {
    l.EndTarget? && l.id == v && l.res.Ran? && l.res.failed
  }

  predicate ReportsChange(l: Label, v: Id) {
    l.EndTarget? && l.id == v && l.res.Ran? && l.res.changed
  }

  predicate Ends(l: Label, v: Id, k: nat) {
    l.EndTarget? && l.id == v && l.k == k
  }

  /** In the run so far a target of v has answered with an error. */
  ghost predicate FailureIn(ls: seq<Label>, v: Id) {
    exists l :: l in ls && ReportsFailure(l, v)
  }

  ghost predicate ChangeIn(ls: seq<Label>, v: Id) {
    exists l :: l in ls && ReportsChange(l, v)
  }

  ghost predicate EndedIn(ls: seq<Label>, v: Id, k: nat) {
    exists l :: l in ls && Ends(l, v, k)
  }

  /** Target k of v has run and answered. */
  ghost predicate RanIn(ls: seq<Label>, v: Id, k: nat) {
    exists l :: l in ls && Ends(l, v, k) && l.res.Ran?
  }

  predicate FailedSoFar(s: State, v: Id) {
    if RunningAt(s, v) then s.workers[v].failed else StatusOf(s, v).Failed?
  }

  predicate ChangedSoFar(s: State, v: Id) {
    if RunningAt(s, v) then s.workers[v].changed else ChangedOf(s, v)
  }

  /** The state records the answers in ls: errors and changes, node by node. */
  ghost predicate Tallies(ls: seq<Label>, s: State) {
    forall v :: (FailedSoFar(s, v) <==> FailureIn(ls, v)) && (ChangedSoFar(s, v) <==> ChangeIn(ls, v))
  }

  /** Known targets that are over have ended in ls, and without cancellation they have run; nothing
      else has ended, and nothing else is at work. */
  ghost predicate Accounted(c: Config, ls: seq<Label>, s: State) {
    && (forall l :: l in ls && l.EndTarget? ==> (l.id, l.k) in s.over && KnownTarget(c, l.id, l.k))
    && (forall v, k: nat :: (v, k) in Active(s) ==> KnownTarget(c, v, k))
    && (forall v, k: nat :: (v, k) in s.over && KnownTarget(c, v, k) ==> EndedIn(ls, v, k))
    && (!s.cancelled ==> forall l :: l in ls && l.EndTarget? ==> l.res.Ran?)
  }

  lemma OneMoreAnswer(ls: seq<Label>, l: Label, v: Id)
    ensures FailureIn(ls + [l], v) <==> FailureIn(ls, v) || ReportsFailure(l, v)
    ensures ChangeIn(ls + [l], v) <==> ChangeIn(ls, v) || ReportsChange(l, v)
    ensures forall k: nat :: EndedIn(ls + [l], v, k) <==> EndedIn(ls, v, k) || Ends(l, v, k)
  {
    assert forall x :: x in ls + [l] <==> x in ls || x == l;
  }

  /** A step adds to the tally what its label reports. */
  ghost predicate Adds(s: State, l: Label, t: State, v: Id) {
    && (FailedSoFar(t, v) <==> FailedSoFar(s, v) || ReportsFailure(l, v))
    && (ChangedSoFar(t, v) <==> ChangedSoFar(s, v) || ReportsChange(l, v))
  }

  /** v's record and goroutine are as before, and the label is no answer. */
  lemma SameAdds(s: State, l: Label, t: State, v: Id)
    requires !l.EndTarget? && StatusOf(t, v) == StatusOf(s, v) && ChangedOf(t, v) == ChangedOf(s, v)
    requires RunningAt(t, v) <==> RunningAt(s, v)
    requires RunningAt(s, v) ==> t.workers[v] == s.workers[v]
    ensures Adds(s, l, t, v)
  {
  }

  lemma DispatchAdds(c: Config, s: State, v: Id)
    requires Enabled(c, s, Dispatch) && NewWorker(c, s)
    ensures Adds(s, Dispatch, Step(c, s, Dispatch), v)
  {
    SameAdds(s, Dispatch, Step(c, s, Dispatch), v);
  }

  lemma SendAdds(c: Config, s: State, id: Id, v: Id)
    requires Enabled(c, s, Send(id))
    ensures Adds(s, Send(id), Step(c, s, Send(id)), v)
  {
    SameAdds(s, Send(id), Step(c, s, Send(id)), v);
  }

  lemma DecideAdds(c: Config, s: State, id: Id, v: Id)
    requires id in c.nodes && At(s, id, Start) && StatusOf(s, id).NotYet? && !ChangedOf(s, id)
    ensures Adds(s, Decide(id), AfterDecide(c, s, id), v)
  {
    if v != id { SameAdds(s, Decide(id), AfterDecide(c, s, id), v); }
  }

  lemma RecordSkipAdds(c: Config, s: State, id: Id, v: Id)
    requires Enabled(c, s, RecordSkip(id)) && StatusOf(s, id).NotYet?
    ensures Adds(s, RecordSkip(id), Step(c, s, RecordSkip(id)), v)
  {
    if v != id { SameAdds(s, RecordSkip(id), Step(c, s, RecordSkip(id)), v); }
  }

  lemma FinishAdds(c: Config, s: State, id: Id, v: Id)
    requires CanFinish(c, s, id) && s.status.Keys == s.changed.Keys == c.nodes.Keys
    ensures Adds(s, Finish(id), AfterFinish(c, s, id), v)
  {
    if v != id { SameAdds(s, Finish(id), AfterFinish(c, s, id), v); }
  }

  lemma TargetAdds(c: Config, s: State, l: Label, v: Id)
    requires Enabled(c, s, l) && (l.StartTarget? || l.EndTarget?)
    ensures Adds(s, l, Step(c, s, l), v)
  {
  }

  lemma WorkAdds(c: Config, s: State, l: Label, v: Id)
    requires Records(c, s) && Causes(c, s) && Enabled(c, s, l) && (l.Decide? || l.RecordSkip? || l.Finish?)
    ensures Adds(s, l, Step(c, s, l), v)
  {
    match l
    case Decide(id) => OpenRecord(c, s, id); DecideAdds(c, s, id, v);
    case RecordSkip(id) => OpenRecord(c, s, id); RecordSkipAdds(c, s, id, v);
    case Finish(id) => FinishAdds(c, s, id, v);
  }

  lemma ChannelAdds(c: Config, s: State, l: Label, v: Id)
    requires Enabled(c, s, l) && (l.Dispatch? ==> NewWorker(c, s))
    requires l.Dispatch? || l.Send? || l.Receive? || l.Timeout?
    ensures Adds(s, l, Step(c, s, l), v)
  {
    match l
    case Dispatch => DispatchAdds(c, s, v);
    case Send(id) => SendAdds(c, s, id, v);
    case Receive => SameAdds(s, l, Step(c, s, l), v);
    case Timeout => SameAdds(s, l, Step(c, s, l), v);
  }

  lemma StepAdds(c: Config, s: State, l: Label, v: Id)
    requires Records(c, s) && Causes(c, s) && Enabled(c, s, l) && (l.Dispatch? ==> NewWorker(c, s))
    ensures Adds(s, l, Step(c, s, l), v)
  {
    if l.StartTarget? || l.EndTarget? {
      TargetAdds(c, s, l, v);
    } else if l.Decide? || l.RecordSkip? || l.Finish? {
      WorkAdds(c, s, l, v);
    } else {
      ChannelAdds(c, s, l, v);
    }
  }

  lemma StepTallies(c: Config, ls: seq<Label>, s: State, l: Label)
    requires Inv(c, s) && Tallies(ls, s) && Enabled(c, s, l)
    ensures Tallies(ls + [l], Step(c, s, l))
  {
    var t := Step(c, s, l);
    if l.Dispatch? { DispatchFlow(c, s.ch, s.workers.Keys); }
    forall v ensures (FailedSoFar(t, v) <==> FailureIn(ls + [l], v))
        && (ChangedSoFar(t, v) <==> ChangeIn(ls + [l], v))
    {
      OneMoreAnswer(ls, l, v);
      StepAdds(c, s, l, v);
    }
  }

  /** A known target gets into `over` only by its own label. */
  lemma StepOver(c: Config, s: State, l: Label)
    requires Enabled(c, s, l)
    ensures forall v, k: nat :: (v, k) in Step(c, s, l).over && KnownTarget(c, v, k) ==>
      (v, k) in s.over || Ends(l, v, k)
    ensures s.cancelled ==> Step(c, s, l).cancelled
    ensures s.over <= Step(c, s, l).over && (l.EndTarget? ==> (l.id, l.k) in Step(c, s, l).over)
  {
  }

  lemma StepActive(c: Config, s: State, l: Label)
    requires Enabled(c, s, l)
    ensures forall v, k: nat :: (v, k) in Active(Step(c, s, l)) ==> (v, k) in Active(s) || KnownTarget(c, v, k)
  {
  }

  lemma StepAccounted(c: Config, ls: seq<Label>, s: State, l: Label)
    requires Accounted(c, ls, s) && Enabled(c, s, l)
    ensures Accounted(c, ls + [l], Step(c, s, l))
  {
    var t := Step(c, s, l);
    StepOver(c, s, l);
    StepActive(c, s, l);
    assert l.EndTarget? ==> KnownTarget(c, l.id, l.k);
    forall v, k: nat | (v, k) in t.over && KnownTarget(c, v, k) ensures EndedIn(ls + [l], v, k) {
      OneMoreAnswer(ls, l, v);
    }
    assert forall x :: x in ls + [l] <==> x in ls || x == l;
  }

  lemma InitTallies(c: Config, s: State)
    requires Init(c, s)
    ensures Tallies([], s) && Accounted(c, [], s)
  {
  }

  lemma {:induction false} RunTallies(c: Config, s0: State, ls: seq<Label>, s: State)
    requires Good(c) && Init(c, s0) && After(c, s0, ls) == Some(s)
    ensures Tallies(ls, s) && Accounted(c, ls, s)
    decreases |ls|
  {
    if ls == [] {
      InitTallies(c, s);
    } else {
      var front, m, l := LastStep(c, s0, ls, s);
      RunTallies(c, s0, front, m);
      assert Run(c, front, m);
      RunInv(c, front, m);
      StepTold(c, front, m, l);
    }
  }

  lemma StepTold(c: Config, ls: seq<Label>, s: State, l: Label)
    requires Inv(c, s) && Tallies(ls, s) && Accounted(c, ls, s) && Enabled(c, s, l)
    ensures Tallies(ls + [l], Step(c, s, l)) && Accounted(c, ls + [l], Step(c, s, l))
  {
    StepTallies(c, ls, s, l);
    StepAccounted(c, ls, s, l);
  }

  /** A node that has run has ended all its known targets. */
  lemma AllEnded(c: Config, ls: seq<Label>, s: State, v: Id, k: nat)
    requires Inv(c, s) && Accounted(c, ls, s) && HasRun(s, v) && KnownTarget(c, v, k)
    ensures EndedIn(ls, v, k) && (!s.cancelled ==> RanIn(ls, v, k))
  {
    assert Begun(c, s, v, k);
    RecordIsClosed(c, s, v);
    assert (v, k) !in Active(s);
    var l :| l in ls && Ends(l, v, k);
    assert !s.cancelled ==> l.res.Ran?;
  }

  lemma RecordIsClosed(c: Config, s: State, v: Id)
    requires Records(c, s) && !StatusOf(s, v).NotYet?
    ensures !RunningAt(s, v)
  {
    assert Reported(s, v);
  }

  /** In every run, whatever the policies and the interleaving: a node that has settled is recorded
      failed if and only if one of its targets answered with an error, and changed if and only if
      one answered with a change; and if nothing was cancelled, a node recorded applied or failed
      has had an answer from every target the plan knows. */
  lemma RecordsTellAnswers(c: Config, ls: seq<Label>, s: State)
    requires Good(c) && Run(c, ls, s)
    ensures forall v :: !StatusOf(s, v).NotYet? ==>
              (StatusOf(s, v).Failed? <==> FailureIn(ls, v)) && (ChangedOf(s, v) <==> ChangeIn(ls, v))
    ensures !s.cancelled ==> forall v, k: nat :: HasRun(s, v) && KnownTarget(c, v, k) ==> RanIn(ls, v, k)
  {
    var s0 :| Init(c, s0) && After(c, s0, ls) == Some(s);
    RunTallies(c, s0, ls, s);
    RunInv(c, ls, s);
    forall v | !StatusOf(s, v).NotYet?
      ensures (StatusOf(s, v).Failed? <==> FailureIn(ls, v)) && (ChangedOf(s, v) <==> ChangeIn(ls, v))
    {
      RecordIsClosed(c, s, v);
    }
    if !s.cancelled {
      forall v, k: nat | HasRun(s, v) && KnownTarget(c, v, k) ensures RanIn(ls, v, k) {
        AllEnded(c, ls, s, v, k);
      }
    }
  }

  // ---- Runs without failures ----

  /** v has not failed or been skipped, and is not about to be. */
  ghost predicate Fine(s: State, v: Id) {
    !StatusOf(s, v).Failed? && !Skips(s, v) && (RunningAt(s, v) ==> !s.workers[v].failed)
  }

  ghost predicate Smooth(s: State) {
    !s.halt && forall v :: Fine(s, v)
  }

  /** A label after which a smooth run stays smooth. */
  ghost predicate Gentle(c: Config, s: State, l: Label) {
    && (l.EndTarget? && l.res.Ran? ==> !l.res.failed)
    && (l.Decide? && l.id in c.nodes ==> !WhenUnmet(c, s, l.id))
  }

  lemma StepFine(c: Config, s: State, l: Label, v: Id)
    requires Enabled(c, s, l) && Smooth(s) && Gentle(c, s, l)
    ensures Fine(Step(c, s, l), v)
  {
    assert Fine(s, v);
    assert l.RecordSkip? || l.EndTarget? || l.Finish? ==> Fine(s, l.id);
    if l.Decide? { DecideFine(c, s, l.id, v); }
  }

  lemma DecideFine(c: Config, s: State, id: Id, v: Id)
    requires Enabled(c, s, Decide(id)) && Smooth(s) && !WhenUnmet(c, s, id)
    ensures Fine(AfterDecide(c, s, id), v)
  {
    assert Fine(s, v);
    assert !Blocked(c, s, id) by {
      forall d | d in c.nodes[id].dependsOn
        ensures !StatusOf(s, d).Failed? && !StatusOf(s, d).Skipped?
      {
        assert Fine(s, d);
      }
    }
  }

  lemma StepSmooth(c: Config, s: State, l: Label)
    requires Enabled(c, s, l) && Smooth(s) && Gentle(c, s, l)
    ensures Smooth(Step(c, s, l))
  {
    forall v ensures Fine(Step(c, s, l), v) { StepFine(c, s, l, v); }
    if l.Finish? { assert Fine(s, l.id); }
  }

  lemma InitSmooth(c: Config, s: State)
    requires Init(c, s)
    ensures Smooth(s)
  {
    forall v ensures Fine(s, v) {}
  }

  lemma InitExists(c: Config) returns (s: State)
    requires Good(c)
    ensures Init(c, s)
  {
    var ready := set v | v in c.nodes && c.inDegree[v] == 0;
    var queue := AsSequence(ready);
    s := State(Channels(c.inDegree, queue, 0, [], 0, false), map[], map v | v in c.nodes :: NotYet,
               map v | v in c.nodes :: false, [], false, false, {}, {});
  }

  lemma {:induction false} AsSequence(xs: set<Id>) returns (q: seq<Id>)
    ensures Distinct(q) && forall x :: x in q <==> x in xs
    decreases |xs|
  {
    if xs == {} { return []; }
    var x :| x in xs;
    q := AsSequence(xs - {x});
    q := q + [x];
  }
}
