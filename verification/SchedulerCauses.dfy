/** Why a node ran or was skipped, as every interleaving keeps it, whatever the targets answer. */
module SchedulerCauses {
  import opened Digraph
  import opened ExecutionGraph
  import opened Scheduler
  import opened SchedulerFlow
  import opened SchedulerPhases

  ghost predicate Bad(s: State, v: Id) {
    StatusOf(s, v).Failed? || StatusOf(s, v).Skipped?
  }

  ghost predicate AllApplied(c: Config, s: State, v: Id) {
    v in c.nodes && forall d :: d in c.nodes[v].dependsOn ==> StatusOf(s, d).Applied?
  }

  /** A halting failure, a failed or skipped dependency, or an unmet `when`. What v depends on has
      settled when v is judged, and a change is never taken back. That leaves one case that does
      not show in the state: v asked for a change of a node that is no transitive dependency, and
      the change came later. */
  ghost predicate Cause(c: Config, s: State, v: Id) {
    v in c.nodes && (
      || s.halt
      || (exists d :: d in c.nodes[v].dependsOn && Bad(s, d))
      || UnmetWhen(c, s, v))
  }

  ghost predicate UnmetWhen(c: Config, s: State, v: Id)
    requires v in c.nodes
  {
    var w := c.nodes[v].cond;
    w.Some? && (Reaches(DepGraph(c.nodes), v, w.value.node) || !w.value.changed ==>
                  ChangedOf(s, w.value.node) != w.value.changed)
  }

  ghost predicate Admitted(s: State, v: Id) {
    RunningAt(s, v) || HasRun(s, v)
  }

  ghost predicate Skips(s: State, v: Id) {
    StatusOf(s, v).Skipped? || At(s, v, Skipping)
  }

  /** x has failed and its policy, absent ones included, is not to continue. */
  ghost predicate FailedHard(c: Config, s: State, x: Id) {
    x in c.nodes && StatusOf(s, x).Failed? && !c.nodes[x].policy.Continue?
  }

  /** The run is halted exactly when such a node has failed, and then it is cancelled too; nothing but
      that and the timeout cancels it. */
  ghost predicate HaltsOnFailure(c: Config, s: State) {
    && (s.halt <==> exists x :: FailedHard(c, s, x))
    && (s.halt ==> s.cancelled) && (s.cancelled && !c.timeout ==> s.halt)
  }

  ghost predicate Causes(c: Config, s: State) {
    && (forall v :: Admitted(s, v) ==> AllApplied(c, s, v))
    && (forall v :: Skips(s, v) ==> Cause(c, s, v))
    && HaltsOnFailure(c, s)
    && (forall x :: x in s.errs <==> StatusOf(s, x).Failed?)
    && (forall v :: ChangedOf(s, v) ==> HasRun(s, v))
  }

  /** Whatever a started node depends on, directly or not, has reported. */
  ghost predicate Behind(c: Config, s: State) {
    forall v, d :: (v in s.workers || v in s.ch.sent) && Reaches(DepGraph(c.nodes), v, d) ==> Reported(s, d)
  }

  lemma FlowBehind(c: Config, s: State)
    requires Flow(c, s.ch, s.workers.Keys)
    ensures Behind(c, s)
  {
    forall v, d | (v in s.workers || v in s.ch.sent) && Reaches(DepGraph(c.nodes), v, d) ensures Reported(s, d) {
      assert v in Elems(s.ch.queued[..s.ch.taken]);
      QueuedAfterDependencies(c, s.ch, s.workers.Keys, v, d);
      assert d in Elems(s.ch.sent);
    }
  }

  /** A node that has not reported has no record yet. */
  lemma OpenRecord(c: Config, s: State, id: Id)
    requires Records(c, s) && Causes(c, s) && id in s.workers && s.workers[id] != Sending
    ensures id in c.nodes && StatusOf(s, id).NotYet? && !ChangedOf(s, id)
  {
    assert !Reported(s, id);
  }

  lemma CauseStable(c: Config, s: State, t: State, v: Id)
    requires Behind(c, s) && Records(c, s) && Causes(c, s) && Settles(s, t)
    requires Skips(s, v) && Cause(c, s, v)
    ensures Cause(c, t, v)
  {
    if StatusOf(s, v).Skipped? {
      assert Reported(s, v);
    }
    if UnmetWhen(c, s, v) && Reaches(DepGraph(c.nodes), v, c.nodes[v].cond.value.node) {
      SettledRecord(c, s, t, c.nodes[v].cond.value.node);
    } else if d :| d in c.nodes[v].dependsOn && Bad(s, d) {
      assert Bad(t, d);
    }
  }

  lemma SettledRecord(c: Config, s: State, t: State, w: Id)
    requires Records(c, s) && Settles(s, t) && Reported(s, w)
    ensures !StatusOf(s, w).NotYet? && StatusOf(t, w) == StatusOf(s, w) && ChangedOf(t, w) == ChangedOf(s, w)
  {
    assert w in s.workers.Keys + Elems(s.ch.sent);
  }

  /** Claims that were there before keep their reasons. */
  lemma OldClaims(c: Config, s: State, t: State)
    requires Behind(c, s) && Records(c, s) && Causes(c, s) && Settles(s, t)
    ensures forall v :: Admitted(s, v) ==> AllApplied(c, t, v)
    ensures forall v :: Skips(s, v) ==> Cause(c, t, v)
  {
    forall v | Skips(s, v) ensures Cause(c, t, v) {
      CauseStable(c, s, t, v);
    }
  }

  lemma SameHalt(c: Config, s: State, t: State)
    requires HaltsOnFailure(c, s) && t.halt == s.halt && (t.cancelled == s.cancelled || (t.cancelled && c.timeout))
    requires forall v :: StatusOf(t, v).Failed? <==> StatusOf(s, v).Failed?
    ensures HaltsOnFailure(c, t)
  {
    if s.halt {
      var x :| FailedHard(c, s, x);
      assert FailedHard(c, t, x);
    }
    forall x | FailedHard(c, t, x) ensures FailedHard(c, s, x) {}
  }

  lemma KeepCauses(c: Config, s: State, t: State)
    requires Behind(c, s) && Records(c, s) && Causes(c, s) && Settles(s, t)
    requires forall v :: (Admitted(t, v) ==> Admitted(s, v)) && (Skips(t, v) ==> Skips(s, v))
    requires t.halt == s.halt && t.errs == s.errs && t.changed == s.changed
    requires t.cancelled == s.cancelled || (t.cancelled && c.timeout)
    requires forall v :: (StatusOf(t, v).Failed? ==> StatusOf(s, v).Failed?)
    ensures Causes(c, t)
  {
    OldClaims(c, s, t);
    SameHalt(c, s, t);
    assert forall v :: ChangedOf(t, v) ==> ChangedOf(s, v);
  }

  lemma DecideCauses(c: Config, s: State, id: Id)
    requires Behind(c, s) && Records(c, s) && Causes(c, s) && id in c.nodes && At(s, id, Start)
    requires Settles(s, AfterDecide(c, s, id))
    ensures Causes(c, AfterDecide(c, s, id))
  {
    OldClaims(c, s, AfterDecide(c, s, id));
    DecideClaim(c, s, id);
    DecideOthers(c, s, id);
    SameHalt(c, s, AfterDecide(c, s, id));
  }

  lemma DecideOthers(c: Config, s: State, id: Id)
    requires Records(c, s) && Causes(c, s) && id in c.nodes && At(s, id, Start)
    ensures var t := AfterDecide(c, s, id);
            && (forall v :: v != id ==> (Admitted(t, v) ==> Admitted(s, v)) && (Skips(t, v) ==> Skips(s, v)))
            && (forall v :: StatusOf(t, v).Failed? <==> StatusOf(s, v).Failed?)
            && (forall v :: ChangedOf(t, v) ==> HasRun(t, v))
            && t.halt == s.halt && t.errs == s.errs
  {
    var t := AfterDecide(c, s, id);
    assert !Reported(s, id);
    assert forall v :: v != id ==> StatusOf(t, v) == StatusOf(s, v);
    forall v | ChangedOf(t, v) ensures HasRun(t, v) {
      assert ChangedOf(s, v) && HasRun(s, v);
    }
  }

  lemma DecideClaim(c: Config, s: State, id: Id)
    requires Behind(c, s) && Records(c, s) && id in c.nodes && At(s, id, Start)
    requires Settles(s, AfterDecide(c, s, id))
    ensures var t := AfterDecide(c, s, id);
            (Admitted(t, id) ==> AllApplied(c, t, id)) && (Skips(t, id) ==> Cause(c, t, id))
  {
    var t := AfterDecide(c, s, id);
    assert !Reported(s, id);
    if RunningAt(t, id) {
      forall d | d in c.nodes[id].dependsOn ensures StatusOf(t, d).Applied? {
        EdgeReaches(DepGraph(c.nodes), id, d);
        assert Reported(s, d);
        SettledRecord(c, s, t, d);
      }
    } else if At(t, id, Skipping) && Blocked(c, s, id) {
      var d :| d in c.nodes[id].dependsOn && (StatusOf(s, d).Failed? || StatusOf(s, d).Skipped?);
      assert Bad(t, d);
    }
  }

  lemma FinishCauses(c: Config, s: State, id: Id)
    requires Behind(c, s) && Records(c, s) && Causes(c, s) && CanFinish(c, s, id)
    requires Settles(s, AfterFinish(c, s, id))
    ensures Causes(c, AfterFinish(c, s, id))
  {
    var t := AfterFinish(c, s, id);
    assert !Reported(s, id);
    OldClaims(c, s, t);
    FinishClaims(c, s, id);
    FinishHalts(c, s, id);
  }

  lemma FinishHalts(c: Config, s: State, id: Id)
    requires HaltsOnFailure(c, s) && CanFinish(c, s, id) && StatusOf(s, id).NotYet?
    ensures HaltsOnFailure(c, AfterFinish(c, s, id))
  {
    var t := AfterFinish(c, s, id);
    if x :| FailedHard(c, s, x) { assert FailedHard(c, t, x); }
    if x :| FailedHard(c, t, x) && x != id { assert FailedHard(c, s, x); }
    assert FailedHard(c, t, id) <==> s.workers[id].failed && !c.nodes[id].policy.Continue?;
  }

  lemma FinishClaims(c: Config, s: State, id: Id)
    requires Causes(c, s) && CanFinish(c, s, id) && StatusOf(s, id).NotYet? && s.status.Keys == c.nodes.Keys
    ensures var t := AfterFinish(c, s, id);
            && (forall v :: (Admitted(t, v) ==> Admitted(s, v)) && (Skips(t, v) ==> Skips(s, v)))
            && (forall x :: x in t.errs <==> StatusOf(t, x).Failed?)
            && (forall v :: ChangedOf(t, v) ==> HasRun(t, v))
  {
    var t := AfterFinish(c, s, id);
    assert forall v :: v != id ==> StatusOf(t, v) == StatusOf(s, v) && ChangedOf(t, v) == ChangedOf(s, v);
    assert forall x :: x in t.errs <==> x in s.errs || (x == id && s.workers[id].failed);
  }

  /** The remaining labels write no new claim. */
  lemma QuietCauses(c: Config, s: State, t: State)
    requires Behind(c, s) && Records(c, s) && Causes(c, s)
    requires t.status == s.status && t.changed == s.changed && t.errs == s.errs && t.halt == s.halt
    requires t.cancelled == s.cancelled || (t.cancelled && c.timeout)
    requires forall v :: (RunningAt(t, v) ==> RunningAt(s, v)) && (At(t, v, Skipping) ==> At(s, v, Skipping))
    ensures Causes(c, t)
  {
    KeepCauses(c, s, t);
  }

  lemma RecordSkipCauses(c: Config, s: State, id: Id)
    requires Behind(c, s) && Records(c, s) && Causes(c, s) && At(s, id, Skipping)
    requires Settles(s, Step(c, s, RecordSkip(id)))
    ensures Causes(c, Step(c, s, RecordSkip(id)))
  {
    assert !Reported(s, id);
    KeepCauses(c, s, Step(c, s, RecordSkip(id)));
  }

  lemma MoveCauses(c: Config, s: State, l: Label)
    requires Behind(c, s) && Records(c, s) && Causes(c, s) && Enabled(c, s, l) && (l.StartTarget? || l.EndTarget?)
    ensures Causes(c, Step(c, s, l))
  {
    var t := Step(c, s, l);
    assert t.workers == s.workers[l.id := t.workers[l.id]];
    QuietCauses(c, s, t);
  }

  lemma ChannelCauses(c: Config, s: State, l: Label)
    requires Behind(c, s) && Records(c, s) && Causes(c, s) && Enabled(c, s, l)
    requires l.Dispatch? || l.Send? || l.Receive? || l.Timeout?
    ensures Causes(c, Step(c, s, l))
  {
    match l
    case Dispatch => DispatchCauses(c, s);
    case Send(id) => QuietCauses(c, s, Step(c, s, Send(id)));
    case Receive => QuietCauses(c, s, Step(c, s, Receive));
    case Timeout => QuietCauses(c, s, Step(c, s, Timeout));
  }

  lemma DispatchCauses(c: Config, s: State)
    requires Behind(c, s) && Records(c, s) && Causes(c, s) && Enabled(c, s, Dispatch)
    ensures Causes(c, Step(c, s, Dispatch))
  {
    QuietCauses(c, s, Step(c, s, Dispatch));
  }

  lemma StepCauses(c: Config, s: State, l: Label)
    requires Flow(c, s.ch, s.workers.Keys) && Records(c, s) && Causes(c, s) && Enabled(c, s, l)
    requires Settles(s, Step(c, s, l))
    ensures Causes(c, Step(c, s, l))
  {
    FlowBehind(c, s);
    if l.Dispatch? || l.Send? || l.Receive? || l.Timeout? { ChannelCauses(c, s, l); } else { WorkCauses(c, s, l); }
  }

  lemma WorkCauses(c: Config, s: State, l: Label)
    requires Behind(c, s) && Records(c, s) && Causes(c, s) && Enabled(c, s, l)
    requires !l.Dispatch? && !l.Send? && !l.Receive? && !l.Timeout?
    requires Settles(s, Step(c, s, l))
    ensures Causes(c, Step(c, s, l))
  {
    match l
    case Decide(id) => DecideCauses(c, s, id);
    case Finish(id) => FinishCauses(c, s, id);
    case RecordSkip(id) => RecordSkipCauses(c, s, id);
    case StartTarget(id) => MoveCauses(c, s, l);
    case EndTarget(id, k, res) => MoveCauses(c, s, l);
  }
}
