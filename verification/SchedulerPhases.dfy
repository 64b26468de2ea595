/** Where each node's goroutine can be, which targets it has begun, and when its outcome is
    written; and that an outcome, once written, is final. */
module SchedulerPhases {
  import opened Digraph
  import opened Scheduler
  import opened SchedulerFlow

  ghost predicate HasRun(s: State, v: Id) {
    StatusOf(s, v).Applied? || StatusOf(s, v).Failed?
  }

  /** The outcome has been written, so the goroutine is at its last send or gone. */
  ghost predicate Reported(s: State, v: Id) {
    v in s.ch.sent || At(s, v, Sending)
  }

  ghost predicate Records(c: Config, s: State) {
    && s.status.Keys == s.changed.Keys == c.nodes.Keys && s.workers.Keys + Elems(s.ch.sent) <= c.nodes.Keys
    && s.workers.Keys !! Elems(s.ch.sent)
    && (forall v :: v in c.nodes ==> (StatusOf(s, v).NotYet? <==> !Reported(s, v)))
  }

  /** What a step may do to the record of a node: only an open record can be written. */
  ghost predicate Settles(s: State, t: State) {
    && (forall v :: !StatusOf(s, v).NotYet? ==> StatusOf(t, v) == StatusOf(s, v) && ChangedOf(t, v) == ChangedOf(s, v))
    && (s.halt ==> t.halt)
  }

  lemma LocalRecords(c: Config, s: State, t: State, id: Id)
    requires Records(c, s) && id in s.workers && t.ch == s.ch
    requires t.workers.Keys == s.workers.Keys && t.status.Keys == s.status.Keys && t.changed.Keys == s.changed.Keys
    requires forall v :: v in s.workers && v != id ==> t.workers[v] == s.workers[v]
    requires forall v :: v in s.status && v != id ==> t.status[v] == s.status[v]
    requires forall v :: v in s.changed && v != id ==> t.changed[v] == s.changed[v]
    requires StatusOf(s, id).NotYet? && (s.halt ==> t.halt)
    requires StatusOf(t, id).NotYet? <==> t.workers[id] != Sending
    ensures Records(c, t) && Settles(s, t)
  {
    assert id !in s.ch.sent;
    forall v | v in c.nodes ensures StatusOf(t, v).NotYet? <==> !Reported(t, v) {
      assert v != id ==> (Reported(t, v) <==> Reported(s, v));
    }
  }

  ghost predicate NewWorker(c: Config, s: State)
    requires s.ch.taken < |s.ch.queued|
  {
    var id := s.ch.queued[s.ch.taken];
    id in c.nodes && id !in s.workers && id !in s.ch.sent
  }

  lemma DispatchRecords(c: Config, s: State)
    requires Records(c, s) && Enabled(c, s, Dispatch) && NewWorker(c, s)
    ensures Records(c, Step(c, s, Dispatch)) && Settles(s, Step(c, s, Dispatch))
  {
    assert forall v :: Reported(Step(c, s, Dispatch), v) <==> Reported(s, v);
  }

  lemma SendRecords(c: Config, s: State, t: State, id: Id)
    requires Records(c, s) && At(s, id, Sending) && t.workers == s.workers - {id} && t.ch.sent == s.ch.sent + [id]
    requires t.status == s.status && t.changed == s.changed && t.halt == s.halt
    ensures Records(c, t) && Settles(s, t)
  {
    assert forall v :: v in t.ch.sent <==> v in s.ch.sent || v == id;
    assert t.workers.Keys == s.workers.Keys - {id};
    assert forall v :: Reported(t, v) <==> Reported(s, v);
  }

  lemma QuietRecords(c: Config, s: State, t: State)
    requires Records(c, s) && t.ch.sent == s.ch.sent && t.halt == s.halt
    requires t.workers == s.workers && t.status == s.status && t.changed == s.changed
    ensures Records(c, t) && Settles(s, t)
  {
    assert forall v :: Reported(t, v) <==> Reported(s, v);
  }

  lemma DecideRecords(c: Config, s: State, id: Id)
    requires Records(c, s) && id in c.nodes && At(s, id, Start)
    ensures Records(c, AfterDecide(c, s, id)) && Settles(s, AfterDecide(c, s, id))
  {
    assert !Reported(s, id);
    LocalRecords(c, s, AfterDecide(c, s, id), id);
  }

  lemma FinishRecords(c: Config, s: State, id: Id)
    requires Records(c, s) && CanFinish(c, s, id)
    ensures Records(c, AfterFinish(c, s, id)) && Settles(s, AfterFinish(c, s, id))
  {
    assert !Reported(s, id);
    LocalRecords(c, s, AfterFinish(c, s, id), id);
  }

  lemma StartTargetRecords(c: Config, s: State, id: Id)
    requires Records(c, s) && CanStartTarget(c, s, id)
    ensures Records(c, AfterStartTarget(c, s, id)) && Settles(s, AfterStartTarget(c, s, id))
  {
    assert !Reported(s, id);
    LocalRecords(c, s, AfterStartTarget(c, s, id), id);
  }

  lemma EndTargetRecords(c: Config, s: State, l: Label)
    requires Records(c, s) && l.EndTarget? && Enabled(c, s, l)
    ensures Records(c, Step(c, s, l)) && Settles(s, Step(c, s, l))
  {
    assert !Reported(s, l.id);
    LocalRecords(c, s, Step(c, s, l), l.id);
  }

  lemma RecordSkipRecords(c: Config, s: State, id: Id)
    requires Records(c, s) && At(s, id, Skipping)
    ensures Records(c, Step(c, s, RecordSkip(id))) && Settles(s, Step(c, s, RecordSkip(id)))
  {
    assert !Reported(s, id);
    LocalRecords(c, s, Step(c, s, RecordSkip(id)), id);
  }

  lemma StepRecords(c: Config, s: State, l: Label)
    requires Flow(c, s.ch, s.workers.Keys) && Records(c, s) && Enabled(c, s, l)
    ensures Records(c, Step(c, s, l)) && Settles(s, Step(c, s, l))
  {
    if l.Dispatch? { DispatchFlow(c, s.ch, s.workers.Keys); }
    if l.Dispatch? || l.Send? || l.Receive? || l.Timeout? {
      ChannelRecords(c, s, l);
    } else {
      WorkRecords(c, s, l);
    }
  }

  lemma ChannelRecords(c: Config, s: State, l: Label)
    requires Records(c, s) && Enabled(c, s, l) && (l.Dispatch? ==> NewWorker(c, s))
    requires l.Dispatch? || l.Send? || l.Receive? || l.Timeout?
    ensures Records(c, Step(c, s, l)) && Settles(s, Step(c, s, l))
  {
    match l
    case Dispatch => DispatchRecords(c, s);
    case Send(id) => SendRecords(c, s, Step(c, s, l), id);
    case Receive => QuietRecords(c, s, Step(c, s, l));
    case Timeout => QuietRecords(c, s, Step(c, s, l));
  }

  lemma WorkRecords(c: Config, s: State, l: Label)
    requires Records(c, s) && Enabled(c, s, l) && !l.Dispatch? && !l.Send? && !l.Receive? && !l.Timeout?
    ensures Records(c, Step(c, s, l)) && Settles(s, Step(c, s, l))
  {
    match l
    case Decide(id) => DecideRecords(c, s, id);
    case RecordSkip(id) => RecordSkipRecords(c, s, id);
    case StartTarget(id) => StartTargetRecords(c, s, id);
    case EndTarget(id, k, res) => EndTargetRecords(c, s, l);
    case Finish(id) => FinishRecords(c, s, id);
  }

  /** Target k of v has been handed out (or passed over). */
  ghost predicate Begun(c: Config, s: State, v: Id, k: nat) {
    v in c.nodes && k < |c.nodes[v].targets| && ((RunningAt(s, v) && k < s.workers[v].next) || HasRun(s, v))
  }

  ghost predicate Targets(c: Config, s: State) {
    && s.over <= s.begun && |Active(s)| <= c.parallelism
    && (forall v :: v in c.nodes && RunningAt(s, v) ==> s.workers[v].next <= |c.nodes[v].targets|)
    && (forall v, k: nat :: (v, k) in s.begun <==> Begun(c, s, v, k))
    && (forall v, k: nat :: (v, k) in Active(s) ==> RunningAt(s, v))
  }

  /** A step that hands out and finishes no target keeps the books if `Begun` reads the same. */
  lemma SameTargets(c: Config, s: State, t: State)
    requires Targets(c, s) && t.begun == s.begun && t.over == s.over
    requires forall v, k: nat :: Begun(c, t, v, k) <==> Begun(c, s, v, k)
    requires forall v, k: nat :: (v, k) in Active(s) ==> RunningAt(t, v)
    requires forall v :: v in c.nodes && RunningAt(t, v) ==> t.workers[v].next <= |c.nodes[v].targets|
    ensures Targets(c, t)
  {
    assert Active(t) == Active(s);
  }

  lemma DispatchTargets(c: Config, s: State)
    requires Targets(c, s) && Enabled(c, s, Dispatch) && NewWorker(c, s)
    ensures Targets(c, Step(c, s, Dispatch))
  {
    var t := Step(c, s, Dispatch);
    assert forall v :: RunningAt(t, v) <==> RunningAt(s, v);
    SameTargets(c, s, t);
  }

  lemma DecideTargets(c: Config, s: State, id: Id)
    requires Records(c, s) && Targets(c, s) && id in c.nodes && At(s, id, Start)
    ensures Targets(c, AfterDecide(c, s, id))
  {
    var t := AfterDecide(c, s, id);
    assert !Reported(s, id);
    forall v, k: nat ensures Begun(c, t, v, k) <==> Begun(c, s, v, k) { DecideBegun(c, s, id, v, k); }
    forall v | RunningAt(t, v) ensures RunningAt(s, v) || (v == id && t.workers[v].next == 0) {}
    SameTargets(c, s, t);
  }

  lemma DecideBegun(c: Config, s: State, id: Id, v: Id, k: nat)
    requires id in c.nodes && At(s, id, Start) && StatusOf(s, id).NotYet?
    ensures Begun(c, AfterDecide(c, s, id), v, k) <==> Begun(c, s, v, k)
  {
  }

  lemma RecordSkipTargets(c: Config, s: State, id: Id)
    requires Records(c, s) && Targets(c, s) && At(s, id, Skipping)
    ensures Targets(c, s.(status := s.status[id := Skipped], workers := s.workers[id := Sending]))
  {
    var t := s.(status := s.status[id := Skipped], workers := s.workers[id := Sending]);
    assert !Reported(s, id);
    assert forall v :: (HasRun(t, v) <==> HasRun(s, v)) && (RunningAt(t, v) <==> RunningAt(s, v));
    SameTargets(c, s, t);
  }

  lemma SendTargets(c: Config, s: State, t: State, id: Id)
    requires Targets(c, s) && At(s, id, Sending) && t.workers == s.workers - {id}
    requires t.status == s.status && t.begun == s.begun && t.over == s.over
    ensures Targets(c, t)
  {
    assert forall v :: RunningAt(t, v) <==> RunningAt(s, v);
    SameTargets(c, s, t);
  }

  lemma QuietTargets(c: Config, s: State, t: State)
    requires Targets(c, s) && t.workers == s.workers && t.status == s.status && t.begun == s.begun && t.over == s.over
    ensures Targets(c, t)
  {
    assert forall v :: RunningAt(t, v) <==> RunningAt(s, v);
    SameTargets(c, s, t);
  }

  lemma StartTargetTargets(c: Config, s: State, id: Id)
    requires Records(c, s) && Targets(c, s) && CanStartTarget(c, s, id)
    ensures Targets(c, AfterStartTarget(c, s, id))
    ensures (id, s.workers[id].next) !in s.begun
  {
    assert !Reported(s, id);
    assert !Begun(c, s, id, s.workers[id].next);
    StartTargetActive(c, s, id);
    StartTargetBooks(c, s, id);
    assert forall v :: RunningAt(AfterStartTarget(c, s, id), v) <==> RunningAt(s, v);
  }

  lemma StartTargetBooks(c: Config, s: State, id: Id)
    requires CanStartTarget(c, s, id) && StatusOf(s, id).NotYet?
    requires forall v, k: nat :: (v, k) in s.begun <==> Begun(c, s, v, k)
    ensures forall v, k: nat :: (v, k) in AfterStartTarget(c, s, id).begun <==>
      Begun(c, AfterStartTarget(c, s, id), v, k)
  {
    forall v, k: nat
      ensures (v, k) in AfterStartTarget(c, s, id).begun <==> Begun(c, AfterStartTarget(c, s, id), v, k)
    {
      StartTargetBegun(c, s, id, v, k);
    }
  }

  lemma StartTargetBegun(c: Config, s: State, id: Id, v: Id, k: nat)
    requires CanStartTarget(c, s, id) && StatusOf(s, id).NotYet?
    ensures Begun(c, AfterStartTarget(c, s, id), v, k) <==> Begun(c, s, v, k) || (v, k) == (id, s.workers[id].next)
  {
  }

  lemma StartTargetActive(c: Config, s: State, id: Id)
    requires CanStartTarget(c, s, id) && (id, s.workers[id].next) !in s.begun && s.over <= s.begun
    requires |Active(s)| <= c.parallelism
    ensures var t := AfterStartTarget(c, s, id);
            && |Active(t)| <= c.parallelism && t.over <= t.begun
            && (forall p :: p in Active(t) ==> p in Active(s) || p == (id, s.workers[id].next))
  {
    var t, p := AfterStartTarget(c, s, id), (id, s.workers[id].next);
    assert Active(t) == if t.over == s.over then Active(s) + {p} else Active(s);
  }

  lemma EndTargetTargets(c: Config, s: State, id: Id, k: nat, res: TargetResult)
    requires Targets(c, s) && Enabled(c, s, EndTarget(id, k, res))
    ensures Targets(c, Step(c, s, EndTarget(id, k, res)))
  {
    var t := Step(c, s, EndTarget(id, k, res));
    assert Active(t) == Active(s) - {(id, k)};
    forall v, j: nat ensures (v, j) in t.begun <==> Begun(c, t, v, j) {
      assert Begun(c, t, v, j) <==> Begun(c, s, v, j);
    }
  }

  lemma FinishTargets(c: Config, s: State, id: Id)
    requires Records(c, s) && Targets(c, s) && CanFinish(c, s, id)
    ensures Targets(c, AfterFinish(c, s, id))
  {
    var t := AfterFinish(c, s, id);
    assert !Reported(s, id);
    assert forall v :: v != id ==> (HasRun(t, v) <==> HasRun(s, v)) && (RunningAt(t, v) <==> RunningAt(s, v));
    forall v, k: nat | (v, k) in Active(s) ensures RunningAt(t, v) {
      assert Begun(c, s, v, k);
    }
    SameTargets(c, s, t);
  }

  lemma StepTargets(c: Config, s: State, l: Label)
    requires Flow(c, s.ch, s.workers.Keys) && Records(c, s) && Targets(c, s) && Enabled(c, s, l)
    ensures Targets(c, Step(c, s, l))
  {
    if l.Dispatch? { DispatchFlow(c, s.ch, s.workers.Keys); }
    if l.Dispatch? || l.Send? || l.Receive? || l.Timeout? {
      ChannelTargets(c, s, l);
    } else {
      WorkTargets(c, s, l);
    }
  }

  lemma ChannelTargets(c: Config, s: State, l: Label)
    requires Targets(c, s) && Enabled(c, s, l) && (l.Dispatch? ==> NewWorker(c, s))
    requires l.Dispatch? || l.Send? || l.Receive? || l.Timeout?
    ensures Targets(c, Step(c, s, l))
  {
    match l
    case Dispatch => DispatchTargets(c, s);
    case Send(id) => SendTargets(c, s, Step(c, s, l), id);
    case Receive => QuietTargets(c, s, Step(c, s, l));
    case Timeout => QuietTargets(c, s, Step(c, s, l));
  }

  lemma WorkTargets(c: Config, s: State, l: Label)
    requires Records(c, s) && Targets(c, s) && Enabled(c, s, l)
    requires !l.Dispatch? && !l.Send? && !l.Receive? && !l.Timeout?
    ensures Targets(c, Step(c, s, l))
  {
    match l
    case Decide(id) => DecideTargets(c, s, id);
    case StartTarget(id) => StartTargetTargets(c, s, id);
    case EndTarget(id, k, res) => EndTargetTargets(c, s, id, k, res);
    case Finish(id) => FinishTargets(c, s, id);
    case RecordSkip(id) => RecordSkipTargets(c, s, id);
  }
}
