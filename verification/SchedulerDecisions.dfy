/** Each node is judged once, and what the goroutine saw then decides whether it is skipped. */
module SchedulerDecisions {
  import opened Scheduler
  import opened SchedulerPhases
  import opened SchedulerCauses
  import opened Wrappers
  import opened Digraph

  /** What a node goroutine checks in its first critical section. */
  predicate Refused(c: Config, m: State, v: Id)
    requires v in c.nodes
  {
    m.halt || Blocked(c, m, v) || WhenUnmet(c, m, v)
  }

  /** The k-th step of the run judged v, in state m. */
  ghost predicate JudgedAt(c: Config, s0: State, ls: seq<Label>, v: Id, k: nat, m: State) {
    k < |ls| && ls[k] == Decide(v) && After(c, s0, ls[..k]) == Some(m)
  }

  ghost predicate Judged(s: State, v: Id) {
    Skips(s, v) || Admitted(s, v)
  }

  ghost predicate WasJudged(c: Config, s0: State, ls: seq<Label>, v: Id) {
    exists k: nat, m: State :: JudgedAt(c, s0, ls, v, k, m)
  }

  ghost predicate EachJudgedOnce(c: Config, s0: State, ls: seq<Label>, s: State) {
    && (forall v, k: nat, m :: JudgedAt(c, s0, ls, v, k, m) ==>
         v in c.nodes && Judged(s, v) && (Skips(s, v) <==> Refused(c, m, v)))
    && (forall v :: Judged(s, v) ==> WasJudged(c, s0, ls, v))
  }

  /** A step that does not judge v leaves it as it was. */
  ghost predicate SameJudged(s: State, t: State, v: Id) {
    (Skips(t, v) <==> Skips(s, v)) && (Admitted(t, v) <==> Admitted(s, v))
  }

  lemma DispatchSame(c: Config, s: State, v: Id)
    requires Enabled(c, s, Dispatch) && NewWorker(c, s)
    ensures SameJudged(s, Step(c, s, Dispatch), v)
  {
  }

  lemma SendSame(c: Config, s: State, id: Id, v: Id)
    requires Enabled(c, s, Send(id))
    ensures SameJudged(s, Step(c, s, Send(id)), v)
  {
  }

  lemma ChannelSame(c: Config, s: State, l: Label, v: Id)
    requires Enabled(c, s, l) && (l.Dispatch? ==> NewWorker(c, s))
    requires l.Dispatch? || l.Send? || l.Receive? || l.Timeout?
    ensures SameJudged(s, Step(c, s, l), v)
  {
    match l
    case Dispatch => DispatchSame(c, s, v);
    case Send(id) => SendSame(c, s, id, v);
    case Receive =>
    case Timeout =>
  }

  lemma WorkSame(c: Config, s: State, l: Label, v: Id)
    requires Enabled(c, s, l) && (l.RecordSkip? || l.StartTarget? || l.EndTarget? || l.Finish?)
    requires StatusOf(s, l.id).NotYet?
    ensures SameJudged(s, Step(c, s, l), v)
  {
  }

  lemma DecideOther(c: Config, s: State, id: Id, v: Id)
    requires id in c.nodes && At(s, id, Start) && v != id
    ensures SameJudged(s, AfterDecide(c, s, id), v)
  {
  }

  lemma StepSame(c: Config, s: State, l: Label, v: Id)
    requires Records(c, s) && Causes(c, s) && Enabled(c, s, l) && (l.Dispatch? ==> NewWorker(c, s)) && l != Decide(v)
    ensures SameJudged(s, Step(c, s, l), v)
  {
    if l.Decide? {
      DecideOther(c, s, l.id, v);
    } else if l.RecordSkip? || l.StartTarget? || l.EndTarget? || l.Finish? {
      OpenRecord(c, s, l.id);
      WorkSame(c, s, l, v);
    } else {
      ChannelSame(c, s, l, v);
    }
  }

  lemma DecideSelf(c: Config, s: State, v: Id)
    requires v in c.nodes && At(s, v, Start) && StatusOf(s, v).NotYet?
    ensures !Judged(s, v)
    ensures var t := AfterDecide(c, s, v);
            Judged(t, v) && (Skips(t, v) <==> Refused(c, s, v))
  {
  }

  lemma EarlierJudgement(c: Config, s0: State, ls: seq<Label>, l: Label, v: Id, k: nat, m: State)
    requires k < |ls|
    ensures JudgedAt(c, s0, ls + [l], v, k, m) <==> JudgedAt(c, s0, ls, v, k, m)
  {
    assert (ls + [l])[..k] == ls[..k];
  }

  lemma StepJudged(c: Config, s0: State, ls: seq<Label>, s: State, l: Label)
    requires Records(c, s) && Causes(c, s) && Enabled(c, s, l) && (l.Dispatch? ==> NewWorker(c, s))
    requires After(c, s0, ls) == Some(s) && EachJudgedOnce(c, s0, ls, s)
    ensures EachJudgedOnce(c, s0, ls + [l], Step(c, s, l))
  {
    var t, all := Step(c, s, l), ls + [l];
    forall v, k: nat, m | JudgedAt(c, s0, all, v, k, m)
      ensures v in c.nodes && Judged(t, v) && (Skips(t, v) <==> Refused(c, m, v))
    {
      JudgementHolds(c, s0, ls, s, l, v, k, m);
    }
    forall v | Judged(t, v) ensures WasJudged(c, s0, all, v) {
      JudgementExists(c, s0, ls, s, l, v);
    }
  }

  lemma JudgementHolds(c: Config, s0: State, ls: seq<Label>, s: State, l: Label, v: Id, k: nat, m: State)
    requires Records(c, s) && Causes(c, s) && Enabled(c, s, l) && (l.Dispatch? ==> NewWorker(c, s))
    requires After(c, s0, ls) == Some(s) && EachJudgedOnce(c, s0, ls, s) && JudgedAt(c, s0, ls + [l], v, k, m)
    ensures var t := Step(c, s, l);
            v in c.nodes && Judged(t, v) && (Skips(t, v) <==> Refused(c, m, v))
  {
    if l == Decide(v) { OpenRecord(c, s, v); DecideSelf(c, s, v); } else { StepSame(c, s, l, v); }
    if k < |ls| {
      EarlierJudgement(c, s0, ls, l, v, k, m);
    } else {
      assert (ls + [l])[..k] == ls;
    }
  }

  lemma JudgementExists(c: Config, s0: State, ls: seq<Label>, s: State, l: Label, v: Id)
    requires Records(c, s) && Causes(c, s) && Enabled(c, s, l) && (l.Dispatch? ==> NewWorker(c, s))
    requires After(c, s0, ls) == Some(s) && EachJudgedOnce(c, s0, ls, s) && Judged(Step(c, s, l), v)
    ensures WasJudged(c, s0, ls + [l], v)
  {
    if l == Decide(v) {
      assert (ls + [l])[..|ls|] == ls;
      assert JudgedAt(c, s0, ls + [l], v, |ls|, s);
    } else {
      StepSame(c, s, l, v);
      assert WasJudged(c, s0, ls, v);
      var k: nat, m :| JudgedAt(c, s0, ls, v, k, m);
      EarlierJudgement(c, s0, ls, l, v, k, m);
      assert JudgedAt(c, s0, ls + [l], v, k, m);
    }
  }

  /** Every node was judged, and is recorded skipped if and only if it was refused then. */
  ghost predicate SkipsAreDecided(c: Config, s0: State, ls: seq<Label>, s: State) {
    forall v :: v in c.nodes ==>
      exists k: nat, m :: JudgedAt(c, s0, ls, v, k, m) && (StatusOf(s, v).Skipped? <==> Refused(c, m, v))
  }

  lemma SettledWasJudged(c: Config, s0: State, ls: seq<Label>, s: State)
    requires EachJudgedOnce(c, s0, ls, s) && s.workers == map[]
    requires forall v :: v in c.nodes ==> !StatusOf(s, v).NotYet?
    ensures SkipsAreDecided(c, s0, ls, s)
  {
    forall v | v in c.nodes
      ensures exists k: nat, m :: JudgedAt(c, s0, ls, v, k, m) && (StatusOf(s, v).Skipped? <==> Refused(c, m, v))
    {
      assert Judged(s, v) && WasJudged(c, s0, ls, v);
      var k: nat, m :| JudgedAt(c, s0, ls, v, k, m);
      assert Skips(s, v) <==> StatusOf(s, v).Skipped?;
    }
  }
}
