/** When nothing halts the run, the interleaving does not matter: the controller computes the
    recursive evaluation of the plan over its dependency graph. */
module ScheduleIndependence {
  import opened Digraph
  import opened Wrappers
  import opened ExecutionGraph
  import opened Scheduler
  import opened SchedulerPhases
  import opened SchedulerCauses
  import opened SchedulerTheorems

  /** What running target k of a node answers, retries included: an error, and a change. */
  type Oracle = (Id, nat) -> (bool, bool)

  /** Nothing can halt or cancel. */
  ghost predicate Lenient(c: Config) {
    Good(c) && !c.timeout && forall v :: v in c.nodes ==> c.nodes[v].policy.Continue?
  }

  /** What v watches has settled before v is judged. */
  ghost predicate WatchesBehind(c: Config, v: Id, w: Id) {
    Reaches(DepGraph(c.nodes), v, w)
  }

  /** w cannot have changed when v is judged: it comes after v, it is v, or it never changes. */
  ghost predicate NeverChangedFor(c: Config, v: Id, w: Id) {
    w == v || Reaches(DepGraph(c.nodes), w, v) || forall k: nat :: !KnownTarget(c, w, k)
  }

  /** The verdict on v's `when` does not depend on the moment it is read. */
  ghost predicate Steady(c: Config, v: Id)
    requires v in c.nodes
  {
    var w := c.nodes[v].cond;
    w.Some? ==> WatchesBehind(c, v, w.value.node) || NeverChangedFor(c, v, w.value.node)
  }

  ghost predicate Calm(c: Config) {
    Lenient(c) && forall v :: v in c.nodes ==> Steady(c, v)
  }

  ghost predicate Answers(o: Oracle, l: Label) {
    l.EndTarget? ==> l.res == Ran(o(l.id, l.k).0, o(l.id, l.k).1)
  }

  ghost function Height(rank: map<Id, nat>, v: Id): nat {
    if v in rank then rank[v] else 0
  }

  ghost predicate Topological(c: Config, rank: map<Id, nat>) {
    Calm(c) && IsRanking(DepGraph(c.nodes), rank)
  }

  lemma WhenLower(c: Config, rank: map<Id, nat>, v: Id, w: Id)
    requires Topological(c, rank) && v in c.nodes && WatchesBehind(c, v, w)
    ensures w in c.nodes && Height(rank, w) < Height(rank, v)
  {
    var walk :| IsWalkBetween(DepGraph(c.nodes), walk, v, w);
    RankDropsAlongWalk(DepGraph(c.nodes), rank, walk);
    WalkEndsAtNode(c, walk);
  }

  lemma {:induction false} WalkEndsAtNode(c: Config, w: seq<Id>)
    requires Good(c) && IsWalk(DepGraph(c.nodes), w) && |w| >= 2
    ensures w[|w| - 1] in c.nodes
    decreases |w|
  {
    if |w| > 2 { WalkEndsAtNode(c, w[1..]); }
  }

  /** Some known target among `done` of node v answers with an error. */
  ghost predicate Fails(c: Config, o: Oracle, v: Id, done: set<(Id, nat)>)
    requires v in c.nodes
  {
    exists k: nat :: (v, k) in done && k < |c.nodes[v].targets| && c.nodes[v].targets[k] in c.targets && o(v, k).0
  }

  ghost predicate Changes(c: Config, o: Oracle, v: Id, done: set<(Id, nat)>)
    requires v in c.nodes
  {
    exists k: nat :: (v, k) in done && k < |c.nodes[v].targets| && c.nodes[v].targets[k] in c.targets && o(v, k).1
  }

  ghost function Outcome(c: Config, o: Oracle, v: Id): (Status, bool)
    requires v in c.nodes
  {
    (if Fails(c, o, v, AllTargets(c)) then Failed else Applied, Changes(c, o, v, AllTargets(c)))
  }

  /** The simple form: evaluate the plan by recursion on dependencies, no goroutines. */
  ghost function Verdict(c: Config, o: Oracle, rank: map<Id, nat>, v: Id): (Status, bool)
    requires Topological(c, rank) && v in c.nodes
    ensures !Verdict(c, o, rank, v).0.NotYet?
    decreases Height(rank, v)
  {
    if DependencyBad(c, o, rank, v) || WhenFalse(c, o, rank, v) then (Skipped, false) else Outcome(c, o, v)
  }

  ghost predicate DependencyBad(c: Config, o: Oracle, rank: map<Id, nat>, v: Id)
    requires Topological(c, rank) && v in c.nodes
    decreases Height(rank, v), 0
  {
    exists d :: d in c.nodes[v].dependsOn && BadVerdict(c, o, rank, v, d)
  }

  ghost predicate BadVerdict(c: Config, o: Oracle, rank: map<Id, nat>, v: Id, d: Id)
    requires Topological(c, rank) && v in c.nodes && d in c.nodes[v].dependsOn
    decreases Height(rank, v), -1
  {
    assert d in Succ(DepGraph(c.nodes), v);
    !Verdict(c, o, rank, d).0.Applied?
  }

  ghost predicate WhenFalse(c: Config, o: Oracle, rank: map<Id, nat>, v: Id)
    requires Topological(c, rank) && v in c.nodes
    decreases Height(rank, v), 0
  {
    var w := c.nodes[v].cond;
    w.Some? && w.value.changed != (WatchesBehind(c, v, w.value.node) && ChangeVerdict(c, o, rank, v, w.value.node))
  }

  ghost predicate ChangeVerdict(c: Config, o: Oracle, rank: map<Id, nat>, v: Id, w: Id)
    requires Topological(c, rank) && v in c.nodes && WatchesBehind(c, v, w)
    decreases Height(rank, v), -1
  {
    WhenLower(c, rank, v, w);
    Verdict(c, o, rank, w).1
  }

  // ---- What the controller's state says about the evaluation at every moment ----

  ghost predicate Started(c: Config, o: Oracle, rank: map<Id, nat>, s: State, v: Id)
    requires Topological(c, rank)
  {
    && v in c.nodes && RunningAt(s, v) && Verdict(c, o, rank, v) == Outcome(c, o, v)
    && (s.workers[v].failed <==> Fails(c, o, v, s.over))
    && (s.workers[v].changed <==> Changes(c, o, v, s.over))
  }

  ghost predicate Agrees(c: Config, o: Oracle, rank: map<Id, nat>, s: State)
    requires Topological(c, rank)
  {
    && !s.halt && !s.cancelled
    && (forall v :: v in c.nodes && !StatusOf(s, v).NotYet? ==>
         (StatusOf(s, v), ChangedOf(s, v)) == Verdict(c, o, rank, v))
    && (forall v :: v in c.nodes && At(s, v, Skipping) ==> Verdict(c, o, rank, v) == (Skipped, false))
    && (forall v :: RunningAt(s, v) ==> Started(c, o, rank, s, v))
    && (forall v, k: nat :: (v, k) in Active(s) ==> KnownTarget(c, v, k))
  }

  lemma DecideAgrees(c: Config, o: Oracle, rank: map<Id, nat>, s: State, id: Id)
    requires Topological(c, rank) && Agrees(c, o, rank, s) && id in c.nodes && At(s, id, Start)
    requires !Fails(c, o, id, s.over) && !Changes(c, o, id, s.over)
    requires Blocked(c, s, id) <==> DependencyBad(c, o, rank, id)
    requires WhenUnmet(c, s, id) <==> WhenFalse(c, o, rank, id)
    ensures Agrees(c, o, rank, AfterDecide(c, s, id))
  {
    var t := AfterDecide(c, s, id);
    forall v | RunningAt(t, v) ensures Started(c, o, rank, t, v) {
      if v != id { assert Started(c, o, rank, s, v); }
    }
  }

  lemma NothingBegun(c: Config, o: Oracle, s: State, id: Id)
    requires Targets(c, s) && id in c.nodes && At(s, id, Start) && StatusOf(s, id).NotYet?
    ensures !Fails(c, o, id, s.over) && !Changes(c, o, id, s.over)
  {
    forall k: nat ensures (id, k) !in s.over {
      assert !Begun(c, s, id, k);
    }
  }

  lemma SameBlocked(c: Config, o: Oracle, rank: map<Id, nat>, s: State, id: Id)
    requires Topological(c, rank) && Behind(c, s) && Records(c, s) && Agrees(c, o, rank, s) && id in c.nodes
        && id in s.workers
    ensures Blocked(c, s, id) <==> DependencyBad(c, o, rank, id)
  {
    forall d | d in c.nodes[id].dependsOn
      ensures BadVerdict(c, o, rank, id, d) <==> (StatusOf(s, d).Failed? || StatusOf(s, d).Skipped?)
    {
      EdgeReaches(DepGraph(c.nodes), id, d);
      assert Reported(s, d);
      assert d in c.nodes && !StatusOf(s, d).NotYet?;
    }
  }

  lemma SameWhen(c: Config, o: Oracle, rank: map<Id, nat>, s: State, id: Id)
    requires Topological(c, rank) && Behind(c, s) && Records(c, s) && Causes(c, s) && Agrees(c, o, rank, s)
    requires id in c.nodes && At(s, id, Start)
    ensures WhenUnmet(c, s, id) <==> WhenFalse(c, o, rank, id)
  {
    if c.nodes[id].cond.Some? {
      var w := c.nodes[id].cond.value.node;
      assert Steady(c, id);
      if WatchesBehind(c, id, w) {
        WhenLower(c, rank, id, w);
        assert Reported(s, w);
        assert !StatusOf(s, w).NotYet?;
      } else {
        NotChangedYet(c, o, rank, s, id, w);
      }
    }
  }

  lemma NotChangedYet(c: Config, o: Oracle, rank: map<Id, nat>, s: State, id: Id, w: Id)
    requires Topological(c, rank) && Behind(c, s) && Records(c, s) && Causes(c, s) && Agrees(c, o, rank, s)
    requires id in c.nodes && At(s, id, Start) && NeverChangedFor(c, id, w)
    ensures !ChangedOf(s, w)
  {
    OpenRecord(c, s, id);
    if ChangedOf(s, w) {
      assert HasRun(s, w) && w in c.nodes;
      assert Reported(s, w) && w != id;
      assert (w in s.workers || w in s.ch.sent) && !Reported(s, id);
      if !Reaches(DepGraph(c.nodes), w, id) {
        assert Verdict(c, o, rank, w) == (StatusOf(s, w), true);
        NoTargetNoChange(c, o, w);
      }
    }
  }

  lemma NoTargetNoChange(c: Config, o: Oracle, w: Id)
    requires w in c.nodes && forall k: nat :: !KnownTarget(c, w, k)
    ensures !Outcome(c, o, w).1
  {
    if Changes(c, o, w, AllTargets(c)) {
      var k: nat :| (w, k) in AllTargets(c) && k < |c.nodes[w].targets| && c.nodes[w].targets[k] in c.targets
          && o(w, k).1;
      assert KnownTarget(c, w, k);
    }
  }

  /** Finishing or passing over target k of node id tells on no other node. */
  lemma OverElsewhere(c: Config, o: Oracle, s: State, id: Id, k: nat, v: Id)
    requires v in c.nodes && (v == id ==> !KnownTarget(c, id, k))
    ensures Fails(c, o, v, s.over + {(id, k)}) <==> Fails(c, o, v, s.over)
    ensures Changes(c, o, v, s.over + {(id, k)}) <==> Changes(c, o, v, s.over)
  {
  }

  lemma StartTargetStarted(c: Config, o: Oracle, rank: map<Id, nat>, s: State, id: Id, v: Id)
    requires Topological(c, rank) && CanStartTarget(c, s, id) && Started(c, o, rank, s, v)
    ensures Started(c, o, rank, AfterStartTarget(c, s, id), v)
  {
    if AfterStartTarget(c, s, id).over != s.over { OverElsewhere(c, o, s, id, s.workers[id].next, v); }
  }

  lemma StartTargetAgrees(c: Config, o: Oracle, rank: map<Id, nat>, s: State, id: Id)
    requires Topological(c, rank) && Agrees(c, o, rank, s) && CanStartTarget(c, s, id)
    ensures Agrees(c, o, rank, AfterStartTarget(c, s, id))
  {
    var t, k := AfterStartTarget(c, s, id), s.workers[id].next;
    forall v | RunningAt(t, v) ensures Started(c, o, rank, t, v) {
      assert RunningAt(s, v);
      StartTargetStarted(c, o, rank, s, id, v);
    }
    forall v, j: nat | (v, j) in Active(t) ensures KnownTarget(c, v, j) {
      assert (v, j) == (id, k) || (v, j) in Active(s);
    }
  }

  lemma EndTargetStarted(c: Config, o: Oracle, rank: map<Id, nat>, s: State, id: Id, k: nat, t: State, v: Id)
    requires Topological(c, rank) && Started(c, o, rank, s, v) && KnownTarget(c, id, k) && RunningAt(s, id)
    requires t.over == s.over + {(id, k)}
    requires t.workers == s.workers[id := AddResult(s.workers[id], Ran(o(id, k).0, o(id, k).1))]
    ensures Started(c, o, rank, t, v)
  {
    if v != id {
      OverElsewhere(c, o, s, id, k, v);
    } else {
      assert (id, k) in t.over;
      assert Fails(c, o, v, t.over) <==> Fails(c, o, v, s.over) || o(id, k).0;
      assert Changes(c, o, v, t.over) <==> Changes(c, o, v, s.over) || o(id, k).1;
    }
  }

  lemma EndTargetAgrees(c: Config, o: Oracle, rank: map<Id, nat>, s: State, id: Id, k: nat, res: TargetResult)
    requires Topological(c, rank) && Agrees(c, o, rank, s) && Enabled(c, s, EndTarget(id, k, res))
    requires res == Ran(o(id, k).0, o(id, k).1)
    ensures Agrees(c, o, rank, Step(c, s, EndTarget(id, k, res)))
  {
    var t := Step(c, s, EndTarget(id, k, res));
    forall v | RunningAt(t, v) ensures Started(c, o, rank, t, v) {
      assert RunningAt(s, v);
      EndTargetStarted(c, o, rank, s, id, k, t, v);
    }
    assert forall v, j: nat :: (v, j) in Active(t) ==> (v, j) in Active(s);
  }

  lemma FinishAgrees(c: Config, o: Oracle, rank: map<Id, nat>, s: State, id: Id)
    requires Topological(c, rank) && Agrees(c, o, rank, s) && CanFinish(c, s, id)
    requires Fails(c, o, id, s.over) <==> Fails(c, o, id, AllTargets(c))
    requires Changes(c, o, id, s.over) <==> Changes(c, o, id, AllTargets(c))
    ensures Agrees(c, o, rank, AfterFinish(c, s, id))
  {
    var t := AfterFinish(c, s, id);
    assert Started(c, o, rank, s, id);
    FinishWrites(c, s, id);
    forall v | RunningAt(t, v) ensures Started(c, o, rank, t, v) {
      assert Started(c, o, rank, s, v);
    }
  }

  lemma FinishWrites(c: Config, s: State, id: Id)
    requires CanFinish(c, s, id) && c.nodes[id].policy.Continue? && !s.halt && !s.cancelled
    ensures var t, w := AfterFinish(c, s, id), s.workers[id];
            && (StatusOf(t, id), ChangedOf(t, id)) == (if w.failed then Failed else Applied, w.changed)
            && (forall v :: v != id ==> StatusOf(t, v) == StatusOf(s, v) && ChangedOf(t, v) == ChangedOf(s, v))
            && (forall v :: v != id ==>
                 (RunningAt(t, v) <==> RunningAt(s, v)) && (At(t, v, Skipping) <==> At(s, v, Skipping)))
            && !RunningAt(t, id) && !At(t, id, Skipping) && !t.halt && !t.cancelled
            && t.begun == s.begun && t.over == s.over
  {
  }

  lemma AllOver(c: Config, o: Oracle, s: State, id: Id)
    requires Targets(c, s) && CanFinish(c, s, id)
    ensures Fails(c, o, id, s.over) <==> Fails(c, o, id, AllTargets(c))
    ensures Changes(c, o, id, s.over) <==> Changes(c, o, id, AllTargets(c))
  {
    forall k: nat | k < |c.nodes[id].targets| ensures (id, k) in s.over && (id, k) in AllTargets(c) {
      assert Begun(c, s, id, k);
      assert (id, k) !in Active(s);
    }
  }

  lemma RecordSkipAgrees(c: Config, o: Oracle, rank: map<Id, nat>, s: State, t: State, id: Id)
    requires Topological(c, rank) && Agrees(c, o, rank, s) && id in c.nodes && At(s, id, Skipping) && !ChangedOf(s, id)
    requires t == s.(status := s.status[id := Skipped], workers := s.workers[id := Sending])
    ensures Agrees(c, o, rank, t)
  {
    forall v | RunningAt(t, v) ensures Started(c, o, rank, t, v) {
      assert Started(c, o, rank, s, v);
    }
  }

  lemma ChannelAgrees(c: Config, o: Oracle, rank: map<Id, nat>, s: State, t: State)
    requires Topological(c, rank) && Agrees(c, o, rank, s)
    requires t.status == s.status && t.changed == s.changed && !t.halt && !t.cancelled && t.begun == s.begun
        && t.over == s.over
    requires forall v :: At(t, v, Skipping) ==> At(s, v, Skipping)
    requires forall v :: RunningAt(t, v) ==> RunningAt(s, v) && t.workers[v] == s.workers[v]
    ensures Agrees(c, o, rank, t)
  {
    forall v | RunningAt(t, v) ensures Started(c, o, rank, t, v) {
      assert Started(c, o, rank, s, v);
    }
  }

  lemma StepAgrees(c: Config, o: Oracle, rank: map<Id, nat>, s: State, l: Label)
    requires Topological(c, rank) && Inv(c, s) && Agrees(c, o, rank, s) && Enabled(c, s, l) && Answers(o, l)
    ensures Agrees(c, o, rank, Step(c, s, l))
  {
    if l.Dispatch? || l.Send? || l.Receive? || l.Timeout? {
      ChannelStep(c, o, rank, s, l);
    } else {
      WorkStep(c, o, rank, s, l);
    }
  }

  lemma WorkStep(c: Config, o: Oracle, rank: map<Id, nat>, s: State, l: Label)
    requires Topological(c, rank) && Inv(c, s) && Agrees(c, o, rank, s) && Enabled(c, s, l) && Answers(o, l)
    requires !l.Dispatch? && !l.Send? && !l.Receive? && !l.Timeout?
    ensures Agrees(c, o, rank, Step(c, s, l))
  {
    match l
    case Decide(id) => DecideStep(c, o, rank, s, id);
    case RecordSkip(id) => OpenRecord(c, s, id); RecordSkipAgrees(c, o, rank, s, Step(c, s, l), id);
    case StartTarget(id) => StartTargetAgrees(c, o, rank, s, id);
    case EndTarget(id, k, res) => EndTargetAgrees(c, o, rank, s, id, k, res);
    case Finish(id) => AllOver(c, o, s, id); FinishAgrees(c, o, rank, s, id);
  }

  lemma ChannelStep(c: Config, o: Oracle, rank: map<Id, nat>, s: State, l: Label)
    requires Topological(c, rank) && Agrees(c, o, rank, s) && Enabled(c, s, l)
    requires l.Dispatch? || l.Send? || l.Receive? || l.Timeout?
    ensures Agrees(c, o, rank, Step(c, s, l))
  {
    match l
    case Dispatch => ChannelAgrees(c, o, rank, s, Step(c, s, Dispatch));
    case Send(id) => ChannelAgrees(c, o, rank, s, Step(c, s, Send(id)));
    case Receive => ChannelAgrees(c, o, rank, s, Step(c, s, Receive));
    case Timeout =>
  }

  lemma DecideStep(c: Config, o: Oracle, rank: map<Id, nat>, s: State, id: Id)
    requires Topological(c, rank) && Inv(c, s) && Agrees(c, o, rank, s) && id in c.nodes && At(s, id, Start)
    ensures Agrees(c, o, rank, AfterDecide(c, s, id))
  {
    FlowBehind(c, s);
    OpenRecord(c, s, id);
    SameBlocked(c, o, rank, s, id);
    SameWhen(c, o, rank, s, id);
    NothingBegun(c, o, s, id);
    DecideAgrees(c, o, rank, s, id);
  }

  lemma InitAgrees(c: Config, o: Oracle, rank: map<Id, nat>, s: State)
    requires Topological(c, rank) && Init(c, s)
    ensures Agrees(c, o, rank, s)
  {
  }

  lemma {:induction false} RunAgrees(c: Config, o: Oracle, rank: map<Id, nat>, s0: State, ls: seq<Label>, s: State)
    requires Topological(c, rank) && Init(c, s0) && After(c, s0, ls) == Some(s)
    requires forall l :: l in ls ==> Answers(o, l)
    ensures Agrees(c, o, rank, s)
    decreases |ls|
  {
    if ls == [] {
      InitAgrees(c, o, rank, s);
    } else {
      var front, m, l := LastStep(c, s0, ls, s);
      RunAgrees(c, o, rank, s0, front, m);
      assert Run(c, front, m);
      RunInv(c, front, m);
      StepAgrees(c, o, rank, m, l);
    }
  }

  /** Every finished run records exactly the recursive evaluation of the plan. */
  lemma FinishedRunIsVerdict(c: Config, o: Oracle, rank: map<Id, nat>, ls: seq<Label>, s: State)
    requires Topological(c, rank) && Run(c, ls, s) && s.ch.finished
    requires forall l :: l in ls ==> Answers(o, l)
    ensures forall v :: v in c.nodes ==> (StatusOf(s, v), ChangedOf(s, v)) == Verdict(c, o, rank, v)
  {
    var s0 :| Init(c, s0) && After(c, s0, ls) == Some(s);
    RunAgrees(c, o, rank, s0, ls, s);
    FailuresAreContained(c, ls, s);
  }

  lemma RecordKeys(c: Config, ls: seq<Label>, s: State)
    requires Good(c) && Run(c, ls, s)
    ensures s.status.Keys == s.changed.Keys == c.nodes.Keys
  {
    RunInv(c, ls, s);
  }

  /** Two finished runs of a calm plan against the same targets agree on every node. */
  lemma ScheduleDoesNotMatter(c: Config, o: Oracle, ls: seq<Label>, s: State, ls': seq<Label>, s': State)
    requires Calm(c) && Run(c, ls, s) && Run(c, ls', s') && s.ch.finished && s'.ch.finished
    requires forall l :: l in ls + ls' ==> Answers(o, l)
    ensures s.status == s'.status && s.changed == s'.changed
  {
    var rank := AcyclicHasRanking(DepGraph(c.nodes));
    FinishedRunIsVerdict(c, o, rank, ls, s);
    FinishedRunIsVerdict(c, o, rank, ls', s');
    RecordKeys(c, ls, s);
    RecordKeys(c, ls', s');
    forall v | v in c.nodes ensures s.status[v] == s'.status[v] && s.changed[v] == s'.changed[v] {
      assert StatusOf(s, v) == StatusOf(s', v) && ChangedOf(s, v) == ChangedOf(s', v);
    }
  }

  // ---- Every run can be played to its end ----

  /** Some step that is ready, a target answering as the oracle does, and what it brings. */
  lemma Advance(c: Config, o: Oracle, s: State) returns (l: Label)
    requires Good(c) && Inv(c, s) && |c.nodes| > 0 && !s.ch.finished
    ensures Enabled(c, s, l) && Answers(o, l)
    ensures Inv(c, Step(c, s, l)) && Settles(s, Step(c, s, l))
    ensures Spent(s) < Spent(Step(c, s, l)) <= Credits(c)
  {
    l := SomethingCanMove(c, s);
    if l.EndTarget? { l := EndTarget(l.id, l.k, Ran(o(l.id, l.k).0, o(l.id, l.k).1)); }
    StepRecords(c, s, l);
    StepCounts(c, s, l);
  }

  /** What was settled in s is recorded alike in t. */
  ghost predicate KeepsSettled(s: State, t: State) {
    forall v :: !StatusOf(s, v).NotYet? ==> StatusOf(t, v) == StatusOf(s, v) && ChangedOf(t, v) == ChangedOf(s, v)
  }

  /** A run that answers as the oracle does extends to a finished one that still does, and what
      was settled stays. */
  lemma {:induction false} PlayOut(c: Config, o: Oracle, s0: State, ls: seq<Label>, s: State)
      returns (all: seq<Label>, t: State)
    requires Good(c) && |c.nodes| > 0 && Inv(c, s) && After(c, s0, ls) == Some(s)
    requires forall l :: l in ls ==> Answers(o, l)
    ensures After(c, s0, all) == Some(t) && t.ch.finished && ls <= all && KeepsSettled(s, t)
    ensures forall l :: l in all ==> Answers(o, l)
    decreases Credits(c) - Spent(s)
  {
    if s.ch.finished { return ls, s; }
    var l := Advance(c, o, s);
    AfterOneMore(c, s0, ls, s, l);
    all, t := PlayOut(c, o, s0, ls + [l], Step(c, s, l));
  }
}
