/** Why schedule independence asks that every `when` be steady: the condition adds no edge to the
    graph, so a node may be judged before or after the node it watches has changed anything. */
module WhenRace {
  import opened Digraph
  import opened Wrappers
  import opened ExecutionGraph
  import opened Scheduler
  import opened SchedulerPhases
  import opened SchedulerCauses
  import opened SchedulerTheorems
  import opened SchedulerAnswers
  import opened ScheduleIndependence
  import opened PartialRuns

  /** A node outside the part has changed nothing; one inside has, if it has a target to change. */
  lemma ChangedInPart(c: Config, s0: State, ls: seq<Label>, s: State, part: set<Id>, w: Id, k: nat)
    requires Good(c) && Init(c, s0) && After(c, s0, ls) == Some(s) && AllAnswer(ls)
    requires Partial(c, s, part) && ClosedPart(c, part) && Exhausted(s, part) && KnownTarget(c, w, k)
    ensures ChangedOf(s, w) <==> w in part
  {
    if w in part {
      PartIsApplied(c, s, part, w);
      RunTallies(c, s0, ls, s);
      HasChanged(c, ls, s, w, k);
    } else {
      NotChanged(c, s, w);
    }
  }

  lemma HasChanged(c: Config, ls: seq<Label>, s: State, w: Id, k: nat)
    requires Inv(c, s) && Tallies(ls, s) && Accounted(c, ls, s) && AllAnswer(ls)
    requires HasRun(s, w) && KnownTarget(c, w, k)
    ensures ChangedOf(s, w)
  {
    AllEnded(c, ls, s, w, k);
    RecordIsClosed(c, s, w);
    AnsweredChange(ls, w, k);
    assert ChangedSoFar(s, w);
  }

  lemma AnsweredChange(ls: seq<Label>, w: Id, k: nat)
    requires EndedIn(ls, w, k) && AllAnswer(ls)
    ensures ChangeIn(ls, w)
  {
    var l :| l in ls && Ends(l, w, k);
    assert ReportsChange(l, w);
  }

  lemma NotChanged(c: Config, s: State, w: Id)
    requires Records(c, s) && Causes(c, s) && w in c.nodes && !Past(s, w)
    ensures !ChangedOf(s, w)
  {
    assert !Reported(s, w);
  }

  // ---- Judging the node that watches ----

  lemma SkipNow(c: Config, s0: State, ls: seq<Label>, s: State, v: Id) returns (all: seq<Label>, t: State)
    requires Good(c) && Inv(c, s) && At(s, v, Skipping) && After(c, s0, ls) == Some(s) && AllAnswer(ls)
    ensures StatusOf(t, v).Skipped? && Inv(c, t) && After(c, s0, all) == Some(t) && AllAnswer(all)
  {
    t, all := Step(c, s, RecordSkip(v)), ls + [RecordSkip(v)];
    StepInv(c, s, RecordSkip(v));
    AfterOneMore(c, s0, ls, s, RecordSkip(v));
    AnswerMore(ls, RecordSkip(v));
  }

  /** What v is recorded as, it is recorded as at the end. */
  lemma EndsAs(c: Config, s0: State, ls: seq<Label>, s: State, v: Id) returns (all: seq<Label>, t: State)
    requires Good(c) && v in c.nodes && Inv(c, s) && After(c, s0, ls) == Some(s) && AllAnswer(ls)
    requires !StatusOf(s, v).NotYet?
    ensures After(c, s0, all) == Some(t) && t.ch.finished && StatusOf(t, v) == StatusOf(s, v) && AllAnswer(all)
  {
    all, t := PlayOut(c, Changing(), s0, ls, s);
  }

  /** An unmet condition: v ends skipped. */
  lemma JudgedUnmet(c: Config, s0: State, ls: seq<Label>, s: State, v: Id) returns (all: seq<Label>, t: State)
    requires Good(c) && Inv(c, s) && Smooth(s) && v in c.nodes && At(s, v, Start) && WhenUnmet(c, s, v)
    requires After(c, s0, ls) == Some(s) && AllAnswer(ls)
    ensures After(c, s0, all) == Some(t) && t.ch.finished && StatusOf(t, v).Skipped?
    ensures AllAnswer(all)
  {
    JudgeStep(c, s, v);
    var ls1, s1 := JudgeNow(c, s0, ls, s, v);
    var ls2, s2 := SkipNow(c, s0, ls1, s1, v);
    all, t := EndsAs(c, s0, ls2, s2, v);
  }

  lemma DriveToApplied(c: Config, s0: State, ls: seq<Label>, s: State, part: set<Id>, v: Id)
    returns (all: seq<Label>, t: State)
    requires Good(c) && Partial(c, s, part) && ClosedPart(c, part) && v in part
    requires After(c, s0, ls) == Some(s) && AllAnswer(ls)
    ensures After(c, s0, all) == Some(t) && Inv(c, t) && StatusOf(t, v).Applied?
    ensures AllAnswer(all)
  {
    all, t := Drive(c, s0, ls, s, part);
    PartIsApplied(c, t, part, v);
  }

  /** A condition that is met: v ends applied. */
  lemma JudgedMet(c: Config, s0: State, ls: seq<Label>, s: State, part: set<Id>, v: Id)
    returns (all: seq<Label>, t: State)
    requires Good(c) && Partial(c, s, part) && ClosedPart(c, part) && v in c.nodes
    requires forall d :: d in c.nodes[v].dependsOn ==> d in part
    requires At(s, v, Start) && !WhenUnmet(c, s, v)
    requires After(c, s0, ls) == Some(s) && AllAnswer(ls)
    ensures After(c, s0, all) == Some(t) && t.ch.finished && StatusOf(t, v).Applied?
    ensures AllAnswer(all)
  {
    var more := part + {v};
    ClosedMore(c, part, v);
    var ls1, s1 := RunNow(c, s0, ls, s, part, v);
    var ls2, s2 := DriveToApplied(c, s0, ls1, s1, more, v);
    all, t := EndsAs(c, s0, ls2, s2, v);
  }

  lemma RunNow(c: Config, s0: State, ls: seq<Label>, s: State, part: set<Id>, v: Id) returns (all: seq<Label>, t: State)
    requires Good(c) && Partial(c, s, part) && v in c.nodes && At(s, v, Start) && !WhenUnmet(c, s, v)
    requires After(c, s0, ls) == Some(s) && AllAnswer(ls)
    ensures After(c, s0, all) == Some(t) && Partial(c, t, part + {v})
    ensures AllAnswer(all)
  {
    all, t := JudgeNow(c, s0, ls, s, v);
    StepSmooth(c, s, Decide(v));
    NowPast(c, s, part, v);
  }

  lemma NowPast(c: Config, s: State, part: set<Id>, v: Id)
    requires Records(c, s) && Smooth(s) && Untouched(s, part) && Unconditional(c, s, part)
    requires v in c.nodes && At(s, v, Start)
    ensures Untouched(Step(c, s, Decide(v)), part + {v}) && Unconditional(c, Step(c, s, Decide(v)), part + {v})
  {
    var t := Step(c, s, Decide(v));
    JudgeStep(c, s, v);
    forall u ensures (Past(s, u) ==> Past(t, u))
        && (Past(t, u) ==> Past(s, u) || u == v)
    {
      StepPast(c, s, Decide(v), u);
    }
  }

  // ---- The two parts ----

  /** One node watches another, and nothing else in the plan has a `when`. */
  ghost predicate OneWhen(c: Config, v: Id) {
    && Lenient(c) && v in c.nodes && c.nodes[v].cond.Some?
    && forall u :: u in c.nodes && u != v ==> c.nodes[u].cond.None?
  }

  /** A finished run in which v is judged when exactly the given part has run. */
  lemma JudgedAfter(c: Config, part: set<Id>, v: Id, k: nat) returns (ls: seq<Label>, s: State)
    requires OneWhen(c, v) && KnownTarget(c, c.nodes[v].cond.value.node, k)
    requires ClosedPart(c, part) && v !in part && forall d :: d in c.nodes[v].dependsOn ==> d in part
    ensures Run(c, ls, s) && s.ch.finished && AllAnswer(ls)
    ensures var w := c.nodes[v].cond.value;
            if (w.node in part) == w.changed then StatusOf(s, v).Applied? else StatusOf(s, v).Skipped?
  {
    var w := c.nodes[v].cond.value;
    var s0 := InitExists(c);
    StartPartial(c, s0, part);
    ls, s := Drive(c, s0, [], s0, part);
    NextIsWaiting(c, s, part, v);
    ChangedInPart(c, s0, ls, s, part, w.node, k);
    if (w.node in part) == w.changed {
      ls, s := JudgedMet(c, s0, ls, s, part, v);
    } else {
      ls, s := JudgedUnmet(c, s0, ls, s, v);
    }
  }

  ghost predicate Agree(c: Config, o: Oracle, ls: seq<Label>, s: State, ls': seq<Label>, s': State) {
    Run(c, ls, s) && Run(c, ls', s') && s.ch.finished && s'.ch.finished && (forall l :: l in ls + ls' ==> Answers(o, l))
    ==> s.status == s'.status && s.changed == s'.changed
  }

  /** Against any targets, all finished runs agree. */
  ghost predicate ScheduleFree(c: Config) {
    forall o, ls, s, ls', s' :: Agree(c, o, ls, s, ls', s')
  }

  lemma LooseParts(c: Config, v: Id) returns (early: set<Id>, late: set<Id>, k: nat)
    requires OneWhen(c, v) && !Steady(c, v)
    ensures var w := c.nodes[v].cond.value.node;
            && ClosedPart(c, early) && ClosedPart(c, late) && v !in early && v !in late
            && (forall d :: d in c.nodes[v].dependsOn ==> d in early && d in late)
            && w !in early && w in late && KnownTarget(c, w, k)
  {
    var w := c.nodes[v].cond.value.node;
    k :| KnownTarget(c, w, k);
    BelowIsClosed(c, v);
    BelowIsClosed(c, w);
    early, late := Below(c, v), Below(c, v) + Below(c, w) + {w};
    if Reaches(DepGraph(c.nodes), v, v) {
      var walk :| IsWalkBetween(DepGraph(c.nodes), walk, v, v);
      assert IsCycle(DepGraph(c.nodes), walk);
    }
  }

  /** Exactly when a condition races: a plan whose policies continue and whose only `when` stands
      on v has runs that all agree if and only if v watches a node that is behind it or that can
      never have changed when v is judged. Otherwise v is skipped in one run and applied in another. */
  lemma ScheduleMatters(c: Config, v: Id)
    requires OneWhen(c, v)
    ensures ScheduleFree(c) <==> Steady(c, v)
    ensures !Steady(c, v) ==>
      exists ls, s, ls', s' :: !Agree(c, Changing(), ls, s, ls', s') && StatusOf(s, v).Skipped?
          && StatusOf(s', v).Applied?
  {
    if Steady(c, v) {
      SteadyIsFree(c, v);
    } else {
      var early, late, k := LooseParts(c, v);
      var ls, s := JudgedAfter(c, early, v, k);
      var ls', s' := JudgedAfter(c, late, v, k);
      if StatusOf(s, v).Skipped? {
        assert !Agree(c, Changing(), ls, s, ls', s');
      } else {
        assert !Agree(c, Changing(), ls', s', ls, s);
      }
    }
  }

  lemma SteadyIsFree(c: Config, v: Id)
    requires OneWhen(c, v) && Steady(c, v)
    ensures ScheduleFree(c)
  {
    forall o, ls, s, ls', s' ensures Agree(c, o, ls, s, ls', s') {
      if && Run(c, ls, s) && Run(c, ls', s') && s.ch.finished && s'.ch.finished
         && (forall l :: l in ls + ls' ==> Answers(o, l))
      {
        ScheduleDoesNotMatter(c, o, ls, s, ls', s');
      }
    }
  }
}
