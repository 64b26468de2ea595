/** The controller as the shared variables of Run and the critical sections that update them.
    The run loop takes any step that is ready, so it stands for every interleaving. */
module Orchestrator {
  import opened Digraph
  import opened Wrappers
  import opened ExecutionGraph
  import opened Scheduler
  import opened SchedulerFlow
  import opened SchedulerPhases
  import opened SchedulerCauses
  import opened SchedulerDecisions
  import opened SchedulerTheorems

  /** `retry.attempts` counts only from two up. */
  function Attempts(retry: Option<int>): (n: int)
    ensures n >= 1
  {
    if retry.Some? && retry.value > 1 then retry.value else 1
  }

  /** The retry loop around runNode: `attempt(a)` is what the a-th try would answer. The first
      success counts, else the last try; earlier failures leave no trace in the result. */
  method RunWithRetry(retry: Option<int>, attempt: int -> (bool, bool)) returns (failed: bool, changed: bool, made: int)
    ensures 1 <= made <= Attempts(retry) && (failed, changed) == attempt(made)
    ensures forall a :: 1 <= a < made ==> attempt(a).0
    ensures failed ==> made == Attempts(retry)
  {
    made := 1;
    var answer := attempt(made);
    while answer.0 && made < Attempts(retry)
      invariant 1 <= made <= Attempts(retry) && answer == attempt(made)
      invariant forall a :: 1 <= a < made ==> attempt(a).0
    {
      made := made + 1;
      answer := attempt(made);
    }
    failed, changed := answer.0, answer.1;
  }

  /** Whatever is ready, one of PickReady's guards says so. */
  lemma SomeGuardHolds(c: Config, s: State, l: Label)
    requires Enabled(c, s, l) && !l.Timeout?
    ensures || s.ch.taken < |s.ch.queued| || s.ch.completed < |s.ch.sent|
            || (exists id :: id in s.workers
                             && (s.workers[id].Start? || s.workers[id].Skipping? || s.workers[id].Sending?))
            || (exists id :: id in s.workers && (CanStartTarget(c, s, id) || CanFinish(c, s, id)))
            || (exists p :: p in s.begun && p !in s.over)
  {
    if l.EndTarget? { assert (l.id, l.k) in s.begun && (l.id, l.k) !in s.over; }
  }

  class Controller {
    const config: Config
    var nodeStates: map<Id, Status>
    var nodeChanged: map<Id, bool>
    var inDegree: map<Id, int>
    var readyQueue: seq<Id>
    var taken: nat
    var doneChan: seq<Id>
    var completed: nat
    var finished: bool
    var goroutines: map<Id, Place>
    var begun: set<(Id, nat)>
    var over: set<(Id, nat)>
    var haltExecution: bool
    var cancelled: bool
    var errs: seq<Id>

    /** The variables as a state of the transition system. */
    function S(): State
      reads this
    {
      State(Channels(inDegree, readyQueue, taken, doneChan, completed, finished),
            goroutines, nodeStates, nodeChanged, errs, haltExecution, cancelled, begun, over)
    }

    constructor (c: Config)
      requires Good(c)
      ensures config == c && Init(c, S())
    {
      config := c;
      nodeStates := map v | v in c.nodes :: NotYet;
      nodeChanged := map v | v in c.nodes :: false;
      inDegree := c.inDegree;
      taken, doneChan, completed, finished := 0, [], 0, false;
      goroutines, begun, over := map[], {}, {};
      haltExecution, cancelled, errs := false, false, [];
      var zero := ZeroNodes(c.inDegree);
      readyQueue := zero;
    }

    method DispatchNext()
      requires Enabled(config, S(), Dispatch)
      modifies this
      ensures S() == Step(config, old(S()), Dispatch)
    {
      goroutines := goroutines[readyQueue[taken] := Start];
      taken := taken + 1;
    }

    /** The first critical section: halt check, dependency scan, `when` check. */
    method DecideNode(id: Id)
      requires id in config.nodes && At(S(), id, Start)
      modifies this
      ensures S() == Step(config, old(S()), Decide(id))
    {
      var node := config.nodes[id];
      if haltExecution {
        nodeStates := nodeStates[id := Skipped];
        goroutines := goroutines[id := Sending];
        return;
      }
      var cascadeSkip := false;
      for i := 0 to |node.dependsOn|
        invariant !cascadeSkip
        invariant forall j :: 0 <= j < i ==> !Bad(S(), node.dependsOn[j])
        invariant S() == old(S())
      {
        var depId := node.dependsOn[i];
        if depId in nodeStates && (nodeStates[depId].Failed? || nodeStates[depId].Skipped?) {
          assert Bad(S(), depId);
          cascadeSkip := true;
          break;
        }
      }
      assert cascadeSkip <==> Blocked(config, S(), id);
      if !cascadeSkip && node.cond.Some? {
        var w := node.cond.value;
        var depChanged := w.node in nodeChanged && nodeChanged[w.node];
        if depChanged != w.changed { cascadeSkip := true; }
      }
      goroutines := goroutines[id := if cascadeSkip then Skipping else Running(0, false, false)];
    }

    /** The second critical section of a cascade skip. */
    method RecordSkipped(id: Id)
      requires At(S(), id, Skipping)
      modifies this
      ensures S() == Step(config, old(S()), RecordSkip(id))
    {
      nodeStates := nodeStates[id := Skipped];
      goroutines := goroutines[id := Sending];
    }

    method StartNextTarget(id: Id)
      requires CanStartTarget(config, S(), id)
      modifies this
      ensures S() == Step(config, old(S()), StartTarget(id))
    {
      var w := goroutines[id];
      if config.nodes[id].targets[w.next] !in config.targets {
        over := over + {(id, w.next)};
      }
      begun := begun + {(id, w.next)};
      goroutines := goroutines[id := w.(next := w.next + 1)];
    }

    method FinishTarget(id: Id, k: nat, res: TargetResult)
      requires Enabled(config, S(), EndTarget(id, k, res))
      modifies this
      ensures S() == Step(config, old(S()), EndTarget(id, k, res))
    {
      var w := goroutines[id];
      if res.Ran? {
        w := w.(failed := w.failed || res.failed, changed := w.changed || res.changed);
      }
      goroutines := goroutines[id := w];
      over := over + {(id, k)};
    }

    /** The critical section after all targets of a node are done. */
    method FinishNode(id: Id)
      requires CanFinish(config, S(), id)
      modifies this
      ensures S() == Step(config, old(S()), Finish(id))
    {
      var w := goroutines[id];
      nodeChanged := nodeChanged[id := w.changed];
      if w.failed {
        nodeStates := nodeStates[id := Failed];
        errs := errs + [id];
        if Halting(config.nodes[id].policy) {
          haltExecution := true;
          cancelled := true;
        }
      } else {
        nodeStates := nodeStates[id := Applied];
      }
      goroutines := goroutines[id := Sending];
    }

    method SendDone(id: Id)
      requires Enabled(config, S(), Send(id))
      modifies this
      ensures S() == Step(config, old(S()), Send(id))
    {
      doneChan := doneChan + [id];
      goroutines := goroutines - {id};
    }

    /** One round of the completion loop. */
    method ReceiveDone()
      requires CanReceive(config, S().ch)
      modifies this
      ensures S() == Step(config, old(S()), Receive)
    {
      var id := doneChan[completed];
      completed := completed + 1;
      var degree, queue := ReleaseDependents(inDegree, readyQueue, Succ(config.edges, id));
      inDegree, readyQueue := degree, queue;
      finished := completed == |config.nodes|;
    }

    method FireTimeout()
      requires Enabled(config, S(), Timeout)
      modifies this
      ensures S() == Step(config, old(S()), Timeout)
    {
      cancelled := true;
    }

    method Take(l: Label)
      requires Enabled(config, S(), l)
      modifies this
      ensures S() == Step(config, old(S()), l)
    {
      match l
      case Dispatch => DispatchNext();
      case Decide(id) => DecideNode(id);
      case RecordSkip(id) => RecordSkipped(id);
      case StartTarget(id) => StartNextTarget(id);
      case EndTarget(id, k, res) => FinishTarget(id, k, res);
      case Finish(id) => FinishNode(id);
      case Send(id) => SendDone(id);
      case Receive => ReceiveDone();
      case Timeout => FireTimeout();
    }

    /** Whatever goroutine the runtime resumes next; any step that is ready may be picked, and
        a running target may answer anything. That some guard holds is the absence of deadlock. */
    method PickReady() returns (l: Label)
      requires Good(config) && Inv(config, S()) && |config.nodes| > 0 && !finished
      ensures Enabled(config, S(), l)
    {
      ghost var ready := SomethingCanMove(config, S());
      SomeGuardHolds(config, S(), ready);
      if
      case taken < |readyQueue| =>
        l := Dispatch;
      case completed < |doneChan| =>
        ReceiveFlow(config, S().ch, S().workers.Keys);
        l := Receive;
      case exists id :: id in goroutines && goroutines[id].Start? =>
        var id :| id in goroutines && goroutines[id].Start?;
        l := Decide(id);
      case exists id :: id in goroutines && goroutines[id].Skipping? =>
        var id :| id in goroutines && goroutines[id].Skipping?;
        l := RecordSkip(id);
      case exists id :: id in goroutines && goroutines[id].Sending? =>
        var id :| id in goroutines && goroutines[id].Sending?;
        HasRoom(config, S().ch, S().workers.Keys, id);
        l := Send(id);
      case exists id :: id in goroutines && CanStartTarget(config, S(), id) =>
        var id :| id in goroutines && CanStartTarget(config, S(), id);
        l := StartTarget(id);
      case exists p :: p in begun && p !in over =>
        var p :| p in begun && p !in over;
        l := PickAnswer(p);
      case exists id :: id in goroutines && CanFinish(config, S(), id) =>
        var id :| id in goroutines && CanFinish(config, S(), id);
        l := Finish(id);
      case config.timeout && !cancelled =>
        l := Timeout;
    }

    method PickAnswer(p: (Id, nat)) returns (l: Label)
      requires Targets(config, S()) && p in Active(S())
      ensures Enabled(config, S(), l)
    {
      var res: TargetResult := *;
      if res.NotRun? && !cancelled { res := TargetResult.Ran(true, false); }
      assert (p.0, p.1) in Active(S());
      l := EndTarget(p.0, p.1, res);
    }

    /** One turn of whichever goroutine is ready. `ls` is what has been done so far. */
    method Turn(ghost s0: State, ghost ls0: seq<Label>) returns (ghost ls: seq<Label>)
      requires Good(config) && Inv(config, S()) && |config.nodes| > 0 && !finished
      requires After(config, s0, ls0) == Some(S())
      modifies this
      ensures Inv(config, S()) && After(config, s0, ls) == Some(S())
      ensures Spent(old(S())) < Spent(S()) <= Credits(config)
    {
      var l := PickReady();
      StepCounts(config, S(), l);
      AfterOneMore(config, s0, ls0, S(), l);
      ls := ls0 + [l];
      Take(l);
    }

    /** Run: dispatcher, node goroutines and completion loop until every node is received. */
    method Run() returns (failed: bool, ghost ls: seq<Label>)
      requires Good(config) && Init(config, S()) && |config.nodes| > 0
      modifies this
      ensures After(config, old(S()), ls) == Some(S()) && SkipsAreDecided(config, old(S()), ls, S())
      ensures finished && Contained(config, S())
      ensures failed <==> exists v :: v in nodeStates && nodeStates[v].Failed?
    {
      InitInv(config, S());
      ls := [];
      while !finished
        invariant Inv(config, S()) && After(config, old(S()), ls) == Some(S())
        decreases Credits(config) - Spent(S())
      {
        ls := Turn(old(S()), ls);
      }
      FinishedIsContained(config, S());
      FinishedWasJudged(config, old(S()), ls, S());
      failed := errs != [];
      assert forall v :: StatusOf(S(), v).Failed? <==> v in nodeStates && nodeStates[v].Failed?;
    }
  }
}
