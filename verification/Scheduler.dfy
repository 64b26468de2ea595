/** internal/controller/orchestrator.go, Run: the dispatcher, the node goroutines and the
    completion loop as a transition system. Each label is one atomic action: a channel
    operation or one critical section under the mutex. Both channels are kept as logs of
    everything ever sent, with a read index. */
module Scheduler {
  import opened Digraph
  import opened Plan
  import opened Wrappers
  import opened ExecutionGraph

  datatype Status = NotYet | Failed | Applied | Skipped

  /** Where a node's goroutine stands. `Skipping` lies between the two critical sections of
      the cascade skip; `Running` has started the targets before `next`. */
  datatype Place = Start | Skipping | Running(next: nat, failed: bool, changed: bool) | Sending

  /** What one target goroutine contributes: nothing when it saw the cancelled context. */
  datatype TargetResult = NotRun | Ran(failed: bool, changed: bool)

  datatype Config = Config(
    nodes: map<Id, Node>,
    edges: map<Id, seq<Id>>,
    inDegree: map<Id, int>,
    targets: set<Id>,
    parallelism: nat,
    timeout: bool)

  /** The two channels, the in-degree counters and the completion loop. */
  datatype Channels = Channels(
    inDegree: map<Id, int>,
    queued: seq<Id>,   // everything sent on readyQueue
    taken: nat,        // how many of those the dispatcher has received
    sent: seq<Id>,     // everything sent on doneChan
    completed: nat,    // how many of those the completion loop has received
    finished: bool)    // the completion loop has left its loop

  datatype State = State(
    ch: Channels,
    workers: map<Id, Place>,
    status: map<Id, Status>,
    changed: map<Id, bool>,
    errs: seq<Id>,          // one entry per node that reported an error
    halt: bool,
    cancelled: bool,
    begun: set<(Id, nat)>,  // (node, target index) handed to a target goroutine or passed over
    over: set<(Id, nat)>)   // of those, the ones that have finished

  datatype Label =
    | Dispatch
    | Decide(id: Id)
    | RecordSkip(id: Id)
    | StartTarget(id: Id)
    | EndTarget(id: Id, k: nat, res: TargetResult)
    | Finish(id: Id)
    | Send(id: Id)
    | Receive
    | Timeout

  predicate Halting(p: Policy) {
    p.Unset? || p.Halt? || p.Rollback?
  }

  ghost predicate Good(c: Config) {
    Mirrors(c.nodes, c.edges, c.inDegree) && Acyclic(DepGraph(c.nodes)) && c.parallelism > 0
  }

  /** The zero-degree nodes are queued in whatever order the map is iterated. */
  ghost predicate Init(c: Config, s: State) {
    && Distinct(s.ch.queued) && (forall v :: v in s.ch.queued <==> v in c.inDegree && c.inDegree[v] == 0)
    && s.ch == Channels(c.inDegree, s.ch.queued, 0, [], 0, false)
    && s == State(s.ch, map[], map v | v in c.nodes :: NotYet, map v | v in c.nodes :: false, [], false, false, {}, {})
  }

  function StatusOf(s: State, v: Id): Status {
    if v in s.status then s.status[v] else NotYet
  }

  function ChangedOf(s: State, v: Id): bool {
    v in s.changed && s.changed[v]
  }

  predicate Blocked(c: Config, s: State, id: Id)
    requires id in c.nodes
  {
    exists d :: d in c.nodes[id].dependsOn && (StatusOf(s, d).Failed? || StatusOf(s, d).Skipped?)
  }

  predicate WhenUnmet(c: Config, s: State, id: Id)
    requires id in c.nodes
  {
    var w := c.nodes[id].cond;
    w.Some? && ChangedOf(s, w.value.node) != w.value.changed
  }

  predicate At(s: State, id: Id, p: Place) {
    id in s.workers && s.workers[id] == p
  }

  predicate RunningAt(s: State, id: Id) {
    id in s.workers && s.workers[id].Running?
  }

  function Active(s: State): set<(Id, nat)> {
    s.begun - s.over
  }

  /** A target of v that the plan defines; the others are passed over. */
  predicate KnownTarget(c: Config, v: Id, k: nat) {
    v in c.nodes && k < |c.nodes[v].targets| && c.nodes[v].targets[k] in c.targets
  }

  /** The completion loop's pass over the dependants of the next received node. */
  function ReleaseBy(c: Config, ch: Channels): (map<Id, int>, seq<Id>)
    requires ch.completed < |ch.sent|
  {
    Release(ch.inDegree, ch.queued, Succ(c.edges, ch.sent[ch.completed]))
  }

  /** A step may be taken. Channel sends need room, semaphore acquisitions a free slot. */
  predicate Enabled(c: Config, s: State, l: Label) {
    match l
    case Dispatch => s.ch.taken < |s.ch.queued|
    case Decide(id) => id in c.nodes && At(s, id, Start)
    case RecordSkip(id) => At(s, id, Skipping)
    case StartTarget(id) => CanStartTarget(c, s, id)
    case EndTarget(id, k, res) => RunningAt(s, id) && (id, k) in Active(s) && (res.NotRun? ==> s.cancelled)
    case Finish(id) => CanFinish(c, s, id)
    case Send(id) => At(s, id, Sending) && |s.ch.sent| - s.ch.completed < |c.nodes|
    case Receive => CanReceive(c, s.ch)
    case Timeout => c.timeout && !s.cancelled
  }

  predicate CanStartTarget(c: Config, s: State, id: Id) {
    && id in c.nodes && RunningAt(s, id) && s.workers[id].next < |c.nodes[id].targets|
    && (c.nodes[id].targets[s.workers[id].next] in c.targets ==> |Active(s)| < c.parallelism)
  }

  predicate CanFinish(c: Config, s: State, id: Id) {
    && id in c.nodes && RunningAt(s, id) && s.workers[id].next == |c.nodes[id].targets|
    && forall k :: 0 <= k < |c.nodes[id].targets| ==> (id, k) !in Active(s)
  }

  predicate CanReceive(c: Config, ch: Channels) {
    !ch.finished && ch.completed < |ch.sent| && |ReleaseBy(c, ch).1| - ch.taken <= |c.nodes|
  }

  function Step(c: Config, s: State, l: Label): State
    requires Enabled(c, s, l)
  {
    match l
    case Dispatch =>
      s.(ch := s.ch.(taken := s.ch.taken + 1), workers := s.workers[s.ch.queued[s.ch.taken] := Start])
    case Decide(id) => AfterDecide(c, s, id)
    case RecordSkip(id) => s.(status := s.status[id := Skipped], workers := s.workers[id := Sending])
    case StartTarget(id) => AfterStartTarget(c, s, id)
    case EndTarget(id, k, res) =>
      s.(workers := s.workers[id := AddResult(s.workers[id], res)], over := s.over + {(id, k)})
    case Finish(id) => AfterFinish(c, s, id)
    case Send(id) =>
      s.(ch := s.ch.(sent := s.ch.sent + [id]), workers := s.workers - {id})
    case Receive => s.(ch := AfterReceive(c, s.ch))
    case Timeout => s.(cancelled := true)
  }

  /** The first critical section of a node goroutine. */
  function AfterDecide(c: Config, s: State, id: Id): State
    requires id in c.nodes
  {
    var place :=
      if s.halt then Sending
      else if Blocked(c, s, id) || WhenUnmet(c, s, id) then Skipping
      else Running(0, false, false);
    s.(status := if s.halt then s.status[id := Skipped] else s.status, workers := s.workers[id := place])
  }

  /** The target loop hands out the next target, or passes over one the plan does not know. */
  function AfterStartTarget(c: Config, s: State, id: Id): State
    requires CanStartTarget(c, s, id)
  {
    var w := s.workers[id];
    var pass := if c.nodes[id].targets[w.next] in c.targets then {} else {(id, w.next)};
    s.(workers := s.workers[id := w.(next := w.next + 1)], begun := s.begun + {(id, w.next)}, over := s.over + pass)
  }

  function AddResult(w: Place, res: TargetResult): Place
    requires w.Running?
  {
    match res
    case NotRun => w
    case Ran(failed, changed) => w.(failed := w.failed || failed, changed := w.changed || changed)
  }

  /** The last critical section of a node that ran. */
  function AfterFinish(c: Config, s: State, id: Id): State
    requires CanFinish(c, s, id)
  {
    var w := s.workers[id];
    var stop := w.failed && Halting(c.nodes[id].policy);
    s.(status := s.status[id := if w.failed then Failed else Applied],
       changed := s.changed[id := w.changed],
       workers := s.workers[id := Sending],
       errs := if w.failed then s.errs + [id] else s.errs,
       halt := s.halt || stop,
       cancelled := s.cancelled || stop)
  }

  function AfterReceive(c: Config, ch: Channels): Channels
    requires ch.completed < |ch.sent|
  {
    var r := ReleaseBy(c, ch);
    ch.(inDegree := r.0, queued := r.1, completed := ch.completed + 1, finished := ch.completed + 1 == |c.nodes|)
  }

  /** The state after a sequence of labels, if each was enabled when taken. */
  ghost function After(c: Config, s: State, ls: seq<Label>): Option<State> {
    if ls == [] then Some(s)
    else
      var mid := After(c, s, ls[..|ls| - 1]);
      var l := ls[|ls| - 1];
      if mid.Some? && Enabled(c, mid.value, l) then Some(Step(c, mid.value, l)) else None
  }

  lemma AfterOneMore(c: Config, s0: State, ls: seq<Label>, s: State, l: Label)
    requires After(c, s0, ls) == Some(s) && Enabled(c, s, l)
    ensures After(c, s0, ls + [l]) == Some(Step(c, s, l))
  {
    assert (ls + [l])[..|ls|] == ls;
  }

  lemma LastStep(c: Config, s0: State, ls: seq<Label>, s: State) returns (front: seq<Label>, m: State, l: Label)
    requires After(c, s0, ls) == Some(s) && ls != []
    ensures After(c, s0, front) == Some(m) && Enabled(c, m, l) && s == Step(c, m, l)
    ensures front + [l] == ls && |front| < |ls|
  {
    front, l := ls[..|ls| - 1], ls[|ls| - 1];
    m := After(c, s0, front).value;
  }

  /** s is reached from an initial state by some interleaving. */
  ghost predicate Run(c: Config, ls: seq<Label>, s: State) {
    exists s0 :: Init(c, s0) && After(c, s0, ls) == Some(s)
  }
}
