/** The live driver: the steps of starting, crashing and resuming a run, and the
    invariant they keep. */
module LiveRun {
  import opened Standard
  import opened WorkflowGraph
  import opened RunReducer
  import opened Scheduler
  import opened RecoveredHistory
  import opened RunSafety

  /** Where the process that drives the run is. */
  datatype Phase =
    | Idle                                        // no process holds the run
    | Relocate                                    // a resume has claimed the ledger
    | Reconcile                                   // observing effects left open
    | Dispose(next: NodeId)                       // interrupting recoverable agents, in order
    | RecoverChildren(next: NodeId)               // settling children left running, in order
    | Reopen                                      // about to write the resume marker
    | Restart                                     // entering the workflow loop
    | Dispatch                                    // at the top of the workflow loop
    | Admit(batch: seq<NodeId>)                   // filling a batch
    | Perform(batch: seq<NodeId>)                 // the batch executes concurrently
    | Settle(batch: seq<NodeId>, settled: nat)    // recording outcomes, in admission order
    | Review                                      // after a batch
    | Failing(node: NodeId)                       // about to fail the run

  datatype Process = Process(phase: Phase, state: RunState, ledger: seq<Event>)

  datatype Step =
    | Record(event: Event, next: Phase)   // validate an event, make it durable, apply it
    | Proceed(next: Phase)
    | Crash                               // the process ends, for whatever reason

  predicate Outcome(s: RunState, e: Event, n: NodeId) {
    (e.NodeSucceeded? || e.NodeFailed?) && e.node == n && n < |s.nodes| && e.attempt == s.nodes[n].attempt
  }

  predicate RunningAgent(w: Workflow, s: RunState, n: NodeId) {
    HasStatus(s, n, Running) && n < |w.nodes| && w.nodes[n].kind.Agent? && w.nodes[n].kind.recovery.Some?
  }

  predicate RunningChild(w: Workflow, s: RunState, n: NodeId) {
    HasStatus(s, n, Running) && n < |w.nodes| && w.nodes[n].kind.Child?
  }

  predicate OpenEffectAt(n: NodeState, i: nat) {
    i < |n.effects| && n.effects[i].Open?
  }

  predicate SomeOpenEffect(n: NodeState) {
    exists i :: 0 <= i < |n.effects| && n.effects[i].Open?
  }

  predicate EffectsObserved(s: RunState) {
    forall n | 0 <= n < |s.nodes| && s.nodes[n].status.Running? :: !SomeOpenEffect(s.nodes[n])
  }

  /** A node may join the batch only if both or neither are children. */
  predicate SameSort(w: Workflow, batch: seq<NodeId>, n: NodeId) {
    |batch| > 0 && batch[0] < |w.nodes| && n < |w.nodes| ==> (w.nodes[n].kind.Child? <==> w.nodes[batch[0]].kind.Child?)
  }

  predicate PendingStartExhaustion(w: Workflow, s: RunState) {
    StartsExhausted(w.limits, s.spent) && !SomeStatus(s, Failed) && SomeStatus(s, Pending)
  }

  // ---------------------------------------------------------------------
  // What the driver may write, and where it goes next
  // ---------------------------------------------------------------------

  predicate Proposes(w: Workflow, phase: Phase, s: RunState, e: Event, next: Phase)
    requires Declared(w) && Matches(w, s)
  {
    match phase
    case Idle => ProposesDecision(s, e, next)
    case Relocate => e == RunResumed(true) && next == Reconcile
    case Reconcile => e.EffectReconciled? && HasStatus(s, e.node, Running) && OpenEffectAt(s.nodes[e.node], e.index)
      && next == Reconcile
    case Dispose(k) =>
      && e.NodeInterrupted? && k <= e.node && RunningAgent(w, s, e.node) && e.attempt == s.nodes[e.node].attempt
      && (forall m | k <= m < e.node :: !RunningAgent(w, s, m)) && next == Dispose(e.node + 1)
    case RecoverChildren(k) =>
      && (e.NodeSucceeded? || e.NodeFailed?) && k <= e.node && RunningChild(w, s, e.node) && Outcome(s, e, e.node)
      && (forall m | k <= m < e.node :: !RunningChild(w, s, m)) && next == RecoverChildren(e.node + 1)
    case Reopen => e == RunResumed(false) && !SomeStatus(s, Running) && next == Restart
    case Restart =>
      if SettlementExhausted(w.limits, s.spent) then SomeStatus(s, Failed) && e == RunExhausted && next == Idle
      else ProposesForFailure(w, s, e, next)
    case Dispatch =>
      && next == Idle
      && (if AllSettled(s) then
            if SettlementExhausted(w.limits, s.spent) then e == RunExhausted else e == RunSucceeded || e == RunCancelled
          else
            if ExceedsAny(w.limits, s.spent) then e == RunExhausted else e == RunCancelled)
    case Admit(batch) => |batch| < w.maxNodes && ProposesTransition(w, s, batch, SelectNext(w, s), e, next)
    case Perform(batch) =>
      && (e.EffectPrepared? || (e.EffectSettled? && e.node < |s.nodes| && OpenEffectAt(s.nodes[e.node], e.index)))
      && e.node in batch && next == phase
    case Settle(batch, k) => k < |batch| && Outcome(s, e, batch[k]) && next == Settle(batch, k + 1)
    case Review =>
      if SettlementExhausted(w.limits, s.spent) || PendingStartExhaustion(w, s) then e == RunExhausted && next == Idle
      else (e == RunCancelled && next == Idle) || ProposesForFailure(w, s, e, next)
    case Failing(n) => e == RunFailed(n) && next == Idle
  }

  /** Someone outside decides the approval the run waits for. */
  predicate ProposesDecision(s: RunState, e: Event, next: Phase) {
    && s.status.Waiting?
    && (|| (e.CommandApprovalGranted? && next == Idle)
        || (e.WorkflowApprovalApproved? && next == Idle)
        || (e.CommandApprovalDenied? && next == Failing(e.node))
        || (e.WorkflowApprovalDenied? && next == Failing(e.node)))
  }

  /** The first failed node is retried when it failed alone and may be; else the run fails. */
  predicate ProposesForFailure(w: Workflow, s: RunState, e: Event, next: Phase)
    requires Matches(w, s)
  {
    match FirstWith(s, Failed)
    case None => false
    case Some(n) =>
      if WithStatus(s, Failed) == {n} && CanRetry(w, s, n)
      then e == NodeRetryScheduled(n, s.nodes[n].attempt) && next == Dispatch
      else e == RunFailed(n) && next == Idle
  }

  predicate ProposesTransition(w: Workflow, s: RunState, batch: seq<NodeId>, t: Option<Transition>, e: Event,
                               next: Phase)
    requires Declared(w) && Matches(w, s)
  {
    && t.Some? && t.value.node < |w.nodes|
    && (if t.value.Execute? then
          SameSort(w, batch, t.value.node) && ProposesExecution(w, s, batch, t.value.node, e, next)
        else
          batch == [] && if t.value.EvaluateOptimization? then ProposesOptimization(t.value.node, e, next)
                         else ProposesControl(w, s, t.value, e, next))
  }

  predicate ProposesOptimization(n: NodeId, e: Event, next: Phase) {
    || (e == OptimizationProgressed(n) && next == Admit([]))
    || (e.OptimizationChecked? && e.node == n && next == Dispatch)
    || (e == ControlFailed(n) && next == Failing(n))
  }

  predicate ProposesControl(w: Workflow, s: RunState, t: Transition, e: Event, next: Phase)
    requires Declared(w) && Matches(w, s) && t.node < |w.nodes|
  {
    && !(t.RequestApproval? && s.nodes[t.node].awaiting)
    && ControlEvent(w, s, t) == Some(e)
    && next == if e.WorkflowApprovalRequested? then Idle else if e.ControlFailed? then Failing(e.node) else Dispatch
  }

  /** A command that needs approval asks for it first, alone; a granted one may have expired. */
  predicate ProposesExecution(w: Workflow, s: RunState, batch: seq<NodeId>, n: NodeId, e: Event, next: Phase)
    requires Declared(w) && Matches(w, s) && n < |w.nodes|
  {
    if w.nodes[n].kind == Command(true) && (s.nodes[n].approval.NoRequest? || s.nodes[n].approval.Expired?) then
      batch == [] && e == CommandApprovalRequested(n, s.nodes[n].attempt + 1) && next == Idle
    else if w.nodes[n].kind == Command(true) && !s.nodes[n].approval.Granted? then
      false
    else
      || (w.nodes[n].kind == Command(true) && batch == [] && e == CommandApprovalExpired(n) && next == Dispatch)
      || (e == NodeStarted(n, s.nodes[n].attempt + 1)
          && if ExceedsAny(w.limits, SpentAfter(s.spent, e)) then next == Perform(batch + [n])
             else next == Admit(batch + [n]) || (w.nodes[n].kind.Child? && next == Perform(batch + [n])))
  }

  /** Moves between phases that write nothing. */
  predicate Proceeds(w: Workflow, phase: Phase, s: RunState, next: Phase)
    requires Declared(w) && Matches(w, s)
  {
    match phase
    case Idle => !s.status.RunDone? && next == Relocate
    case Relocate => next == Reconcile
    case Reconcile => EffectsObserved(s) && next == Dispose(0)
    case Dispose(k) => (forall m | k <= m < |w.nodes| :: !RunningAgent(w, s, m)) && next == RecoverChildren(0)
    case RecoverChildren(k) => (forall m | k <= m < |w.nodes| :: !RunningChild(w, s, m)) && next == Reopen
    case Restart => !SomeStatus(s, Failed) && next == Dispatch
    case Dispatch => !AllSettled(s) && !ExceedsAny(w.limits, s.spent) && next == Admit([])
    case Admit(batch) => batch != [] && AdmissionStops(w, s, batch) && next == Perform(batch)
    case Perform(batch) => next == Settle(batch, 0)
    case Settle(batch, k) => k == |batch| && next == Review
    case Review =>
      && !SomeStatus(s, Failed) && !SettlementExhausted(w.limits, s.spent) && !PendingStartExhaustion(w, s)
      && next == Dispatch
    case _ => false
  }

  predicate AdmissionStops(w: Workflow, s: RunState, batch: seq<NodeId>)
    requires Declared(w) && Matches(w, s)
  {
    || |batch| >= w.maxNodes
    || (match SelectNext(w, s)
        case Some(Execute(n)) => !SameSort(w, batch, n) || w.nodes[n].kind == Command(true)
        case _ => true)
  }

  /** A step the process can take: an event is written only if the reducer accepts it. */
  predicate Enabled(w: Workflow, p: Process, step: Step)
    requires Declared(w) && Matches(w, p.state)
  {
    match step
    case Record(e, next) => Proposes(w, p.phase, p.state, e, next) && Accepts(w, p.state, e)
    case Proceed(next) => Proceeds(w, p.phase, p.state, next)
    case Crash => true
  }

  function Stepped(w: Workflow, p: Process, step: Step): (p': Process)
    requires Declared(w) && Matches(w, p.state) && Enabled(w, p, step)
    ensures Matches(w, p'.state)
  {
    match step
    case Record(e, next) => Process(next, Effect(w, p.state, e), p.ledger + [e])
    case Proceed(next) => p.(phase := next)
    case Crash => p.(phase := Idle)
  }

  /** Where a run stands after these steps, if it can take them. */
  function Ran(w: Workflow, steps: seq<Step>): (p: Option<Process>)
    requires Declared(w)
    ensures p.Some? ==> Matches(w, p.value.state)
  {
    if |steps| == 0 then Some(Process(Restart, Initial(w), []))
    else
      var last := |steps| - 1;
      match Ran(w, steps[..last])
      case None => None
      case Some(p) => if Enabled(w, p, steps[last]) then Some(Stepped(w, p, steps[last])) else None
  }

  // ---------------------------------------------------------------------
  // The invariant
  // ---------------------------------------------------------------------

  /** Children and other nodes never run together. */
  predicate OneSortRuns(w: Workflow, s: RunState)
    requires Matches(w, s)
  {
    forall m, n | 0 <= m < |s.nodes| && 0 <= n < |s.nodes| && s.nodes[m].status.Running?
      && s.nodes[n].status.Running? ::
      w.nodes[m].kind.Child? <==> w.nodes[n].kind.Child?
  }

  predicate RunningAre(s: RunState, ids: seq<NodeId>) {
    forall n: NodeId | n < |s.nodes| :: s.nodes[n].status.Running? <==> n in ids
  }

  predicate Resuming(phase: Phase) {
    phase.Idle? || phase.Relocate? || phase.Reconcile? || phase.Dispose? || phase.RecoverChildren? || phase.Reopen?
  }

  predicate PhaseHolds(w: Workflow, phase: Phase, s: RunState)
    requires Declared(w) && Matches(w, s)
  {
    match phase
    case Dispose(_) => EffectsObserved(s)
    case RecoverChildren(_) => EffectsObserved(s)
    case Restart => !SomeStatus(s, Running)
    case Dispatch => !SomeStatus(s, Running)
    case Review => !SomeStatus(s, Running)
    case Failing(_) => !SomeStatus(s, Running)
    case Admit(batch) => RunningAre(s, batch) && Ordered(batch, |s.nodes|) && ChoosesLater(w, s, batch)
    case Perform(batch) => RunningAre(s, batch) && Ordered(batch, |s.nodes|)
    case Settle(batch, k) => k <= |batch| && RunningAre(s, batch[k..]) && Ordered(batch, |s.nodes|)
    case _ => true
  }

  /** A batch is filled in declaration order. */
  predicate Ordered(batch: seq<NodeId>, limit: nat) {
    && (forall i | 0 <= i < |batch| :: batch[i] < limit)
    && (forall i, j | 0 <= i < j < |batch| :: batch[i] < batch[j])
  }

  predicate ChoosesLater(w: Workflow, s: RunState, batch: seq<NodeId>)
    requires Declared(w) && Matches(w, s)
  {
    |batch| > 0 && SelectNext(w, s).Some? ==> SelectNext(w, s).value.node > batch[|batch| - 1]
  }

  /** While an interruption awaits its resume marker nothing else is left to record. */
  predicate MarkerHolds(w: Workflow, phase: Phase, s: RunState, required: bool) {
    required ==>
      && Resuming(phase) && EffectsObserved(s) && !s.status.Waiting?
      && forall n: NodeId | n < |w.nodes| :: !RunningChild(w, s, n)
  }

  predicate Invariant(w: Workflow, phase: Phase, s: RunState, required: bool)
    requires Declared(w)
  {
    && Sound(w, s)
    && OneSortRuns(w, s)
    && (s.status.Waiting? ==> !SomeStatus(s, Running))
    && PhaseHolds(w, phase, s)
    && MarkerHolds(w, phase, s, required)
  }
}
