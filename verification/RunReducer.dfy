/** The run state and the reducer that folds ledger events into it.  `Accepts`
    holds exactly when the source's reducer does not throw; `Effect` is the state
    it then returns. */
module RunReducer {
  import opened Standard
  import opened WorkflowGraph

  datatype Status = Pending | Running | Succeeded | Failed | Omitted

  /** A node's observed output, and whether the recorded copy is incomplete. */
  datatype Evidence = Evidence(value: Text, truncated: bool)

  /** The decision a settled control node carries for the scheduler. */
  datatype Control =
    | Undecided
    | ConditionDecided(selected: Case)
    | LoopDecided(stop: bool)
    | OptimizationDecided(stop: bool)

  /** The life of one command approval request. */
  datatype Approved = NoRequest | Requested | Granted | Denied | Expired | Consumed

  datatype EffectState = Open | NotApplied | Applied

  datatype NodeState = NodeState(
    status: Status,
    attempt: nat,
    evidence: Option<Evidence>,
    control: Control,
    approval: Approved,       // command approval
    awaiting: bool,           // a workflow approval request exists
    retryable: bool,          // the recorded failure permits a fresh attempt
    effects: seq<EffectState>)

  datatype RunStatus = Active | Waiting | RunDone(outcome: RunOutcome)
  datatype RunOutcome = AllSucceeded | SomeFailed | Cancelled | Exhausted

  datatype RunState = RunState(status: RunStatus, nodes: seq<NodeState>, spent: Amounts)

  datatype Omission =
    | ConditionNotSelected(selected: Case)
    | LoopNotContinued
    | OptimizationStopped
    | DependencyOmitted(omitted: seq<NodeId>)

  datatype Event =
    | RunResumed(relocating: bool)
    | CommandApprovalRequested(node: NodeId, attempt: nat)
    | CommandApprovalGranted(node: NodeId)
    | CommandApprovalDenied(node: NodeId)
    | CommandApprovalExpired(node: NodeId)
    | WorkflowApprovalRequested(node: NodeId)
    | WorkflowApprovalApproved(node: NodeId)
    | WorkflowApprovalDenied(node: NodeId)
    | NodeStarted(node: NodeId, attempt: nat)
    | NodeInterrupted(node: NodeId, attempt: nat)
    | NodeRetryScheduled(node: NodeId, attempt: nat)
    | NodeSucceeded(node: NodeId, attempt: nat, output: Evidence, used: Amounts)
    | NodeFailed(node: NodeId, attempt: nat, mayRetry: bool, used: Amounts)
    | EffectPrepared(node: NodeId)
    | EffectSettled(node: NodeId, index: nat, applied: bool)
    | EffectReconciled(node: NodeId, index: nat, applied: bool)
    | ConditionEvaluated(node: NodeId, selected: Case)
    | ResultPublished(node: NodeId)
    | LoopChecked(node: NodeId, stop: bool)
    | LoopCompleted(node: NodeId, iterations: nat, terminating: NodeId)
    | OptimizationProgressed(node: NodeId)
    | OptimizationChecked(node: NodeId, stop: bool)
    | OptimizationCompleted(node: NodeId, candidates: nat, terminating: NodeId)
    | NodeOmitted(node: NodeId, reason: Omission)
    | NodeJoined(node: NodeId, selected: Case, completed: NodeId, unselected: seq<NodeId>)
    | ControlFailed(node: NodeId)
    | RunSucceeded
    | RunFailed(node: NodeId)
    | RunCancelled
    | RunExhausted

  const FRESH: NodeState := NodeState(Pending, 0, None, Undecided, NoRequest, false, false, [])
  const NOTHING: Amounts := Amounts(0, 0, 0, 0, 0)

  /** The state after the run's start record. */
  function Initial(w: Workflow): RunState {
    RunState(Active, seq(|w.nodes|, i => FRESH), NOTHING)
  }

  predicate Matches(w: Workflow, s: RunState) {
    |s.nodes| == |w.nodes|
  }

  // ---------------------------------------------------------------------
  // Queries
  // ---------------------------------------------------------------------

  predicate Settled(n: NodeState) {
    n.status.Succeeded? || n.status.Omitted?
  }

  predicate HasStatus(s: RunState, n: NodeId, status: Status) {
    n < |s.nodes| && s.nodes[n].status == status
  }

  predicate SomeStatus(s: RunState, status: Status) {
    exists n :: 0 <= n < |s.nodes| && s.nodes[n].status == status
  }

  predicate AllSettled(s: RunState) {
    forall n | 0 <= n < |s.nodes| :: Settled(s.nodes[n])
  }

  function WithStatus(s: RunState, status: Status): set<NodeId> {
    set n: NodeId | n < |s.nodes| && s.nodes[n].status == status
  }

  /** The first node of a status in declaration order. */
  function FirstWith(s: RunState, status: Status): (first: Option<NodeId>)
    ensures first.Some? ==> HasStatus(s, first.value, status)
    ensures first.Some? ==> forall m | 0 <= m < first.value :: s.nodes[m].status != status
    ensures first.None? ==> !SomeStatus(s, status)
  {
    FirstFrom(s, status, 0)
  }

  function FirstFrom(s: RunState, status: Status, n: NodeId): (first: Option<NodeId>)
    requires n <= |s.nodes|
    ensures first.Some? ==> n <= first.value && HasStatus(s, first.value, status)
    ensures first.Some? ==> forall m | n <= m < first.value :: s.nodes[m].status != status
    ensures first.None? ==> forall m | n <= m < |s.nodes| :: s.nodes[m].status != status
    decreases |s.nodes| - n
  {
    if n == |s.nodes| then None
    else if s.nodes[n].status == status then Some(n)
    else FirstFrom(s, status, n + 1)
  }

  predicate DependenciesSettled(w: Workflow, s: RunState, n: NodeId)
    requires Declared(w) && Matches(w, s) && n < |w.nodes|
  {
    forall i | 0 <= i < |w.nodes[n].dependsOn| :: Settled(s.nodes[w.nodes[n].dependsOn[i]])
  }

  predicate DependenciesSucceeded(w: Workflow, s: RunState, n: NodeId)
    requires Declared(w) && Matches(w, s) && n < |w.nodes|
  {
    forall i | 0 <= i < |w.nodes[n].dependsOn| :: s.nodes[w.nodes[n].dependsOn[i]].status.Succeeded?
  }

  function OmittedAmong(s: RunState, ids: seq<NodeId>): (omitted: seq<NodeId>)
    requires forall i | 0 <= i < |ids| :: ids[i] < |s.nodes|
    ensures forall id :: id in omitted <==> id in ids && s.nodes[id].status.Omitted?
  {
    if |ids| == 0 then []
    else (if s.nodes[ids[0]].status.Omitted? then [ids[0]] else []) + OmittedAmong(s, ids[1..])
  }

  /** The declared guards chose this node. */
  predicate Selected(w: Workflow, s: RunState, n: NodeId)
    requires Declared(w) && Matches(w, s) && n < |w.nodes|
  {
    var node := w.nodes[n];
    && (node.loopGuard.Some? ==>
          var check := s.nodes[node.loopGuard.value]; check.status.Succeeded? && check.control == LoopDecided(false))
    && (node.optimizationGuard.Some? ==>
          var check := s.nodes[node.optimizationGuard.value];
          check.status.Succeeded? && check.control == OptimizationDecided(false))
    && (node.when.Some? ==>
          var condition := s.nodes[node.when.value.conditionId];
          condition.status.Succeeded? && condition.control == ConditionDecided(node.when.value.selects))
  }

  predicate ExceedsAny(limits: Limits, spent: Amounts) {
    StartsExhausted(limits, spent) || SettlementExhausted(limits, spent)
  }

  predicate StartsExhausted(limits: Limits, spent: Amounts) {
    Reaches(limits.nodeStarts, spent.nodeStarts)
  }

  /** A limit other than node starts has been reached. */
  predicate SettlementExhausted(limits: Limits, spent: Amounts) {
    || Reaches(limits.modelTokens, spent.modelTokens)
    || Reaches(limits.modelCost, spent.modelCost)
    || Reaches(limits.executionMs, spent.executionMs)
    || Reaches(limits.artifactBytes, spent.artifactBytes)
  }

  predicate Reaches(limit: Option<nat>, consumed: nat) {
    limit.Some? && consumed >= limit.value
  }

  function Plus(a: Amounts, b: Amounts): Amounts {
    Amounts(a.nodeStarts + b.nodeStarts, a.modelTokens + b.modelTokens, a.modelCost + b.modelCost,
            a.executionMs + b.executionMs, a.artifactBytes + b.artifactBytes)
  }

  /** A failed attempt that its recovery declaration lets run afresh. */
  predicate CanRetry(w: Workflow, s: RunState, n: NodeId)
    requires Matches(w, s) && n < |w.nodes|
  {
    var kind := w.nodes[n].kind;
    var node := s.nodes[n];
    && node.status.Failed? && node.retryable
    && kind.Agent? && kind.recovery.Some? && node.attempt < kind.recovery.value
    && node.effects == []
    && !ExceedsAny(w.limits, s.spent)
  }

  /** An interrupted attempt that may be disposed of and run afresh. */
  predicate CanInterrupt(w: Workflow, s: RunState, n: NodeId)
    requires Matches(w, s) && n < |w.nodes|
  {
    var kind := w.nodes[n].kind;
    var node := s.nodes[n];
    && node.status.Running?
    && kind.Agent? && kind.recovery.Some? && node.attempt < kind.recovery.value
    && w.limits.modelTokens.None? && w.limits.modelCost.None? && w.limits.executionMs.None?
    && !StartsExhausted(w.limits, s.spent)
    && forall i | 0 <= i < |node.effects| :: node.effects[i].NotApplied?
  }

  predicate AnotherApprovalOpen(s: RunState, n: NodeId) {
    exists m :: 0 <= m < |s.nodes| && m != n && (s.nodes[m].approval.Requested? || s.nodes[m].approval.Granted?)
  }

  function Source(s: RunState, n: NodeId): Option<Evidence> {
    if n < |s.nodes| && s.nodes[n].status.Succeeded? then s.nodes[n].evidence else None
  }

  predicate AnyTruncated(s: RunState, sources: seq<NodeId>) {
    exists i :: 0 <= i < |sources| && Source(s, sources[i]).Some? && Source(s, sources[i]).value.truncated
  }

  predicate AllReadable(s: RunState, sources: seq<NodeId>) {
    forall i | 0 <= i < |sources| :: Source(s, sources[i]).Some?
  }

  function FirstStop(s: RunState, checks: seq<NodeId>): (first: Option<nat>)
    ensures first.Some? ==>
      && first.value < |checks|
      && checks[first.value] < |s.nodes| && s.nodes[checks[first.value]].control == LoopDecided(true)
      && forall i | 0 <= i < first.value :: checks[i] < |s.nodes| ==> s.nodes[checks[i]].control != LoopDecided(true)
    ensures first.None? ==> forall i | 0 <= i < |checks| && checks[i] < |s.nodes| ::
            s.nodes[checks[i]].control != LoopDecided(true)
  {
    if |checks| == 0 then None
    else if checks[0] < |s.nodes| && s.nodes[checks[0]].control == LoopDecided(true) then Some(0)
    else match FirstStop(s, checks[1..])
      case None => None
      case Some(i) => Some(i + 1)
  }

  /** The branch a join takes for the selected case: the first that names it. */
  function BranchFor(branches: seq<Branch>, selected: Case): (branch: Option<Branch>)
    ensures branch.Some? ==> branch.value in branches && branch.value.selects == selected
    ensures branch.None? ==> forall i | 0 <= i < |branches| :: branches[i].selects != selected
  {
    if |branches| == 0 then None
    else if branches[0].selects == selected then Some(branches[0])
    else BranchFor(branches[1..], selected)
  }

  function Unselected(branches: seq<Branch>, selected: Case): (ids: seq<NodeId>)
    ensures forall id :: id in ids <==> exists i ::
            0 <= i < |branches| && branches[i].selects != selected && branches[i].nodeId == id
  {
    if |branches| == 0 then []
    else
      assert branches == [branches[0]] + branches[1..];
      (if branches[0].selects != selected then [branches[0].nodeId] else []) + Unselected(branches[1..], selected)
  }

  /** The optimization checks completed in order, or None when one was omitted
      before a stop decision or settled after it. */
  function CompletedChecks(s: RunState, checks: seq<NodeId>, stopped: bool): Option<seq<NodeId>>
    requires forall i | 0 <= i < |checks| :: checks[i] < |s.nodes|
  {
    if |checks| == 0 then Some([])
    else
      var check := s.nodes[checks[0]];
      if check.status.Omitted? then
        if stopped then CompletedChecks(s, checks[1..], true) else None
      else if stopped || !check.status.Succeeded? || !check.control.OptimizationDecided? then None
      else match CompletedChecks(s, checks[1..], check.control.stop)
        case None => None
        case Some(rest) => Some([checks[0]] + rest)
  }

  // ---------------------------------------------------------------------
  // Acceptance
  // ---------------------------------------------------------------------

  /** After a failure only sibling outcomes, recovery evidence and the run's end may follow. */
  predicate AllowedAfterFailure(s: RunState, e: Event) {
    match e
    case RunFailed(_) => true
    case RunCancelled => true
    case RunExhausted => true
    case RunResumed(_) => true
    case EffectReconciled(_, _, _) => true
    case NodeInterrupted(_, _) => true
    case NodeRetryScheduled(_, _) => true
    case NodeSucceeded(n, _, _, _) => HasStatus(s, n, Running)
    case NodeFailed(n, _, _, _) => HasStatus(s, n, Running)
    case _ => false
  }

  predicate ControlStep(s: RunState) {
    s.status.Active? && !SomeStatus(s, Running)
  }

  /** The node whose record an event changes, if any. */
  function Target(e: Event): Option<NodeId> {
    match e
    case RunResumed(_) => None
    case RunSucceeded => None
    case RunFailed(_) => None
    case RunCancelled => None
    case RunExhausted => None
    case _ => Some(e.node)
  }

  /** The status that node must have. */
  function Expects(e: Event): Status {
    match e
    case NodeInterrupted(_, _) => Running
    case NodeSucceeded(_, _, _, _) => Running
    case NodeFailed(_, _, _, _) => Running
    case EffectPrepared(_) => Running
    case EffectSettled(_, _, _) => Running
    case EffectReconciled(_, _, _) => Running
    case NodeRetryScheduled(_, _) => Failed
    case _ => Pending
  }

  predicate TargetFits(s: RunState, e: Event) {
    Target(e).Some? ==> HasStatus(s, Target(e).value, Expects(e))
  }

  /** The comparison with true keeps the long case distinction a single obligation
      where acceptance is to be proved. */
  predicate Accepts(w: Workflow, s: RunState, e: Event)
    requires Declared(w) && Matches(w, s)
  {
    && !s.status.RunDone?
    && (SomeStatus(s, Failed) ==> AllowedAfterFailure(s, e))
    && TargetFits(s, e)
    && AcceptsBody(w, s, e) == true
  }

  predicate AcceptsBody(w: Workflow, s: RunState, e: Event)
    requires Declared(w) && Matches(w, s) && TargetFits(s, e)
  {
    match e
    case RunResumed(relocating) => relocating || !SomeStatus(s, Running)
    case CommandApprovalRequested(n, attempt) =>
      && s.status.Active? && !ExceedsAny(w.limits, s.spent) && !AnotherApprovalOpen(s, n) && !SomeStatus(s, Running)
      && w.nodes[n].kind == Command(true)
      && (s.nodes[n].approval.NoRequest? || s.nodes[n].approval.Expired?)
      && attempt == s.nodes[n].attempt + 1
    case CommandApprovalGranted(n) => s.status.Waiting? && s.nodes[n].approval.Requested?
    case CommandApprovalDenied(n) => s.status.Waiting? && s.nodes[n].approval.Requested?
    case CommandApprovalExpired(n) => s.status.Active? && s.nodes[n].approval.Granted?
    case WorkflowApprovalApproved(n) => s.status.Waiting? && s.nodes[n].awaiting
    case WorkflowApprovalDenied(n) => s.status.Waiting? && s.nodes[n].awaiting
    case NodeStarted(n, attempt) =>
      && s.status.Active? && |WithStatus(s, Running)| < w.maxNodes && !ExceedsAny(w.limits, s.spent)
      && (var kind := w.nodes[n].kind; kind.Executable() || kind.OptimizationCheck? || kind.Optimization?)
      && DependenciesSucceeded(w, s, n) && Selected(w, s, n)
      && (w.nodes[n].kind == Command(true) ==> s.nodes[n].approval.Granted?)
      && attempt == s.nodes[n].attempt + 1
    case NodeInterrupted(n, attempt) => s.nodes[n].attempt == attempt && CanInterrupt(w, s, n)
    case NodeRetryScheduled(n, attempt) => s.nodes[n].attempt == attempt && CanRetry(w, s, n)
    case NodeSucceeded(n, attempt, _, _) => FirstWith(s, Running) == Some(n) && s.nodes[n].attempt == attempt
    case NodeFailed(n, attempt, _, _) => FirstWith(s, Running) == Some(n) && s.nodes[n].attempt == attempt
    case EffectPrepared(_) => true
    case EffectSettled(n, i, _) => i < |s.nodes[n].effects| && s.nodes[n].effects[i].Open?
    case EffectReconciled(n, i, _) => i < |s.nodes[n].effects| && s.nodes[n].effects[i].Open?
    case NodeOmitted(n, reason) => ControlStep(s) && DependenciesSettled(w, s, n) && AcceptsOmission(w, s, n, reason)
    case RunSucceeded => AllSettled(s) && !SettlementExhausted(w.limits, s.spent)
    case RunFailed(n) =>
      && !SettlementExhausted(w.limits, s.spent)
      && FirstWith(s, Failed) == Some(n) && !SomeStatus(s, Running)
      && !(WithStatus(s, Failed) == {n} && CanRetry(w, s, n))
    case RunCancelled =>
      && !SettlementExhausted(w.limits, s.spent)
      && !(StartsExhausted(w.limits, s.spent) && !SomeStatus(s, Failed) && SomeStatus(s, Pending))
      && !SomeStatus(s, Running)
    case RunExhausted =>
      && !SomeStatus(s, Running) && ExceedsAny(w.limits, s.spent)
      && (SettlementExhausted(w.limits, s.spent) ||
          (!SomeStatus(s, Failed) && exists n :: 0 <= n < |s.nodes| && !s.nodes[n].status.Succeeded?))
    case _ => ControlStep(s) && s.nodes[e.node].attempt == 0 && AcceptsControl(w, s, e)
  }

  /** The events that settle a control node, or ask for a workflow approval. */
  predicate DecidesControl(e: Event) {
    || e.WorkflowApprovalRequested? || e.ConditionEvaluated? || e.ResultPublished? || e.LoopChecked? || e.LoopCompleted?
    || e.OptimizationProgressed? || e.OptimizationChecked? || e.OptimizationCompleted? || e.NodeJoined?
      || e.ControlFailed?
  }

  predicate AcceptsControl(w: Workflow, s: RunState, e: Event)
    requires Declared(w) && Matches(w, s) && DecidesControl(e) && e.node < |w.nodes|
  {
    match e
    case WorkflowApprovalRequested(n) =>
      && !ExceedsAny(w.limits, s.spent) && !AnotherApprovalOpen(s, n)
      && w.nodes[n].kind.Approval? && !s.nodes[n].awaiting
      && DependenciesSucceeded(w, s, n) && Selected(w, s, n)
      && AllReadable(s, w.nodes[n].kind.observes) && !AnyTruncated(s, w.nodes[n].kind.observes)
    case ConditionEvaluated(n, selected) =>
      && w.nodes[n].kind.Condition? && DependenciesSucceeded(w, s, n) && Selected(w, s, n)
      && (match Source(s, w.nodes[n].kind.source)
          case None => false
          case Some(seen) =>
            !seen.truncated && selected == SelectedCase(w.nodes[n].kind.cases, w.nodes[n].kind.otherwise, seen.value))
    case ResultPublished(n) =>
      && w.nodes[n].kind.Result? && DependenciesSucceeded(w, s, n) && Selected(w, s, n)
      && (match Source(s, w.nodes[n].kind.source)
          case None => false
          case Some(seen) => !seen.truncated && seen.value in w.nodes[n].kind.admits)
    case LoopChecked(n, stop) =>
      && w.nodes[n].kind.LoopCheck? && DependenciesSettled(w, s, n)
      && (match Source(s, w.nodes[n].kind.source)
          case None => false
          case Some(seen) => !seen.truncated && stop == (seen.value == w.nodes[n].kind.stopsOn))
    case LoopCompleted(n, iterations, terminating) =>
      && w.nodes[n].kind.Loop? && DependenciesSettled(w, s, n)
      && (match FirstStop(s, w.nodes[n].kind.checks)
          case None => false
          case Some(i) =>
            && terminating == w.nodes[n].kind.checks[i]
            && w.nodes[terminating].kind.LoopCheck? && iterations == w.nodes[terminating].kind.iteration)
    case OptimizationProgressed(n) => w.nodes[n].kind.OptimizationCheck? && DependenciesSettled(w, s, n)
    case OptimizationChecked(n, _) => w.nodes[n].kind.OptimizationCheck? && DependenciesSucceeded(w, s, n)
    case OptimizationCompleted(n, candidates, terminating) =>
      && w.nodes[n].kind.Optimization? && DependenciesSettled(w, s, n)
      && (match CompletedChecks(s, w.nodes[n].kind.checks, false)
          case None => false
          case Some(done) =>
            && |done| > 0 && candidates == |done| && terminating == done[|done| - 1] && terminating < |s.nodes|
            && (s.nodes[terminating].control == OptimizationDecided(true) || |done| == |w.nodes[n].kind.checks|))
    case NodeJoined(n, selected, completed, unselected) =>
      w.nodes[n].kind.Join? && AcceptsJoin(w, s, n, selected, completed, unselected)
    case ControlFailed(n) => AcceptsControlFailure(w, s, n)
  }

  predicate AcceptsJoin(w: Workflow, s: RunState, n: NodeId, selected: Case, completed: NodeId, unselected: seq<NodeId>)
    requires Declared(w) && Matches(w, s) && n < |w.nodes| && w.nodes[n].kind.Join?
  {
    var kind := w.nodes[n].kind;
    && DependenciesSettled(w, s, n)
    && s.nodes[kind.conditionId].status.Succeeded? && s.nodes[kind.conditionId].control == ConditionDecided(selected)
    && (match BranchFor(kind.branches, selected)
        case None => false
        case Some(branch) => completed == branch.nodeId && HasStatus(s, completed, Succeeded))
    && unselected == Unselected(kind.branches, selected)
    && forall i | 0 <= i < |unselected| :: HasStatus(s, unselected[i], Omitted)
  }

  predicate AcceptsOmission(w: Workflow, s: RunState, n: NodeId, reason: Omission)
    requires Declared(w) && Matches(w, s) && n < |w.nodes|
  {
    var node := w.nodes[n];
    match reason
    case ConditionNotSelected(selected) =>
      && node.when.Some? && selected != node.when.value.selects
      && (var condition := s.nodes[node.when.value.conditionId];
          condition.status.Succeeded? && condition.control == ConditionDecided(selected))
    case LoopNotContinued =>
      && node.loopGuard.Some? && EntersIteration(w, node, node.loopGuard.value)
      && (var check := s.nodes[node.loopGuard.value]; check.status.Succeeded? && check.control == LoopDecided(true))
    case OptimizationStopped =>
      && node.optimizationGuard.Some?
      && (var check := s.nodes[node.optimizationGuard.value];
          check.status.Succeeded? && check.control == OptimizationDecided(true))
    case DependencyOmitted(omitted) =>
      && (node.when.Some? ==>
            var condition := s.nodes[node.when.value.conditionId];
            || condition.status.Omitted?
            || (condition.status.Succeeded? && condition.control == ConditionDecided(node.when.value.selects)))
      && omitted == OmittedAmong(s, node.dependsOn) && |omitted| > 0
  }

  predicate AcceptsControlFailure(w: Workflow, s: RunState, n: NodeId)
    requires Declared(w) && Matches(w, s) && n < |w.nodes|
  {
    match w.nodes[n].kind
    case Condition(source, _, _) =>
      && DependenciesSucceeded(w, s, n) && Selected(w, s, n)
      && Source(s, source).Some? && Source(s, source).value.truncated
    case LoopCheck(_, _, source, _) =>
      && DependenciesSettled(w, s, n)
      && Source(s, source).Some? && Source(s, source).value.truncated
    case Approval(observes) =>
      && DependenciesSucceeded(w, s, n) && Selected(w, s, n)
      && AllReadable(s, observes) && AnyTruncated(s, observes)
    case Result(source, admits) =>
      && DependenciesSucceeded(w, s, n) && Selected(w, s, n)
      && Source(s, source).Some?
      && (Source(s, source).value.truncated || Source(s, source).value.value !in admits)
    case OptimizationCheck => DependenciesSettled(w, s, n) && Selected(w, s, n)
    case Loop(checks) =>
      && DependenciesSettled(w, s, n)
      && forall i | 0 <= i < |checks| :: s.nodes[checks[i]].control == LoopDecided(false)
    case _ => false
  }

  // ---------------------------------------------------------------------
  // Effect
  // ---------------------------------------------------------------------

  /** A control node settles as its first and only attempt. */
  function Decided(node: NodeState, control: Control): NodeState {
    node.(status := Succeeded, attempt := 1, control := control)
  }

  function Reopened(node: NodeState): NodeState {
    node.(status := Pending, evidence := None, approval := NoRequest, awaiting := false, effects := [])
  }

  function SettledEffect(applied: bool): EffectState {
    if applied then Applied else NotApplied
  }

  function NodeAfter(w: Workflow, s: RunState, e: Event): NodeState
    requires Declared(w) && Matches(w, s) && Accepts(w, s, e) && Target(e).Some?
  {
    var n := e.node;
    var node := s.nodes[n];
    match e
    case CommandApprovalRequested(_, _) => node.(approval := Requested)
    case CommandApprovalGranted(_) => node.(approval := Granted)
    case CommandApprovalDenied(_) =>
      node.(status := Failed, attempt := node.attempt + 1, approval := Denied, retryable := false)
    case CommandApprovalExpired(_) => node.(approval := Expired)
    case WorkflowApprovalRequested(_) => node.(awaiting := true)
    case WorkflowApprovalApproved(_) => node.(status := Succeeded, attempt := 1)
    case WorkflowApprovalDenied(_) => node.(status := Failed, attempt := 1, retryable := false)
    case NodeStarted(_, attempt) =>
      node.(status := Running, attempt := attempt, effects := [],
            approval := if w.nodes[n].kind == Command(true) then Consumed else node.approval)
    case NodeInterrupted(_, _) => Reopened(node)
    case NodeRetryScheduled(_, _) => Reopened(node)
    case NodeSucceeded(_, _, output, _) => node.(status := Succeeded, evidence := Some(output))
    case NodeFailed(_, _, mayRetry, _) => node.(status := Failed, retryable := mayRetry)
    case EffectPrepared(_) => node.(effects := node.effects + [Open])
    case EffectSettled(_, i, applied) => node.(effects := node.effects[i := SettledEffect(applied)])
    case EffectReconciled(_, i, applied) => node.(effects := node.effects[i := SettledEffect(applied)])
    case ConditionEvaluated(_, selected) => Decided(node, ConditionDecided(selected))
    case ResultPublished(_) => Decided(node, node.control).(evidence := Source(s, w.nodes[n].kind.source))
    case LoopChecked(_, stop) => Decided(node, LoopDecided(stop))
    case OptimizationProgressed(_) => node
    case OptimizationChecked(_, stop) => Decided(node, OptimizationDecided(stop))
    case NodeOmitted(_, _) => node.(status := Omitted)
    case ControlFailed(_) => node.(status := Failed, attempt := 1, retryable := false)
    case _ => Decided(node, node.control)
  }

  function StatusAfter(status: RunStatus, e: Event): RunStatus {
    match e
    case CommandApprovalRequested(_, _) => Waiting
    case WorkflowApprovalRequested(_) => Waiting
    case CommandApprovalGranted(_) => Active
    case CommandApprovalDenied(_) => Active
    case WorkflowApprovalApproved(_) => Active
    case WorkflowApprovalDenied(_) => Active
    case RunSucceeded => RunDone(AllSucceeded)
    case RunFailed(_) => RunDone(SomeFailed)
    case RunCancelled => RunDone(Cancelled)
    case RunExhausted => RunDone(Exhausted)
    case _ => status
  }

  function SpentAfter(spent: Amounts, e: Event): Amounts {
    match e
    case NodeStarted(_, _) => spent.(nodeStarts := spent.nodeStarts + 1)
    case NodeSucceeded(_, _, _, used) => Plus(spent, used)
    case NodeFailed(_, _, _, used) => Plus(spent, used)
    case _ => spent
  }

  function Effect(w: Workflow, s: RunState, e: Event): (after: RunState)
    requires Declared(w) && Matches(w, s) && Accepts(w, s, e)
    ensures Matches(w, after)
  {
    var nodes := if Target(e).None? then s.nodes else s.nodes[Target(e).value := NodeAfter(w, s, e)];
    RunState(StatusAfter(s.status, e), nodes, SpentAfter(s.spent, e))
  }
}
