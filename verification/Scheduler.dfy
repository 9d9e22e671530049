/** The deterministic scheduler: which transition a run takes next, the control
    event that records it, and the history check that matches one to the other. */
module Scheduler {
  import opened Standard
  import opened WorkflowGraph
  import opened RunReducer

  datatype Transition =
    | Execute(node: NodeId)
    | RequestApproval(node: NodeId)
    | EvaluateCondition(node: NodeId)
    | PublishResult(node: NodeId)
    | OmitCondition(node: NodeId, selected: Case)
    | OmitDependency(node: NodeId, omitted: seq<NodeId>)
    | OmitLoop(node: NodeId)
    | OmitOptimization(node: NodeId)
    | TakeJoin(node: NodeId)
    | EvaluateLoop(node: NodeId)
    | CompleteLoop(node: NodeId)
    | EvaluateOptimization(node: NodeId)
    | CompleteOptimization(node: NodeId)

  function ConditionDecision(s: RunState, n: NodeId): Option<Case> {
    if n < |s.nodes| && s.nodes[n].control.ConditionDecided? then Some(s.nodes[n].control.selected) else None
  }

  function LoopDecision(s: RunState, n: NodeId): Option<bool> {
    if n < |s.nodes| && s.nodes[n].control.LoopDecided? then Some(s.nodes[n].control.stop) else None
  }

  function OptimizationDecision(s: RunState, n: NodeId): Option<bool> {
    if n < |s.nodes| && s.nodes[n].control.OptimizationDecided? then Some(s.nodes[n].control.stop) else None
  }

  /** What a guard says about a node whose dependencies are settled. */
  datatype Verdict = Blocked | Rejects | Permits

  function GuardVerdict(decision: Option<bool>, guardOmitted: bool): Verdict {
    match decision
    case Some(stop) => if stop then Rejects else Permits
    case None => if guardOmitted then Permits else Blocked
  }

  /** The transition that a pending node with settled dependencies is ready for. */
  function Ready(w: Workflow, s: RunState, n: NodeId): (t: Option<Transition>)
    requires Declared(w) && Matches(w, s) && n < |w.nodes|
    ensures t.Some? ==> t.value.node == n && s.nodes[n].status.Pending? && DependenciesSettled(w, s, n)
  {
    if !s.nodes[n].status.Pending? || !DependenciesSettled(w, s, n) then None
    else
      var guard := w.nodes[n].optimizationGuard;
      var verdict := if guard.None? then Permits
                     else GuardVerdict(OptimizationDecision(s, guard.value), HasStatus(s, guard.value, Omitted));
      match verdict
      case Blocked => None
      case Rejects => Some(OmitOptimization(n))
      case Permits => ReadyByKind(w, s, n)
  }

  function ReadyByKind(w: Workflow, s: RunState, n: NodeId): (t: Option<Transition>)
    requires Declared(w) && Matches(w, s) && n < |w.nodes|
    ensures t.Some? ==> t.value.node == n
  {
    var omitted := OmittedAmong(s, w.nodes[n].dependsOn);
    match w.nodes[n].kind
    case Join(conditionId, _) =>
      if ConditionDecision(s, conditionId).Some? then Some(TakeJoin(n))
      else if HasStatus(s, conditionId, Omitted) && |omitted| > 0 then Some(OmitDependency(n, omitted))
      else None
    case LoopCheck(_, _, _, _) =>
      if |omitted| > 0 then Some(OmitDependency(n, omitted)) else Some(EvaluateLoop(n))
    case Loop(checks) =>
      if FirstStop(s, checks).Some? then Some(CompleteLoop(n))
      else if |omitted| > 0 then Some(OmitDependency(n, omitted))
      else Some(CompleteLoop(n))
    case OptimizationCheck =>
      if |omitted| > 0 then Some(OmitDependency(n, omitted)) else Some(EvaluateOptimization(n))
    case Optimization(_) => Some(CompleteOptimization(n))
    case _ => ReadyByGuards(w, s, n)
  }

  function ReadyByGuards(w: Workflow, s: RunState, n: NodeId): (t: Option<Transition>)
    requires Declared(w) && Matches(w, s) && n < |w.nodes|
    ensures t.Some? ==> t.value.node == n
  {
    var guard := w.nodes[n].loopGuard;
    var verdict := if guard.None? then Permits
                   else GuardVerdict(LoopDecision(s, guard.value), HasStatus(s, guard.value, Omitted));
    match verdict
    case Blocked => None
    case Rejects => Some(OmitLoop(n))
    case Permits =>
      var when := w.nodes[n].when;
      if when.None? then ReadyUnguarded(w, s, n)
      else match ConditionDecision(s, when.value.conditionId)
        case Some(selected) =>
          if selected != when.value.selects then Some(OmitCondition(n, selected)) else ReadyUnguarded(w, s, n)
        case None => if HasStatus(s, when.value.conditionId, Omitted) then ReadyUnguarded(w, s, n) else None
  }

  function ReadyUnguarded(w: Workflow, s: RunState, n: NodeId): (t: Option<Transition>)
    requires Declared(w) && Matches(w, s) && n < |w.nodes|
    ensures t.Some? && t.value.node == n
  {
    var omitted := OmittedAmong(s, w.nodes[n].dependsOn);
    if |omitted| > 0 then Some(OmitDependency(n, omitted))
    else match w.nodes[n].kind
      case Condition(_, _, _) => Some(EvaluateCondition(n))
      case Approval(_) => Some(RequestApproval(n))
      case Result(_, _) => Some(PublishResult(n))
      case _ => Some(Execute(n))
  }

  /** The first ready node in declaration order. */
  function SelectFrom(w: Workflow, s: RunState, n: NodeId): (t: Option<Transition>)
    requires Declared(w) && Matches(w, s) && n <= |w.nodes|
    ensures t.Some? ==>
      && n <= t.value.node < |w.nodes| && Ready(w, s, t.value.node) == t
      && forall m | n <= m < t.value.node :: Ready(w, s, m).None?
    ensures t.None? ==> forall m | n <= m < |w.nodes| :: Ready(w, s, m).None?
    decreases |w.nodes| - n
  {
    if n == |w.nodes| then None
    else if Ready(w, s, n).Some? then Ready(w, s, n)
    else SelectFrom(w, s, n + 1)
  }

  function SelectNext(w: Workflow, s: RunState): (t: Option<Transition>)
    requires Declared(w) && Matches(w, s)
    ensures t.Some? ==>
      && t.value.node < |w.nodes| && Ready(w, s, t.value.node) == t
      && forall m | 0 <= m < t.value.node :: Ready(w, s, m).None?
    ensures t.None? ==> forall m | 0 <= m < |w.nodes| :: Ready(w, s, m).None?
  {
    SelectFrom(w, s, 0)
  }

  /** The scheduler's loop over the nodes. */
  method SelectNextTransition(w: Workflow, s: RunState) returns (t: Option<Transition>)
    requires Declared(w) && Matches(w, s)
    ensures t == SelectNext(w, s)
  {
    for n := 0 to |w.nodes|
      invariant SelectNext(w, s) == SelectFrom(w, s, n)
    {
      t := Ready(w, s, n);
      if t.Some? {
        return;
      }
    }
    t := None;
  }

  /** The event the scheduler records for a control transition; None where the
      source throws because a decision or a source it relies on is missing. */
  function ControlEvent(w: Workflow, s: RunState, t: Transition): (e: Option<Event>)
    requires Declared(w) && Matches(w, s) && t.node < |w.nodes|
  {
    var n := t.node;
    var node := w.nodes[n];
    match t
    case Execute(_) => None
    case EvaluateOptimization(_) => None
    case OmitOptimization(_) => if node.optimizationGuard.None? then None else Some(NodeOmitted(n, OptimizationStopped))
    case OmitLoop(_) => if node.loopGuard.None? then None else Some(NodeOmitted(n, LoopNotContinued))
    case OmitCondition(_, selected) => if node.when.None? then None
      else Some(NodeOmitted(n, ConditionNotSelected(selected)))
    case OmitDependency(_, omitted) => Some(NodeOmitted(n, DependencyOmitted(omitted)))
    case TakeJoin(_) =>
      if !node.kind.Join? || ConditionDecision(s, node.kind.conditionId).None? then None
      else
        var selected := ConditionDecision(s, node.kind.conditionId).value;
        (match BranchFor(node.kind.branches, selected)
         case None => None
         case Some(branch) => Some(NodeJoined(n, selected, branch.nodeId, Unselected(node.kind.branches, selected))))
    case CompleteLoop(_) =>
      if !node.kind.Loop? then None
      else (match FirstStop(s, node.kind.checks)
            case None => Some(ControlFailed(n))
            case Some(i) => Some(LoopCompleted(n, i + 1, node.kind.checks[i])))
    case CompleteOptimization(_) =>
      if !node.kind.Optimization? then None
      else
        var done := DecidedChecks(s, node.kind.checks);
        if |done| == 0 then None else Some(OptimizationCompleted(n, |done|, done[|done| - 1]))
    case RequestApproval(_) =>
      if !node.kind.Approval? || !AllReadable(s, node.kind.observes) then None
      else if AnyTruncated(s, node.kind.observes) then Some(ControlFailed(n))
      else Some(WorkflowApprovalRequested(n))
    case PublishResult(_) =>
      if !node.kind.Result? then None
      else (match Source(s, node.kind.source)
            case None => None
            case Some(seen) =>
              if seen.truncated
                || seen.value !in node.kind.admits then Some(ControlFailed(n)) else Some(ResultPublished(n)))
    case EvaluateLoop(_) =>
      if !node.kind.LoopCheck? then None
      else (match Source(s, node.kind.source)
            case None => None
            case Some(seen) =>
              if seen.truncated then Some(ControlFailed(n)) else Some(LoopChecked(n, seen.value == node.kind.stopsOn)))
    case EvaluateCondition(_) =>
      if !node.kind.Condition? then None
      else (match Source(s, node.kind.source)
            case None => None
            case Some(seen) =>
              if seen.truncated then Some(ControlFailed(n))
              else Some(ConditionEvaluated(n, SelectedCase(node.kind.cases, node.kind.otherwise, seen.value))))
  }

  /** The registered checks that carry a decision, in order. */
  function DecidedChecks(s: RunState, checks: seq<NodeId>): (done: seq<NodeId>)
    ensures forall c :: c in done <==> c in checks && c < |s.nodes| && s.nodes[c].control.OptimizationDecided?
  {
    if |checks| == 0 then []
    else
      (if checks[0] < |s.nodes| && s.nodes[checks[0]].control.OptimizationDecided? then [checks[0]] else [])
      + DecidedChecks(s, checks[1..])
  }

  /** Whether a recorded control event is the one the expected transition calls for. */
  predicate MatchesTransition(e: Event, expected: Option<Transition>) {
    expected.Some? &&
    (var t := expected.value;
     match e
     case ConditionEvaluated(n, _) => t == EvaluateCondition(n)
     case ResultPublished(n) => t == PublishResult(n)
     case WorkflowApprovalRequested(n) => t == RequestApproval(n)
     case LoopChecked(n, _) => t == EvaluateLoop(n)
     case LoopCompleted(n, _, _) => t == CompleteLoop(n)
     case OptimizationProgressed(n) => t == EvaluateOptimization(n)
     case OptimizationChecked(n, _) => t == EvaluateOptimization(n)
     case OptimizationCompleted(n, _, _) => t == CompleteOptimization(n)
     case ControlFailed(n) =>
       && t.node == n
       && (t.EvaluateCondition? || t.RequestApproval? || t.PublishResult? || t.EvaluateLoop? || t.CompleteLoop? ||
           t.EvaluateOptimization? || t.CompleteOptimization?)
     case NodeJoined(n, _, _, _) => t == TakeJoin(n)
     case NodeOmitted(n, _) => t.node == n
       && (t.OmitCondition? || t.OmitDependency? || t.OmitLoop? || t.OmitOptimization?)
     case _ => false)
  }

  predicate ControlRecord(e: Event) {
    || e.ConditionEvaluated? || e.ResultPublished? || e.LoopChecked? || e.LoopCompleted?
    || e.OptimizationProgressed? || e.OptimizationChecked? || e.OptimizationCompleted?
    || e.NodeOmitted? || e.NodeJoined? || e.ControlFailed? || e.WorkflowApprovalRequested?
  }

  /** The event recorded for a control transition always passes the history check. */
  lemma ControlEventMatches(w: Workflow, s: RunState, t: Transition)
    requires Declared(w) && Matches(w, s) && t.node < |w.nodes|
    requires ControlEvent(w, s, t).Some?
    ensures MatchesTransition(ControlEvent(w, s, t).value, Some(t))
    ensures ControlRecord(ControlEvent(w, s, t).value)
  {
  }

  /** Which transition a node is ready for depends only on its own status, on which
      nodes are settled or omitted, and on the recorded decisions. */
  ghost predicate SameView(s: RunState, s': RunState, n: NodeId)
  {
    && |s.nodes| == |s'.nodes| && n < |s.nodes|
    && s.nodes[n].status == s'.nodes[n].status
    && forall m | 0 <= m < |s.nodes| ::
        && (s.nodes[m].status.Succeeded? <==> s'.nodes[m].status.Succeeded?)
        && (s.nodes[m].status.Omitted? <==> s'.nodes[m].status.Omitted?)
        && s.nodes[m].control == s'.nodes[m].control
  }

  lemma OmittedAmongView(s: RunState, s': RunState, ids: seq<NodeId>, n: NodeId)
    requires SameView(s, s', n)
    requires forall i | 0 <= i < |ids| :: ids[i] < |s.nodes|
    ensures OmittedAmong(s, ids) == OmittedAmong(s', ids)
  {
  }

  lemma FirstStopView(s: RunState, s': RunState, checks: seq<NodeId>, n: NodeId)
    requires SameView(s, s', n)
    ensures FirstStop(s, checks) == FirstStop(s', checks)
  {
  }

  lemma ReadyByGuardsView(w: Workflow, s: RunState, s': RunState, n: NodeId)
    requires Declared(w) && Matches(w, s) && n < |w.nodes|
    requires SameView(s, s', n)
    ensures Matches(w, s') && ReadyByGuards(w, s, n) == ReadyByGuards(w, s', n)
  {
    assert RefsInRange(w, w.nodes[n]);
    OmittedAmongView(s, s', w.nodes[n].dependsOn, n);
    assert ReadyUnguarded(w, s, n) == ReadyUnguarded(w, s', n);
  }

  lemma ReadyByKindView(w: Workflow, s: RunState, s': RunState, n: NodeId)
    requires Declared(w) && Matches(w, s) && n < |w.nodes|
    requires SameView(s, s', n)
    ensures Matches(w, s') && ReadyByKind(w, s, n) == ReadyByKind(w, s', n)
  {
    assert RefsInRange(w, w.nodes[n]);
    OmittedAmongView(s, s', w.nodes[n].dependsOn, n);
    match w.nodes[n].kind
    case Join(_, _) =>
    case LoopCheck(_, _, _, _) =>
    case Loop(checks) => FirstStopView(s, s', checks, n);
    case OptimizationCheck =>
    case Optimization(_) =>
    case _ => ReadyByGuardsView(w, s, s', n);
  }

  lemma ReadyView(w: Workflow, s: RunState, s': RunState, n: NodeId)
    requires Declared(w) && Matches(w, s) && n < |w.nodes|
    requires SameView(s, s', n)
    ensures Matches(w, s') && Ready(w, s, n) == Ready(w, s', n)
  {
    assert RefsInRange(w, w.nodes[n]);
    assert DependenciesSettled(w, s, n) <==> DependenciesSettled(w, s', n);
    ReadyByKindView(w, s, s', n);
  }

  /** Starting the chosen node leaves every other node's readiness alone, so the
      next choice, if any, lies strictly later in declaration order. */
  lemma ChoicesAscend(w: Workflow, s: RunState, n: NodeId, s': RunState)
    requires Declared(w) && Matches(w, s) && Matches(w, s')
    requires SelectNext(w, s).Some? && SelectNext(w, s).value.node == n
    requires s'.nodes[n].status.Running? && s'.nodes[n].control == s.nodes[n].control
    requires forall m | 0 <= m < |s.nodes| && m != n :: s'.nodes[m] == s.nodes[m]
    ensures SelectNext(w, s').Some? ==> SelectNext(w, s').value.node > n
    ensures forall m | 0 <= m < |w.nodes| && m != n :: Ready(w, s', m) == Ready(w, s, m)
  {
    forall m | 0 <= m < |w.nodes| && m != n
      ensures Ready(w, s', m) == Ready(w, s, m)
    {
      ReadyView(w, s, s', m);
    }
  }
}
