/** What must already stand in an accepted ledger before each kind of record. */
module LedgerSafety {
  import opened WorkflowGraph
  import opened RunReducer
  import opened Scheduler
  import opened RecoveredHistory
  import opened RunSafety
  import opened RunAccounting
  import opened LedgerReading

  function NodesAt(w: Workflow, ledger: seq<Event>, status: Status): set<NodeId> {
    set n: NodeId | n < |w.nodes| && StatusRead(ledger, n) == status
  }

  /** The replayed state, as far as it is read off the ledger. */
  lemma Standings(w: Workflow, ledger: seq<Event>)
    requires Declared(w) && Replayed(w, ledger).Some?
    ensures FinalState(w, ledger).status == CourseRead(ledger)
    ensures forall n | 0 <= n < |w.nodes| :: FinalState(w, ledger).nodes[n].status == StatusRead(ledger, n)
    ensures forall status :: WithStatus(FinalState(w, ledger), status) == NodesAt(w, ledger, status)
    ensures forall status :: SomeStatus(FinalState(w, ledger), status) <==> NodesAt(w, ledger, status) != {}
  {
    CourseIsRead(w, ledger);
    var s := FinalState(w, ledger);
    forall n | 0 <= n < |w.nodes|
      ensures s.nodes[n].status == StatusRead(ledger, n)
    {
      StandingIsRead(w, ledger, n);
    }
    forall status
      ensures WithStatus(s, status) == NodesAt(w, ledger, status)
      ensures SomeStatus(s, status) <==> NodesAt(w, ledger, status) != {}
    {
      if SomeStatus(s, status) {
        var n :| 0 <= n < |s.nodes| && s.nodes[n].status == status;
        assert n in NodesAt(w, ledger, status);
      }
    }
  }

  // ---------------------------------------------------------------------
  // Starts
  // ---------------------------------------------------------------------

  lemma StartAccepted(w: Workflow, s: RunState, n: NodeId, attempt: nat)
    requires Declared(w) && Matches(w, s) && Accepts(w, s, NodeStarted(n, attempt))
    ensures n < |w.nodes| && s.status.Active? && s.nodes[n].status.Pending?
    ensures |WithStatus(s, Running)| < w.maxNodes
    ensures DependenciesSucceeded(w, s, n) && Selected(w, s, n)
    ensures w.nodes[n].kind == Command(true) ==> s.nodes[n].approval.Granted?
  {
  }

  /** The records before the start decided each of the node's guards in its favour. */
  predicate GuardsDecided(ledger: seq<Event>, node: Node) {
    && (node.when.Some? ==> DecidedBy(ledger, node.when.value.conditionId, ConditionDecided(node.when.value.selects)))
    && (node.loopGuard.Some? ==> DecidedBy(ledger, node.loopGuard.value, LoopDecided(false)))
    && (node.optimizationGuard.Some? ==> DecidedBy(ledger, node.optimizationGuard.value, OptimizationDecided(false)))
  }

  lemma SelectionIsDecided(w: Workflow, ledger: seq<Event>, n: NodeId)
    requires Declared(w) && Replayed(w, ledger).Some? && n < |w.nodes|
    ensures Selected(w, FinalState(w, ledger), n) ==> GuardsDecided(ledger, w.nodes[n])
  {
    var node := w.nodes[n];
    assert RefsInRange(w, node);
    if node.when.Some? {
      DecisionIsRead(w, ledger, node.when.value.conditionId, ConditionDecided(node.when.value.selects));
    }
    if node.loopGuard.Some? {
      DecisionIsRead(w, ledger, node.loopGuard.value, LoopDecided(false));
    }
    if node.optimizationGuard.Some? {
      DecisionIsRead(w, ledger, node.optimizationGuard.value, OptimizationDecided(false));
    }
  }

  /** A node starts only while the run is active and fewer nodes run than may, after each
      dependency succeeded and each guard was decided for it, and, for a command that
      needs approval, while the last word on its approval is that it was granted. */
  lemma StartsAreDue(w: Workflow, ledger: seq<Event>, i: nat)
    requires Declared(w) && Replayed(w, ledger).Some? && i < |ledger| && ledger[i].NodeStarted?
    ensures var n, before := ledger[i].node, ledger[..i];
            && n < |w.nodes| && CourseRead(before) == Active && StatusRead(before, n) == Pending
            && |NodesAt(w, before, Running)| < w.maxNodes
            && (forall k | 0 <= k < |w.nodes[n].dependsOn| :: StatusRead(before, w.nodes[n].dependsOn[k]) == Succeeded)
            && GuardsDecided(before, w.nodes[n])
            && (w.nodes[n].kind == Command(true) ==> ApprovalRead(before, n) == Granted)
  {
    AcceptedAt(w, ledger, i);
    var n, before := ledger[i].node, ledger[..i];
    StartAccepted(w, StateAt(w, ledger, i), n, ledger[i].attempt);
    Standings(w, before);
    SelectionIsDecided(w, before, n);
    assert RefsInRange(w, w.nodes[n]);
    if w.nodes[n].kind == Command(true) {
      ApprovalIsRead(w, before, n);
    }
  }

  lemma OneMoreMoves(w: Workflow, ledger: seq<Event>)
    requires |ledger| > 0
    ensures var before, e := ledger[..|ledger| - 1], ledger[|ledger| - 1];
            if e.NodeStarted? then NodesAt(w, ledger, Running) <= NodesAt(w, before, Running) + {e.node}
            else NodesAt(w, ledger, Running) <= NodesAt(w, before, Running)
  {
    var before := ledger[..|ledger| - 1];
    forall n: NodeId | n in NodesAt(w, ledger, Running)
      ensures n in NodesAt(w, before, Running) || (ledger[|ledger| - 1].NodeStarted? && n == ledger[|ledger| - 1].node)
    {
      ReadStep(ledger, n);
    }
  }

  lemma AtMost(a: set<NodeId>, b: set<NodeId>)
    requires a <= b
    ensures |a| <= |b|
  {
    assert b == a + (b - a);
  }

  /** At no point do more nodes run than the workflow allows. */
  lemma {:induction false} ConcurrencyIsBounded(w: Workflow, ledger: seq<Event>)
    requires Declared(w) && Replayed(w, ledger).Some?
    ensures |NodesAt(w, ledger, Running)| <= w.maxNodes
  {
    if |ledger| == 0 {
      assert NodesAt(w, ledger, Running) == {};
    } else {
      var before, e := ledger[..|ledger| - 1], ledger[|ledger| - 1];
      ConcurrencyIsBounded(w, before);
      OneMoreMoves(w, ledger);
      if e.NodeStarted? {
        StartsAreDue(w, ledger, |ledger| - 1);
        AtMost(NodesAt(w, ledger, Running), NodesAt(w, before, Running) + {e.node});
      } else {
        AtMost(NodesAt(w, ledger, Running), NodesAt(w, before, Running));
      }
    }
  }

  // ---------------------------------------------------------------------
  // Outcomes and recovery
  // ---------------------------------------------------------------------

  lemma OutcomeAccepted(w: Workflow, s: RunState, e: Event)
    requires Declared(w) && Matches(w, s) && Accepts(w, s, e) && (e.NodeSucceeded? || e.NodeFailed?)
    ensures e.node < |w.nodes| && s.nodes[e.node].status.Running?
    ensures forall m | 0 <= m < e.node :: s.nodes[m].status != Running
  {
  }

  /** Outcomes are recorded of running nodes only, the first in declaration order first. */
  lemma OutcomesInOrder(w: Workflow, ledger: seq<Event>, i: nat)
    requires Declared(w) && Replayed(w, ledger).Some? && i < |ledger|
    requires ledger[i].NodeSucceeded? || ledger[i].NodeFailed?
    ensures ledger[i].node < |w.nodes| && StatusRead(ledger[..i], ledger[i].node) == Running
    ensures forall m | 0 <= m < ledger[i].node :: StatusRead(ledger[..i], m) != Running
  {
    AcceptedAt(w, ledger, i);
    OutcomeAccepted(w, StateAt(w, ledger, i), ledger[i]);
    Standings(w, ledger[..i]);
  }

  lemma InterruptionAccepted(w: Workflow, s: RunState, n: NodeId, attempt: nat)
    requires Declared(w) && Matches(w, s) && Accepts(w, s, NodeInterrupted(n, attempt))
    ensures n < |w.nodes| && s.nodes[n].status.Running?
    ensures var kind := w.nodes[n].kind; kind.Agent? && kind.recovery.Some? && s.nodes[n].attempt < kind.recovery.value
    ensures w.limits.modelTokens.None? && w.limits.modelCost.None? && w.limits.executionMs.None?
    ensures !StartsExhausted(w.limits, s.spent)
    ensures forall k | 0 <= k < |s.nodes[n].effects| :: s.nodes[n].effects[k].NotApplied?
  {
  }

  /** An attempt is given up as interrupted only where the agent may be attempted again,
      no limit that an unrecorded outcome could have touched is declared, and every
      effect the attempt prepared was found not applied. */
  lemma InterruptionsLoseNothing(w: Workflow, ledger: seq<Event>, i: nat)
    requires WellFormed(w) && Replayed(w, ledger).Some? && i < |ledger| && ledger[i].NodeInterrupted?
    ensures var n, before := ledger[i].node, ledger[..i];
            && n < |w.nodes| && StatusRead(before, n) == Running
            && w.nodes[n].kind.Agent? && w.nodes[n].kind.recovery.Some?
            && AttemptsIn(before, n) < w.nodes[n].kind.recovery.value
            && (forall k: nat | k < PreparedIn(before, n) :: EffectRead(before, n, k) == NotApplied)
            && w.limits.modelTokens.None? && w.limits.modelCost.None? && w.limits.executionMs.None?
            && (w.limits.nodeStarts.Some? ==> SumOf(before, NodeStarts) < w.limits.nodeStarts.value)
  {
    AcceptedAt(w, ledger, i);
    var s, n, before := StateAt(w, ledger, i), ledger[i].node, ledger[..i];
    InterruptionAccepted(w, s, n, ledger[i].attempt);
    Standings(w, before);
    AttemptsAreCounted(w, before, n);
    EffectsAreRead(w, before, n);
    LimitsReached(w, before);
    forall k: nat | k < PreparedIn(before, n)
      ensures EffectRead(before, n, k) == NotApplied
    {
      assert s.nodes[n].effects[k] == EffectRead(before, n, k);
    }
  }

  /** What the records say of a failed node that may be attempted again: its failure
      allows it, the agent has attempts left, the attempt prepared no effect, and no limit
      is used up. */
  ghost predicate MayRetry(w: Workflow, ledger: seq<Event>, n: NodeId)
    requires n < |w.nodes|
  {
    && RetryRead(ledger, n) && PreparedIn(ledger, n) == 0
    && w.nodes[n].kind.Agent? && w.nodes[n].kind.recovery.Some?
    && AttemptsIn(ledger, n) < w.nodes[n].kind.recovery.value
    && forall r: Resource :: !Used(ledger, w.limits, r)
  }

  lemma RetryIsReadOff(w: Workflow, ledger: seq<Event>, n: NodeId)
    requires WellFormed(w) && Replayed(w, ledger).Some? && n < |w.nodes|
    requires FinalState(w, ledger).nodes[n].status.Failed?
    ensures CanRetry(w, FinalState(w, ledger), n) <==> MayRetry(w, ledger, n)
  {
    AttemptsAreCounted(w, ledger, n);
    EffectsAreRead(w, ledger, n);
    RetryIsRead(w, ledger, n);
    LimitsReached(w, ledger);
  }

  lemma RetryAccepted(w: Workflow, s: RunState, n: NodeId, attempt: nat)
    requires Declared(w) && Matches(w, s) && Accepts(w, s, NodeRetryScheduled(n, attempt))
    ensures n < |w.nodes| && s.nodes[n].status.Failed? && CanRetry(w, s, n)
  {
  }

  /** A failed node is retried only if its failure said so, the agent has attempts left,
      the attempt prepared no effect and no limit is used up. */
  lemma RetriesAreAllowed(w: Workflow, ledger: seq<Event>, i: nat)
    requires WellFormed(w) && Replayed(w, ledger).Some? && i < |ledger| && ledger[i].NodeRetryScheduled?
    ensures var n, before := ledger[i].node, ledger[..i];
            n < |w.nodes| && StatusRead(before, n) == Failed && MayRetry(w, before, n)
  {
    AcceptedAt(w, ledger, i);
    var n, before := ledger[i].node, ledger[..i];
    RetryAccepted(w, StateAt(w, ledger, i), n, ledger[i].attempt);
    StandingIsRead(w, before, n);
    RetryIsReadOff(w, before, n);
  }

  lemma EffectAccepted(w: Workflow, s: RunState, e: Event)
    requires Declared(w) && Matches(w, s) && Accepts(w, s, e)
    requires e.EffectPrepared? || e.EffectSettled? || e.EffectReconciled?
    ensures e.node < |w.nodes| && s.nodes[e.node].status.Running?
    ensures !e.EffectPrepared? ==> e.index < |s.nodes[e.node].effects| && s.nodes[e.node].effects[e.index].Open?
  {
  }

  /** An effect is prepared by a running node, and found applied or not at most once. */
  lemma EffectsAreFoundOnce(w: Workflow, ledger: seq<Event>, i: nat)
    requires Declared(w) && Replayed(w, ledger).Some? && i < |ledger|
    requires ledger[i].EffectPrepared? || ledger[i].EffectSettled? || ledger[i].EffectReconciled?
    ensures var e, before := ledger[i], ledger[..i];
            && e.node < |w.nodes| && StatusRead(before, e.node) == Running
            && (!e.EffectPrepared? ==>
              e.index < PreparedIn(before, e.node) && EffectRead(before, e.node, e.index) == Open)
  {
    AcceptedAt(w, ledger, i);
    EffectAccepted(w, StateAt(w, ledger, i), ledger[i]);
    Standings(w, ledger[..i]);
    EffectsAreRead(w, ledger[..i], ledger[i].node);
  }

  // ---------------------------------------------------------------------
  // Approvals
  // ---------------------------------------------------------------------

  lemma RequestAccepted(w: Workflow, s: RunState, n: NodeId, attempt: nat)
    requires Declared(w) && Matches(w, s) && Accepts(w, s, CommandApprovalRequested(n, attempt))
    ensures n < |w.nodes| && s.status.Active? && w.nodes[n].kind == Command(true)
    ensures !SomeStatus(s, Running) && !AnotherApprovalOpen(s, n)
    ensures s.nodes[n].approval.NoRequest? || s.nodes[n].approval.Expired?
  {
  }

  /** A command's approval is requested with nothing running and no other approval open,
      for a command that has none, or whose last one expired. */
  lemma RequestsAreAlone(w: Workflow, ledger: seq<Event>, i: nat)
    requires Declared(w) && Replayed(w, ledger).Some? && i < |ledger| && ledger[i].CommandApprovalRequested?
    ensures var n, before := ledger[i].node, ledger[..i];
            && n < |w.nodes| && w.nodes[n].kind == Command(true)
            && CourseRead(before) == Active && NodesAt(w, before, Running) == {}
            && (ApprovalRead(before, n) == NoRequest || ApprovalRead(before, n) == Expired)
            && forall m | 0 <= m < |w.nodes| && w.nodes[m].kind == Command(true) ::
                 ApprovalRead(before, m) != Requested && ApprovalRead(before, m) != Granted
  {
    AcceptedAt(w, ledger, i);
    var s, n, before := StateAt(w, ledger, i), ledger[i].node, ledger[..i];
    RequestAccepted(w, s, n, ledger[i].attempt);
    Standings(w, before);
    forall m | 0 <= m < |w.nodes| && w.nodes[m].kind == Command(true)
      ensures ApprovalRead(before, m) == s.nodes[m].approval
    {
      ApprovalIsRead(w, before, m);
    }
  }

  lemma DecisionOnApprovalAccepted(w: Workflow, s: RunState, e: Event)
    requires Declared(w) && Matches(w, s) && Accepts(w, s, e)
    ensures e.CommandApprovalGranted? || e.CommandApprovalDenied? ==>
              e.node < |w.nodes| && s.status.Waiting? && s.nodes[e.node].approval.Requested?
    ensures e.CommandApprovalExpired? ==>
              e.node < |w.nodes| && s.status.Active? && s.nodes[e.node].approval.Granted?
    ensures e.WorkflowApprovalApproved? || e.WorkflowApprovalDenied? ==>
              e.node < |w.nodes| && s.status.Waiting? && s.nodes[e.node].awaiting
  {
  }

  /** An approval is decided only while the run waits for it, and lapses only while
      granted and unused. */
  lemma ApprovalsAreAnswered(w: Workflow, ledger: seq<Event>, i: nat)
    requires WellFormed(w) && Replayed(w, ledger).Some? && i < |ledger|
    ensures var e, before := ledger[i], ledger[..i];
            && (e.CommandApprovalGranted? || e.CommandApprovalDenied? ==>
                  CourseRead(before) == Waiting && ApprovalRead(before, e.node) == Requested)
            && (e.CommandApprovalExpired? ==> CourseRead(before) == Active && ApprovalRead(before, e.node) == Granted)
            && (e.WorkflowApprovalApproved? || e.WorkflowApprovalDenied? ==>
                  CourseRead(before) == Waiting && AsksWorkflowApproval(before, e.node))
  {
    AcceptedAt(w, ledger, i);
    var s, e, before := StateAt(w, ledger, i), ledger[i], ledger[..i];
    DecisionOnApprovalAccepted(w, s, e);
    CourseIsRead(w, before);
    AcceptedHistoryIsSound(w, before);
    if e.CommandApprovalGranted? || e.CommandApprovalDenied? || e.CommandApprovalExpired? {
      assert NodeSound(w, s, e.node);
      ApprovalIsRead(w, before, e.node);
    } else if e.WorkflowApprovalApproved? || e.WorkflowApprovalDenied? {
      assert NodeSound(w, s, e.node);
      AwaitingIsRead(w, before, e.node);
    }
  }

  // ---------------------------------------------------------------------
  // Failure and the end
  // ---------------------------------------------------------------------

  lemma EndAccepted(w: Workflow, s: RunState, e: Event)
    requires Declared(w) && Matches(w, s) && Accepts(w, s, e)
    ensures !s.status.RunDone?
    ensures e.RunSucceeded? ==> AllSettled(s)
    ensures e.RunFailed? ==>
              && e.node < |s.nodes| && s.nodes[e.node].status.Failed?
              && forall m | 0 <= m < e.node :: s.nodes[m].status != Failed
    ensures e.RunFailed? || e.RunCancelled? || e.RunExhausted? || e == RunResumed(false) ==> !SomeStatus(s, Running)
  {
  }

  /** Nothing follows the record that ends a run; a run succeeds with every node settled
      and fails for its first failed node; and it ends, or is resumed, with nothing running. */
  lemma RunsEndOnce(w: Workflow, ledger: seq<Event>, i: nat)
    requires Declared(w) && Replayed(w, ledger).Some? && i < |ledger|
    ensures var e, before := ledger[i], ledger[..i];
            && !CourseRead(before).RunDone?
            && (e.RunSucceeded? ==> forall n | 0 <= n < |w.nodes| ::
                  StatusRead(before, n) == Succeeded || StatusRead(before, n) == Omitted)
            && (e.RunFailed? ==>
                  && e.node < |w.nodes| && StatusRead(before, e.node) == Failed
                  && forall m | 0 <= m < e.node :: StatusRead(before, m) != Failed)
            && (e.RunFailed? || e.RunCancelled? || e.RunExhausted? || e == RunResumed(false) ==>
                  NodesAt(w, before, Running) == {})
    ensures ledger[i].RunSucceeded? || ledger[i].RunFailed? || ledger[i].RunCancelled? || ledger[i].RunExhausted? ==>
              i == |ledger| - 1
  {
    AcceptedAt(w, ledger, i);
    EndAccepted(w, StateAt(w, ledger, i), ledger[i]);
    Standings(w, ledger[..i]);
    if i + 1 < |ledger| {
      AcceptedAt(w, ledger, i + 1);
      EndAccepted(w, StateAt(w, ledger, i + 1), ledger[i + 1]);
      CourseStep(w, StateAt(w, ledger, i), ledger[i]);
    }
  }

  lemma EndingChosen(w: Workflow, s: RunState, e: Event)
    requires Declared(w) && Matches(w, s) && Accepts(w, s, e)
    ensures e.RunFailed? ==>
              && e.node < |w.nodes| && s.nodes[e.node].status.Failed?
              && !(WithStatus(s, Failed) == {e.node} && CanRetry(w, s, e.node))
    ensures e.RunCancelled? ==>
              !(StartsExhausted(w.limits, s.spent) && !SomeStatus(s, Failed) && SomeStatus(s, Pending))
    ensures e.RunExhausted? ==>
              || SettlementExhausted(w.limits, s.spent)
              || (StartsExhausted(w.limits, s.spent) && !SomeStatus(s, Failed) && !AllSucceededIn(s))
  {
  }

  predicate AllSucceededIn(s: RunState) {
    forall n | 0 <= n < |s.nodes| :: s.nodes[n].status.Succeeded?
  }

  /** A run fails only if its failure may not be retried, or is not the only one; used-up
      starts end it as exhausted, and not as cancelled, exactly while nothing has failed
      and work is left. */
  lemma EndingsAreChosen(w: Workflow, ledger: seq<Event>, i: nat)
    requires WellFormed(w) && Replayed(w, ledger).Some? && i < |ledger|
    ensures var e, before := ledger[i], ledger[..i];
            && (e.RunFailed? ==>
                  e.node < |w.nodes| && !(NodesAt(w, before, Failed) == {e.node} && MayRetry(w, before, e.node)))
            && (e.RunCancelled? && Used(before, w.limits, NodeStarts) ==>
                  NodesAt(w, before, Failed) != {} || NodesAt(w, before, Pending) == {})
            && (e.RunExhausted? ==>
                  || (exists r: Resource :: !r.NodeStarts? && Used(before, w.limits, r))
                  || (Used(before, w.limits, NodeStarts) && NodesAt(w, before, Failed) == {}
                      && exists n :: 0 <= n < |w.nodes| && StatusRead(before, n) != Succeeded))
  {
    AcceptedAt(w, ledger, i);
    var s, e, before := StateAt(w, ledger, i), ledger[i], ledger[..i];
    EndingChosen(w, s, e);
    Standings(w, before);
    LimitsReached(w, before);
    if e.RunFailed? {
      RetryIsReadOff(w, before, e.node);
    }
    if e.RunExhausted? && !AllSucceededIn(s) {
      var n :| 0 <= n < |s.nodes| && !s.nodes[n].status.Succeeded?;
      assert StatusRead(before, n) != Succeeded;
    }
  }

  lemma AfterFailureAccepted(w: Workflow, s: RunState, e: Event)
    requires Declared(w) && Matches(w, s) && Accepts(w, s, e) && SomeStatus(s, Failed)
    ensures || e.RunFailed? || e.RunCancelled? || e.RunExhausted? || e.RunResumed? || e.EffectReconciled?
            || e.NodeInterrupted? || e.NodeRetryScheduled? || e.NodeSucceeded? || e.NodeFailed?
  {
  }

  lemma QuietAccepted(w: Workflow, s: RunState, e: Event)
    requires Declared(w) && Matches(w, s) && Accepts(w, s, e) && ControlRecord(e)
    ensures s.status.Active? && !SomeStatus(s, Running)
    ensures e.node < |w.nodes| && s.nodes[e.node].status.Pending?
  {
  }

  /** Once a node has failed nothing new begins; and control nodes are decided only with
      nothing running. */
  lemma NothingBeginsAfterFailure(w: Workflow, ledger: seq<Event>, i: nat)
    requires Declared(w) && Replayed(w, ledger).Some? && i < |ledger|
    ensures var e, before := ledger[i], ledger[..i];
            && (NodesAt(w, before, Failed) != {} ==>
                  || e.RunFailed? || e.RunCancelled? || e.RunExhausted? || e.RunResumed? || e.EffectReconciled?
                  || e.NodeInterrupted? || e.NodeRetryScheduled? || e.NodeSucceeded? || e.NodeFailed?)
            && (ControlRecord(e) ==>
                  && CourseRead(before) == Active && NodesAt(w, before, Running) == {}
                  && e.node < |w.nodes| && StatusRead(before, e.node) == Pending)
  {
    AcceptedAt(w, ledger, i);
    Standings(w, ledger[..i]);
    if SomeStatus(StateAt(w, ledger, i), Failed) {
      AfterFailureAccepted(w, StateAt(w, ledger, i), ledger[i]);
    }
    if ControlRecord(ledger[i]) {
      QuietAccepted(w, StateAt(w, ledger, i), ledger[i]);
    }
  }

  lemma ChoiceAdmitted(w: Workflow, s: RunState, e: Event)
    requires Declared(w) && Matches(w, s) && GraphAdmits(w, s, e)
    requires e.NodeStarted? || e.CommandApprovalRequested? || ControlRecord(e)
    ensures SelectNext(w, s).Some? && SelectNext(w, s).value.node == e.node
    ensures e.NodeStarted? || e.CommandApprovalRequested? <==> SelectNext(w, s).value.Execute?
  {
  }

  /** Starts, requests and decisions take the first ready node in declaration order, and
      what is decided of it is what it is ready for. */
  lemma FirstReadyFirst(w: Workflow, ledger: seq<Event>, i: nat)
    requires Declared(w) && Replayed(w, ledger).Some? && i < |ledger|
    requires ledger[i].NodeStarted? || ledger[i].CommandApprovalRequested? || ControlRecord(ledger[i])
    ensures Replayed(w, ledger[..i]).Some? && ledger[i].node < |w.nodes|
    ensures var s, e := StateAt(w, ledger, i), ledger[i];
            && Ready(w, s, e.node).Some?
            && (forall m | 0 <= m < e.node :: Ready(w, s, m).None?)
            && (e.NodeStarted? || e.CommandApprovalRequested? <==> Ready(w, s, e.node).value.Execute?)
  {
    AcceptedAt(w, ledger, i);
    ChoiceAdmitted(w, StateAt(w, ledger, i), ledger[i]);
  }

  /** An interrupted run goes on only after its resumption is on record. */
  lemma ResumptionIsMarked(w: Workflow, ledger: seq<Event>, i: nat)
    requires Declared(w) && Replayed(w, ledger).Some? && i + 1 < |ledger| && ledger[i].NodeInterrupted?
    ensures ledger[i + 1].NodeInterrupted? || ledger[i + 1].RunResumed?
  {
    PrefixesReplay(w, ledger, i + 1);
    PrefixesReplay(w, ledger, i + 2);
    assert ledger[..i + 1][..i] == ledger[..i] && ledger[..i + 2][..i + 1] == ledger[..i + 1];
  }
}
