/** The driver never has an event refused: what it writes, the reducer accepts. */
module DriverAcceptance {
  import opened Standard
  import opened WorkflowGraph
  import opened RunReducer
  import opened Scheduler
  import opened RecoveredHistory
  import opened RunSafety
  import opened LiveRun
  import opened LiveHistory
  import opened LoopUnrolling
  import opened OptimizationChain

  // ---------------------------------------------------------------------
  // What else every reachable state satisfies
  // ---------------------------------------------------------------------

  /** The node waits for someone's decision, or has a grant it has not used. */
  predicate Asks(n: NodeState) {
    n.approval.Requested? || n.approval.Granted? || (n.awaiting && n.status.Pending?)
  }

  function Asked(s: RunState, n: NodeId): Transition
    requires n < |s.nodes|
  {
    if s.nodes[n].awaiting then RequestApproval(n) else Execute(n)
  }

  /** A node that asks is the scheduler's next choice, so there is at most one, and
      while it asks nothing runs and nothing has failed. */
  predicate AskerIsNext(w: Workflow, s: RunState)
    requires Declared(w) && Matches(w, s)
  {
    forall n: NodeId | n < |s.nodes| && Asks(s.nodes[n]) ::
      !SomeStatus(s, Running) && !SomeStatus(s, Failed) && SelectNext(w, s) == Some(Asked(s, n))
  }

  /** A run waits only for a node that asks and has not been answered. */
  predicate WaitsForAsker(w: Workflow, s: RunState) {
    s.status.Waiting? ==>
      && !SettlementExhausted(w.limits, s.spent)
      && exists n: NodeId :: n < |s.nodes| && Asks(s.nodes[n]) && !s.nodes[n].approval.Granted?
  }

  /** What the driver has made sure of by the time it is in a phase. */
  predicate Prepared(w: Workflow, phase: Phase, s: RunState)
    requires Declared(w) && Matches(w, s)
  {
    match phase
    case Idle => true
    case RecoverChildren(k) => forall n: NodeId | n < k && n < |w.nodes| :: !RunningChild(w, s, n)
    case Dispatch => !SomeStatus(s, Failed)
    case Admit(_) => !SomeStatus(s, Failed) && !ExceedsAny(w.limits, s.spent)
    case Perform(_) => !SomeStatus(s, Failed)
    case Failing(n) =>
      && FirstWith(s, Failed) == Some(n) && n < |w.nodes| && !w.nodes[n].kind.Agent?
        && !SettlementExhausted(w.limits, s.spent)
    case _ => true
  }

  predicate Orderly(w: Workflow, phase: Phase, s: RunState)
    requires Declared(w)
  {
    && Matches(w, s)
    && (s.status.RunDone? ==> phase.Idle?)
    && AskerIsNext(w, s) && WaitsForAsker(w, s) && Prepared(w, phase, s)
  }

  // ---------------------------------------------------------------------
  // Phase by phase, the reducer accepts
  // ---------------------------------------------------------------------

  lemma FailureAccepted(w: Workflow, s: RunState, e: Event, next: Phase)
    requires Declared(w) && Matches(w, s) && !s.status.RunDone? && !SomeStatus(s, Running)
    requires ProposesForFailure(w, s, e, next) && !SettlementExhausted(w.limits, s.spent)
    ensures Accepts(w, s, e)
  {
  }

  lemma DispatchEndAccepted(w: Workflow, s: RunState, e: Event, next: Phase)
    requires Declared(w) && Matches(w, s) && !s.status.RunDone? && !SomeStatus(s, Running) && !SomeStatus(s, Failed)
    requires Proposes(w, Dispatch, s, e, next)
    ensures Accepts(w, s, e)
  {
  }

  lemma ReviewEndAccepted(w: Workflow, s: RunState, e: Event, next: Phase)
    requires Declared(w) && Matches(w, s) && !s.status.RunDone? && !SomeStatus(s, Running)
    requires Proposes(w, Review, s, e, next)
    ensures Accepts(w, s, e)
  {
    if ProposesForFailure(w, s, e, next) && !SettlementExhausted(w.limits, s.spent) {
      FailureAccepted(w, s, e, next);
    }
  }

  lemma EndAccepted(w: Workflow, phase: Phase, s: RunState, e: Event, next: Phase)
    requires Declared(w) && Matches(w, s) && !s.status.RunDone? && !SomeStatus(s, Running)
    requires phase.Restart? || phase.Dispatch? || phase.Review? || phase.Failing?
    requires Prepared(w, phase, s) && Proposes(w, phase, s, e, next)
    ensures Accepts(w, s, e)
  {
    if phase.Dispatch? {
      DispatchEndAccepted(w, s, e, next);
    } else if phase.Review? {
      ReviewEndAccepted(w, s, e, next);
    } else if phase.Restart? && ProposesForFailure(w, s, e, next) && !SettlementExhausted(w.limits, s.spent) {
      FailureAccepted(w, s, e, next);
    }
  }

  lemma FirstRunning(s: RunState, n: NodeId)
    requires HasStatus(s, n, Running) && forall m: NodeId | m < n :: !HasStatus(s, m, Running)
    ensures FirstWith(s, Running) == Some(n)
  {
    var first := FirstWith(s, Running);
    assert first.Some? ==> HasStatus(s, first.value, Running) && first.value >= n;
  }

  /** Outcomes are recorded in admission order, which is declaration order, so each is of
      the first node that still runs. */
  lemma SettlementAccepted(w: Workflow, s: RunState, batch: seq<NodeId>, k: nat, e: Event)
    requires Declared(w) && Matches(w, s) && !s.status.RunDone? && PhaseHolds(w, Settle(batch, k), s)
    requires k < |batch| && LiveRun.Outcome(s, e, batch[k])
    ensures Accepts(w, s, e)
  {
    assert batch[k..][0] == batch[k] && batch[k] in batch[k..];
    forall m | m in batch[k..]
      ensures m >= batch[k]
    {
      var i :| 0 <= i < |batch[k..]| && batch[k..][i] == m;
      assert batch[k + i] == m;
    }
    FirstRunning(s, batch[k]);
  }

  lemma ChildOutcomeAccepted(w: Workflow, s: RunState, k: NodeId, e: Event, next: Phase)
    requires Declared(w) && Matches(w, s) && !s.status.RunDone? && OneSortRuns(w, s)
    requires Prepared(w, RecoverChildren(k), s) && Proposes(w, RecoverChildren(k), s, e, next)
    ensures Accepts(w, s, e)
  {
    forall m: NodeId | m < e.node
      ensures !HasStatus(s, m, Running)
    {
      assert !RunningChild(w, s, m);
    }
    FirstRunning(s, e.node);
  }

  lemma ResumeAccepted(w: Workflow, phase: Phase, s: RunState, e: Event, next: Phase)
    requires Declared(w) && Matches(w, s) && !s.status.RunDone?
    requires phase.Relocate? || phase.Reconcile? || phase.Reopen?
    requires Proposes(w, phase, s, e, next)
    ensures Accepts(w, s, e)
  {
  }

  lemma EffectAccepted(w: Workflow, s: RunState, batch: seq<NodeId>, e: Event, next: Phase)
    requires Declared(w) && Matches(w, s) && !s.status.RunDone? && !SomeStatus(s, Failed)
    requires PhaseHolds(w, Perform(batch), s) && Proposes(w, Perform(batch), s, e, next)
    ensures Accepts(w, s, e)
  {
  }

  /** An interruption is the one record of a resume the reducer may refuse: it is written
      exactly when the attempt may be disposed of. */
  lemma InterruptionAcceptedExactly(w: Workflow, s: RunState, k: NodeId, e: Event, next: Phase)
    requires Declared(w) && Matches(w, s) && !s.status.RunDone? && Proposes(w, Dispose(k), s, e, next)
    ensures Accepts(w, s, e) <==> CanInterrupt(w, s, e.node)
  {
  }

  // ---------------------------------------------------------------------
  // The scheduler's choice is accepted
  // ---------------------------------------------------------------------

  function Members(batch: seq<NodeId>): set<NodeId> {
    set n | n in batch
  }

  lemma BatchSize(s: RunState, batch: seq<NodeId>)
    requires RunningAre(s, batch) && Ordered(batch, |s.nodes|)
    ensures |WithStatus(s, Running)| == |batch|
  {
    assert WithStatus(s, Running) == Members(batch);
    OrderedSize(batch, |s.nodes|);
  }

  lemma {:induction false} OrderedSize(batch: seq<NodeId>, limit: nat)
    requires Ordered(batch, limit)
    ensures |Members(batch)| == |batch|
    decreases |batch|
  {
    if |batch| > 0 {
      var before, last := batch[..|batch| - 1], batch[|batch| - 1];
      OrderedSize(before, limit);
      forall n | n in before
        ensures n < last
      {
        var i :| 0 <= i < |before| && before[i] == n;
        assert batch[i] == n;
      }
      assert batch == before + [last];
      assert Members(batch) == Members(before) + {last};
    }
  }

  lemma StartAccepted(w: Workflow, s: RunState, batch: seq<NodeId>, n: NodeId)
    requires Declared(w) && Matches(w, s) && s.status.Active? && !SomeStatus(s, Failed)
    requires !ExceedsAny(w.limits, s.spent)
    requires RunningAre(s, batch) && Ordered(batch, |s.nodes|) && |batch| < w.maxNodes
    requires n < |w.nodes| && s.nodes[n].status.Pending? && w.nodes[n].kind.Executable()
    requires DependenciesSucceeded(w, s, n) && Selected(w, s, n)
    requires w.nodes[n].kind == Command(true) ==> s.nodes[n].approval.Granted?
    ensures Accepts(w, s, NodeStarted(n, s.nodes[n].attempt + 1))
  {
    BatchSize(s, batch);
  }

  lemma ApprovalAccepted(w: Workflow, s: RunState, n: NodeId)
    requires Declared(w) && Matches(w, s) && s.status.Active? && !SomeStatus(s, Failed) && !SomeStatus(s, Running)
    requires n < |w.nodes| && s.nodes[n].status.Pending? && w.nodes[n].kind == Command(true)
    requires !ExceedsAny(w.limits, s.spent) && AskerIsNext(w, s) && SelectNext(w, s) == Some(Execute(n))
    ensures s.nodes[n].approval.NoRequest? || s.nodes[n].approval.Expired? ==>
              Accepts(w, s, CommandApprovalRequested(n, s.nodes[n].attempt + 1))
    ensures s.nodes[n].approval.Granted? ==> Accepts(w, s, CommandApprovalExpired(n))
  {
    forall m: NodeId | m < |s.nodes| && Asks(s.nodes[m])
      ensures m == n
    {
      assert SelectNext(w, s) == Some(Asked(s, m));
    }
  }

  lemma ExecutionAccepted(w: Workflow, s: RunState, batch: seq<NodeId>, n: NodeId, e: Event, next: Phase)
    requires WellFormed(w) && Sound(w, s) && s.status.Active? && PhaseHolds(w, Admit(batch), s)
    requires Prepared(w, Admit(batch), s) && AskerIsNext(w, s) && |batch| < w.maxNodes
    requires n < |w.nodes| && SelectNext(w, s) == Some(Execute(n)) && ProposesExecution(w, s, batch, n, e, next)
    ensures Accepts(w, s, e)
  {
    ChosenIsJustified(w, s, Execute(n));
    if e.NodeStarted? {
      StartAccepted(w, s, batch, n);
    } else {
      assert !SomeStatus(s, Running);
      ApprovalAccepted(w, s, n);
    }
  }

  /** A quiet moment in the workflow loop, with this transition chosen. */
  predicate AtChoice(w: Workflow, s: RunState, t: Transition)
    requires Declared(w) && Matches(w, s)
  {
    && ControlStep(s) && !SomeStatus(s, Failed) && !ExceedsAny(w.limits, s.spent)
    && t.node < |w.nodes| && Ready(w, s, t.node) == Some(t)
  }

  /** Why the scheduler leaves a node out by one of its guards. */
  lemma GuardOmissionReady(w: Workflow, s: RunState, t: Transition)
    requires Declared(w) && Matches(w, s) && t.node < |w.nodes| && Ready(w, s, t.node) == Some(t)
    ensures t.OmitCondition? ==>
              && w.nodes[t.node].when.Some? && t.selected != w.nodes[t.node].when.value.selects
              && ConditionDecision(s, w.nodes[t.node].when.value.conditionId) == Some(t.selected)
    ensures t.OmitLoop? ==>
              && w.nodes[t.node].loopGuard.Some? && LoopDecision(s, w.nodes[t.node].loopGuard.value) == Some(true)
    ensures t.OmitOptimization? ==>
              && w.nodes[t.node].optimizationGuard.Some?
              && OptimizationDecision(s, w.nodes[t.node].optimizationGuard.value) == Some(true)
  {
  }

  lemma DependencyOmissionReady(w: Workflow, s: RunState, t: Transition)
    requires Declared(w) && Matches(w, s) && t.node < |w.nodes| && Ready(w, s, t.node) == Some(t) && t.OmitDependency?
    ensures t.omitted == OmittedAmong(s, w.nodes[t.node].dependsOn) && |t.omitted| > 0
    ensures w.nodes[t.node].when.Some? && w.nodes[t.node].kind.Guardable() ==>
              var c := w.nodes[t.node].when.value.conditionId;
              HasStatus(s, c, Omitted) || ConditionDecision(s, c) == Some(w.nodes[t.node].when.value.selects)
  {
  }

  /** Every omission the scheduler chooses is one the reducer accepts. */
  lemma OmissionAccepted(w: Workflow, s: RunState, t: Transition)
    requires WellFormed(w) && Sound(w, s) && AtChoice(w, s, t) && Omits(t)
    ensures ControlEvent(w, s, t).Some? && Accepts(w, s, ControlEvent(w, s, t).value)
  {
    var n := t.node;
    var node := w.nodes[n];
    assert RefsInRange(w, node) && GuardsDeclared(w, node);
    GuardOmissionReady(w, s, t);
    if t.OmitDependency? {
      DependencyOmissionReady(w, s, t);
    }
    if node.when.Some? {
      assert NodeSound(w, s, node.when.value.conditionId);
    }
    if node.loopGuard.Some? {
      assert NodeSound(w, s, node.loopGuard.value);
    }
    if node.optimizationGuard.Some? {
      assert NodeSound(w, s, node.optimizationGuard.value);
    }
    OmissionFits(w, s, t, ControlEvent(w, s, t).value.reason);
  }

  lemma OmissionFits(w: Workflow, s: RunState, t: Transition, reason: Omission)
    requires Declared(w) && Matches(w, s) && AtChoice(w, s, t) && Omits(t)
    requires ControlEvent(w, s, t) == Some(NodeOmitted(t.node, reason)) && AcceptsOmission(w, s, t.node, reason)
    ensures Accepts(w, s, NodeOmitted(t.node, reason))
  {
  }

  // ---------------------------------------------------------------------

  /** A control node whose source is settled can be read. */
  lemma SourceReadable(w: Workflow, s: RunState, n: NodeId, source: NodeId)
    requires Declared(w) && Sound(w, s) && n < |w.nodes| && DependenciesSucceeded(w, s, n)
    requires source < |w.nodes| && Readable(w, w.nodes[n], source)
    ensures Source(s, source).Some?
  {
    var i :| 0 <= i < |w.nodes[n].dependsOn| && w.nodes[n].dependsOn[i] == source;
    assert s.nodes[w.nodes[n].dependsOn[i]].status.Succeeded?;
    assert NodeSound(w, s, source);
  }

  predicate Evaluated(e: Event) {
    e.ConditionEvaluated? || e.ResultPublished? || e.LoopChecked? || e.ControlFailed?
  }

  lemma EvaluationControls(w: Workflow, s: RunState, t: Transition)
    requires Declared(w) && Matches(w, s) && t.node < |w.nodes| && KindFits(w.nodes[t.node].kind, t)
    requires DependenciesSucceeded(w, s, t.node) && (!t.EvaluateLoop? ==> Selected(w, s, t.node))
    requires t.EvaluateCondition? || t.PublishResult? || t.EvaluateLoop?
    requires Source(s, w.nodes[t.node].kind.source).Some?
    ensures var e := ControlEvent(w, s, t);
            e.Some? && Evaluated(e.value) && e.value.node == t.node && AcceptsControl(w, s, e.value)
  {
    assert DependenciesSettled(w, s, t.node);
  }

  lemma EvaluationFits(w: Workflow, s: RunState, t: Transition)
    requires Declared(w) && Matches(w, s) && AtChoice(w, s, t) && KindFits(w.nodes[t.node].kind, t)
    requires s.nodes[t.node].attempt == 0 && DependenciesSucceeded(w, s, t.node)
    requires t.EvaluateCondition? || t.PublishResult? || t.EvaluateLoop?
    requires !t.EvaluateLoop? ==> Selected(w, s, t.node)
    requires Source(s, w.nodes[t.node].kind.source).Some?
    ensures ControlEvent(w, s, t).Some? && Accepts(w, s, ControlEvent(w, s, t).value)
  {
    EvaluationControls(w, s, t);
    PendingControlAccepted(w, s, ControlEvent(w, s, t).value);
  }

  /** What settles a pending control node at a quiet moment is accepted for what it says. */
  lemma PendingControlAccepted(w: Workflow, s: RunState, e: Event)
    requires Declared(w) && Matches(w, s) && Evaluated(e) && e.node < |w.nodes|
    requires ControlStep(s) && !SomeStatus(s, Failed) && s.nodes[e.node].status.Pending? && s.nodes[e.node].attempt == 0
    requires AcceptsControl(w, s, e)
    ensures Accepts(w, s, e)
  {
  }

  /** Conditions, results and loop checks are decided as the reducer decides them. */
  lemma EvaluationAccepted(w: Workflow, s: RunState, t: Transition)
    requires WellFormed(w) && Sound(w, s) && AtChoice(w, s, t)
    requires t.EvaluateCondition? || t.PublishResult? || t.EvaluateLoop?
    ensures ControlEvent(w, s, t).Some? && Accepts(w, s, ControlEvent(w, s, t).value)
  {
    ChosenIsJustified(w, s, t);
    assert NodeSound(w, s, t.node) && RefsInRange(w, w.nodes[t.node]) && KindDeclared(w, w.nodes[t.node]);
    SourceReadable(w, s, t.node, w.nodes[t.node].kind.source);
    EvaluationFits(w, s, t);
  }

  lemma RequestFits(w: Workflow, s: RunState, t: Transition)
    requires Declared(w) && Matches(w, s) && AtChoice(w, s, t) && t.RequestApproval? && w.nodes[t.node].kind.Approval?
    requires s.nodes[t.node].attempt == 0 && !s.nodes[t.node].awaiting && !AnotherApprovalOpen(s, t.node)
    requires DependenciesSucceeded(w, s, t.node) && Selected(w, s, t.node)
    requires AllReadable(s, w.nodes[t.node].kind.observes)
    ensures ControlEvent(w, s, t).Some? && Accepts(w, s, ControlEvent(w, s, t).value)
  {
    assert AcceptsControl(w, s, ControlEvent(w, s, t).value);
  }

  lemma NoOtherAsks(w: Workflow, s: RunState, t: Transition)
    requires Declared(w) && Matches(w, s) && AskerIsNext(w, s) && SelectNext(w, s) == Some(t)
    ensures !AnotherApprovalOpen(s, t.node)
  {
    if m :| 0 <= m < |s.nodes| && m != t.node && (s.nodes[m].approval.Requested? || s.nodes[m].approval.Granted?) {
      assert Asks(s.nodes[m]);
      assert false;
    }
  }

  lemma RequestAccepted(w: Workflow, s: RunState, t: Transition)
    requires WellFormed(w) && Sound(w, s) && AtChoice(w, s, t) && t.RequestApproval? && !s.nodes[t.node].awaiting
    requires AskerIsNext(w, s) && SelectNext(w, s) == Some(t)
    ensures ControlEvent(w, s, t).Some? && Accepts(w, s, ControlEvent(w, s, t).value)
  {
    ChosenIsJustified(w, s, t);
    assert NodeSound(w, s, t.node) && RefsInRange(w, w.nodes[t.node]) && KindDeclared(w, w.nodes[t.node]);
    var observes := w.nodes[t.node].kind.observes;
    forall i | 0 <= i < |observes|
      ensures Source(s, observes[i]).Some?
    {
      SourceReadable(w, s, t.node, observes[i]);
    }
    NoOtherAsks(w, s, t);
    RequestFits(w, s, t);
  }

  lemma LoopAccepted(w: Workflow, s: RunState, t: Transition)
    requires WellFormed(w) && Sound(w, s) && AtChoice(w, s, t) && t.CompleteLoop?
    ensures ControlEvent(w, s, t).Some? && Accepts(w, s, ControlEvent(w, s, t).value)
  {
    ReadyFits(w, s, t.node);
    OutcomeIsAccepted(w, s, t.node);
  }

  // ---------------------------------------------------------------------
  // At most one request is outstanding
  // ---------------------------------------------------------------------

  lemma SameChoice(w: Workflow, s: RunState, s': RunState)
    requires Declared(w) && Matches(w, s) && Matches(w, s')
    requires forall m | 0 <= m < |s.nodes| ::
             s'.nodes[m].status == s.nodes[m].status && s'.nodes[m].control == s.nodes[m].control
    ensures SelectNext(w, s') == SelectNext(w, s)
  {
    forall m | 0 <= m < |w.nodes|
      ensures Ready(w, s', m) == Ready(w, s, m)
    {
      ReadyView(w, s, s', m);
    }
    var t, t' := SelectNext(w, s), SelectNext(w, s');
    if t.Some? {
      assert t'.Some? && t'.value.node == t.value.node;
    }
  }

  /** Events that change neither a status nor a decision. */
  predicate Mild(e: Event) {
    || Target(e).None?
    || e.CommandApprovalRequested? || e.CommandApprovalGranted? || e.CommandApprovalExpired?
      || e.WorkflowApprovalRequested?
  }

  /** Events that end what a node asks. */
  predicate Answers(e: Event) {
    e.CommandApprovalDenied? || e.WorkflowApprovalApproved? || e.WorkflowApprovalDenied? || e.NodeStarted?
      || e.ControlFailed?
  }

  lemma AdmittedChoices(w: Workflow, s: RunState, e: Event, t: Transition)
    requires Declared(w) && Matches(w, s) && SelectNext(w, s) == Some(t) && (t.Execute? || t.RequestApproval?)
    requires GraphAdmits(w, s, e) && Engages(e)
    ensures (Mild(e) || Answers(e)) && Target(e) == Some(t.node)
  {
    if ControlRecord(e) {
      MatchedWhileAsking(e, t);
    }
  }

  lemma MatchedWhileAsking(e: Event, t: Transition)
    requires MatchesTransition(e, Some(t)) && (t.Execute? || t.RequestApproval?)
    ensures (Mild(e) || Answers(e)) && Target(e) == Some(t.node)
  {
  }

  lemma WhileAsking(w: Workflow, s: RunState, e: Event, n: NodeId)
    requires Declared(w) && Sound(w, s) && AskerIsNext(w, s) && GraphAdmits(w, s, e) && Accepts(w, s, e)
    requires n < |s.nodes| && Asks(s.nodes[n])
    ensures (Mild(e) || Answers(e)) && (Target(e).None? || Target(e) == Some(n))
  {
    assert SelectNext(w, s) == Some(Asked(s, n));
    if Engages(e) {
      AdmittedChoices(w, s, e, Asked(s, n));
    } else if Target(e).Some? {
      assert s.nodes[e.node].status.Pending? && Asks(s.nodes[e.node]);
      assert SelectNext(w, s) == Some(Asked(s, e.node));
    }
  }

  lemma TargetAsks(w: Workflow, s: RunState, e: Event)
    requires Declared(w) && Sound(w, s) && Accepts(w, s, e) && Target(e).Some? && (Mild(e) || Answers(e))
    ensures Answers(e) ==> !Asks(NodeAfter(w, s, e))
    ensures Mild(e) ==>
            NodeAfter(w, s, e).status == s.nodes[e.node].status && NodeAfter(w, s, e).control == s.nodes[e.node].control
    ensures Mild(e) ==> (NodeAfter(w, s, e).awaiting <==> s.nodes[e.node].awaiting || e.WorkflowApprovalRequested?)
  {
    assert NodeSound(w, s, e.node);
  }

  lemma BeginsToAsk(w: Workflow, s: RunState, e: Event)
    requires Declared(w) && Matches(w, s) && Accepts(w, s, e) && Target(e).Some? && !Asks(s.nodes[e.node])
    ensures Asks(NodeAfter(w, s, e)) ==> e.CommandApprovalRequested? || e.WorkflowApprovalRequested?
  {
  }

  /** In any accepted history a node that asks is the scheduler's next choice. */
  lemma AskerStaysNext(w: Workflow, s: RunState, e: Event)
    requires Declared(w) && Sound(w, s) && AskerIsNext(w, s) && GraphAdmits(w, s, e) && Accepts(w, s, e)
    ensures AskerIsNext(w, Effect(w, s, e))
  {
    var s' := Effect(w, s, e);
    forall n: NodeId | n < |s'.nodes| && Asks(s'.nodes[n])
      ensures !SomeStatus(s', Running) && !SomeStatus(s', Failed) && SelectNext(w, s') == Some(Asked(s', n))
    {
      if Asks(s.nodes[n]) {
        WhileAsking(w, s, e, n);
      } else {
        BeginsToAsk(w, s, e);
      }
      RequestKeepsChoice(w, s, e, n);
    }
  }

  lemma RequestKeepsChoice(w: Workflow, s: RunState, e: Event, n: NodeId)
    requires Declared(w) && Sound(w, s) && AskerIsNext(w, s) && GraphAdmits(w, s, e) && Accepts(w, s, e)
    requires n < |s.nodes| && Asks(Effect(w, s, e).nodes[n]) && (Mild(e) || Answers(e))
    requires (Target(e).None? || Target(e) == Some(n))
    requires Asks(s.nodes[n]) || e.CommandApprovalRequested? || e.WorkflowApprovalRequested?
    ensures var s' := Effect(w, s, e);
            !SomeStatus(s', Running) && !SomeStatus(s', Failed) && SelectNext(w, s') == Some(Asked(s', n))
  {
    var s' := Effect(w, s, e);
    if Target(e).Some? {
      TargetAsks(w, s, e);
    }
    assert NodeSound(w, s, n);
    SameChoice(w, s, s');
  }

  /** At most one request is outstanding in any accepted history. */
  lemma {:induction false} OneRequestAtATime(w: Workflow, ledger: seq<Event>)
    requires WellFormed(w) && Replayed(w, ledger).Some?
    ensures AskerIsNext(w, Replayed(w, ledger).value.state)
  {
    if |ledger| > 0 {
      var before := ledger[..|ledger| - 1];
      OneRequestAtATime(w, before);
      AcceptedHistoryIsSound(w, before);
      AskerStaysNext(w, Replayed(w, before).value.state, ledger[|ledger| - 1]);
    }
  }

  // ---------------------------------------------------------------------
  // Optimization checks
  // ---------------------------------------------------------------------

  /** The guard of a candidate's check sits among the candidate's dependencies, so by
      the time the check is chosen its guard has decided to go on. */
  lemma CheckIsSelected(w: Workflow, s: RunState, n: NodeId)
    requires WellFormed(w) && Sound(w, s) && n < |w.nodes| && w.nodes[n].kind.OptimizationCheck?
    requires DependenciesSucceeded(w, s, n) && Ready(w, s, n) == Some(EvaluateOptimization(n))
    ensures Selected(w, s, n)
  {
    var node := w.nodes[n];
    assert GuardsDeclared(w, node) && RefsInRange(w, node);
    if node.optimizationGuard.Some? {
      var check := node.optimizationGuard.value;
      var i :| 0 <= i < |node.dependsOn| && w.nodes[node.dependsOn[i]].kind.Child?
        && check in w.nodes[node.dependsOn[i]].dependsOn;
      var candidate := node.dependsOn[i];
      assert NodeSound(w, s, candidate) && s.nodes[candidate].status.Succeeded?;
      var j :| 0 <= j < |w.nodes[candidate].dependsOn| && w.nodes[candidate].dependsOn[j] == check;
      assert s.nodes[w.nodes[candidate].dependsOn[j]].status.Succeeded?;
      assert NodeSound(w, s, check);
    }
  }

  lemma OptimizationFits(w: Workflow, s: RunState, n: NodeId, e: Event, next: Phase)
    requires Declared(w) && Matches(w, s) && AtChoice(w, s, EvaluateOptimization(n))
    requires w.nodes[n].kind.OptimizationCheck?
    requires s.nodes[n].attempt == 0 && DependenciesSucceeded(w, s, n) && Selected(w, s, n)
    requires ProposesOptimization(n, e, next)
    ensures Accepts(w, s, e)
  {
    assert DependenciesSettled(w, s, n);
    assert AcceptsControl(w, s, e);
  }

  lemma OptimizationAccepted(w: Workflow, s: RunState, n: NodeId, e: Event, next: Phase)
    requires WellFormed(w) && Sound(w, s) && AtChoice(w, s, EvaluateOptimization(n)) && ProposesOptimization(n, e, next)
    ensures Accepts(w, s, e)
  {
    ChosenIsJustified(w, s, EvaluateOptimization(n));
    assert NodeSound(w, s, n);
    CheckIsSelected(w, s, n);
    OptimizationFits(w, s, n, e, next);
  }

  // ---------------------------------------------------------------------
  // Whole runs
  // ---------------------------------------------------------------------

  lemma OptimizationCompletionAccepted(w: Workflow, s: RunState, t: Transition)
    requires WellFormed(w) && OptimizationsDeclared(w) && Sound(w, s) && AtChoice(w, s, t) && t.CompleteOptimization?
    ensures ControlEvent(w, s, t).Some? ==> Accepts(w, s, ControlEvent(w, s, t).value)
  {
    ReadyFits(w, s, t.node);
    OptimizationCompletesExactly(w, s, t.node);
  }

  /** The control transitions whose record the reducer always accepts.  A join's is accepted
      exactly under the condition of ChosenJoinAcceptedExactly. */
  lemma ControlAccepted(w: Workflow, s: RunState, t: Transition, e: Event, next: Phase)
    requires WellFormed(w) && OptimizationsDeclared(w) && Sound(w, s)
    requires AtChoice(w, s, t) && AskerIsNext(w, s) && SelectNext(w, s) == Some(t)
    requires ProposesControl(w, s, t, e, next) && !t.TakeJoin?
    ensures Accepts(w, s, e)
  {
    if Omits(t) {
      OmissionAccepted(w, s, t);
    } else if t.EvaluateCondition? || t.PublishResult? || t.EvaluateLoop? {
      EvaluationAccepted(w, s, t);
    } else if t.RequestApproval? {
      RequestAccepted(w, s, t);
    } else if t.CompleteOptimization? {
      OptimizationCompletionAccepted(w, s, t);
    } else {
      LoopAccepted(w, s, t);
    }
  }

  /** The records the reducer may refuse: each is accepted exactly under a condition
      stated elsewhere. */
  predicate MayBeRefused(phase: Phase, e: Event) {
    phase.Idle? || e.NodeJoined? || e.NodeInterrupted?
  }

  lemma AskedCannotStart(w: Workflow, s: RunState, batch: seq<NodeId>, n: NodeId, e: Event, next: Phase)
    requires Declared(w) && Matches(w, s) && n < |w.nodes| && w.nodes[n].kind == Command(true)
    requires s.nodes[n].approval.Requested?
    ensures !ProposesExecution(w, s, batch, n, e, next)
  {
  }

  lemma AskedIsProposedOnce(w: Workflow, s: RunState, batch: seq<NodeId>, n: NodeId, e: Event, next: Phase)
    requires Declared(w) && Matches(w, s) && n < |w.nodes|
    requires (w.nodes[n].kind == Command(true) && s.nodes[n].approval.Requested? && !s.nodes[n].awaiting)
             || s.nodes[n].awaiting
    ensures !ProposesTransition(w, s, batch, Some(Asked(s, n)), e, next)
  {
    if !s.nodes[n].awaiting {
      AskedCannotStart(w, s, batch, n, e, next);
    }
  }

  /** A run that waits has no transition it may record. */
  lemma WaitingProposesNothing(w: Workflow, s: RunState, batch: seq<NodeId>, e: Event, next: Phase)
    requires Declared(w) && Sound(w, s) && AskerIsNext(w, s) && WaitsForAsker(w, s) && s.status.Waiting?
    ensures !ProposesTransition(w, s, batch, SelectNext(w, s), e, next)
  {
    var n: NodeId :| n < |s.nodes| && Asks(s.nodes[n]) && !s.nodes[n].approval.Granted?;
    assert RecordSound(w.nodes[n].kind, s.nodes[n]) by {
      assert NodeSound(w, s, n);
    }
    assert SelectNext(w, s) == Some(Asked(s, n));
    AskedIsProposedOnce(w, s, batch, n, e, next);
  }

  lemma TransitionAccepted(w: Workflow, s: RunState, batch: seq<NodeId>, e: Event, next: Phase)
    requires WellFormed(w) && OptimizationsDeclared(w) && Invariant(w, Admit(batch), s, false)
    requires Orderly(w, Admit(batch), s)
    requires Proposes(w, Admit(batch), s, e, next) && !MayBeRefused(Admit(batch), e)
    ensures Accepts(w, s, e)
  {
    if s.status.Waiting? {
      WaitingProposesNothing(w, s, batch, e, next);
    }
    var t := SelectNext(w, s).value;
    if t.Execute? {
      ExecutionAccepted(w, s, batch, t.node, e, next);
    } else {
      assert AtChoice(w, s, t);
      if t.EvaluateOptimization? {
        OptimizationAccepted(w, s, t.node, e, next);
      } else {
        ControlEventMatches(w, s, t);
        ControlAccepted(w, s, t, e, next);
      }
    }
  }

  lemma DriverWritesAccepted(w: Workflow, phase: Phase, s: RunState, required: bool, e: Event, next: Phase)
    requires WellFormed(w) && OptimizationsDeclared(w) && Invariant(w, phase, s, required) && Orderly(w, phase, s)
    requires Proposes(w, phase, s, e, next) && !MayBeRefused(phase, e)
    ensures Accepts(w, s, e)
  {
    match phase
    case Admit(batch) => TransitionAccepted(w, s, batch, e, next);
    case Perform(batch) => EffectAccepted(w, s, batch, e, next);
    case Settle(batch, k) => SettlementAccepted(w, s, batch, k, e);
    case RecoverChildren(k) => ChildOutcomeAccepted(w, s, k, e, next);
    case Dispose(_) =>
    case Restart => EndAccepted(w, phase, s, e, next);
    case Dispatch => EndAccepted(w, phase, s, e, next);
    case Review => EndAccepted(w, phase, s, e, next);
    case Failing(_) => EndAccepted(w, phase, s, e, next);
    case _ => ResumeAccepted(w, phase, s, e, next);
  }

  // ---------------------------------------------------------------------
  // Each step keeps the run orderly
  // ---------------------------------------------------------------------

  lemma WaitKept(w: Workflow, s: RunState, e: Event)
    requires Declared(w) && Sound(w, s) && AskerIsNext(w, s) && WaitsForAsker(w, s) && GraphAdmits(w, s, e)
    requires Accepts(w, s, e)
    ensures WaitsForAsker(w, Effect(w, s, e))
  {
    var s' := Effect(w, s, e);
    if s'.status.Waiting? {
      if s.status.Waiting? {
        var n: NodeId :| n < |s.nodes| && Asks(s.nodes[n]) && !s.nodes[n].approval.Granted?;
        WhileAsking(w, s, e, n);
        assert e.RunResumed?;
        assert s'.nodes == s.nodes;
      } else {
        assert e.CommandApprovalRequested? || e.WorkflowApprovalRequested?;
        assert s'.nodes[e.node].approval.Requested? || s'.nodes[e.node].awaiting;
        assert NodeSound(w, s, e.node);
        assert Asks(s'.nodes[e.node]) && !s'.nodes[e.node].approval.Granted?;
      }
    }
  }

  lemma OnlyFailure(s: RunState, n: NodeId)
    requires HasStatus(s, n, Failed) && forall m: NodeId | m < |s.nodes| && s.nodes[m].status.Failed? :: m == n
    ensures FirstWith(s, Failed) == Some(n)
  {
  }

  /** A denial, or a control node that cannot be decided, fails that node alone. */
  lemma FailingPrepared(w: Workflow, s: RunState, e: Event)
    requires Declared(w) && Sound(w, s) && Accepts(w, s, e) && !SomeStatus(s, Failed)
    requires !SettlementExhausted(w.limits, s.spent)
    requires e.CommandApprovalDenied? || e.WorkflowApprovalDenied? || e.ControlFailed?
    ensures Prepared(w, Failing(e.node), Effect(w, s, e))
  {
    assert NodeSound(w, s, e.node);
    OnlyFailure(Effect(w, s, e), e.node);
  }

  lemma DecisionPrepared(w: Workflow, s: RunState, e: Event, next: Phase)
    requires Declared(w) && Sound(w, s) && AskerIsNext(w, s) && WaitsForAsker(w, s) && Accepts(w, s, e)
    requires ProposesDecision(s, e, next)
    ensures Prepared(w, next, Effect(w, s, e))
  {
    var n: NodeId :| n < |s.nodes| && Asks(s.nodes[n]) && !s.nodes[n].approval.Granted?;
    if next.Failing? {
      FailingPrepared(w, s, e);
    }
  }

  lemma RetryClears(w: Workflow, s: RunState, e: Event, next: Phase)
    requires Declared(w) && Matches(w, s) && Accepts(w, s, e) && ProposesForFailure(w, s, e, next)
    ensures Prepared(w, next, Effect(w, s, e))
  {
    if next.Dispatch? {
      var s' := Effect(w, s, e);
      forall m: NodeId | m < |s'.nodes|
        ensures !s'.nodes[m].status.Failed?
      {
        assert s.nodes[m].status.Failed? ==> m in WithStatus(s, Failed);
      }
    }
  }

  lemma ChildrenPrepared(w: Workflow, s: RunState, k: NodeId, e: Event, next: Phase)
    requires Declared(w) && Matches(w, s) && Accepts(w, s, e) && Prepared(w, RecoverChildren(k), s)
    requires Proposes(w, RecoverChildren(k), s, e, next)
    ensures Prepared(w, next, Effect(w, s, e))
  {
    var s' := Effect(w, s, e);
    AcceptedMoves(w, s, e);
    forall n: NodeId | n <= e.node && n < |w.nodes|
      ensures !RunningChild(w, s', n)
    {
      assert RunningChild(w, s', n) ==> RunningChild(w, s, n);
    }
  }

  lemma NothingFails(w: Workflow, s: RunState, e: Event)
    requires Declared(w) && Matches(w, s) && Accepts(w, s, e) && !SomeStatus(s, Failed)
    requires !e.CommandApprovalDenied? && !e.WorkflowApprovalDenied? && !e.ControlFailed? && !e.NodeFailed?
    ensures !SomeStatus(Effect(w, s, e), Failed)
  {
  }

  /** Where a transition leads: a start stays in the batch while the budget lasts. */
  predicate Leads(w: Workflow, s: RunState, e: Event, next: Phase) {
    && !e.CommandApprovalDenied? && !e.WorkflowApprovalDenied? && !e.NodeFailed?
    && (next.Idle? || next.Dispatch? || next.Failing? || next.Perform? || next.Admit?)
    && (next.Failing? <==> e.ControlFailed?) && (next.Failing? ==> next.node == e.node)
    && (next.Admit? ==> e.OptimizationProgressed? || (e.NodeStarted? && !ExceedsAny(w.limits, SpentAfter(s.spent, e))))
  }

  lemma ExecutionLeads(w: Workflow, s: RunState, batch: seq<NodeId>, n: NodeId, e: Event, next: Phase)
    requires Declared(w) && Matches(w, s) && n < |w.nodes| && ProposesExecution(w, s, batch, n, e, next)
    ensures Leads(w, s, e, next)
  {
  }

  lemma ControlLeads(w: Workflow, s: RunState, t: Transition, e: Event, next: Phase)
    requires Declared(w) && Matches(w, s) && t.node < |w.nodes| && ProposesControl(w, s, t, e, next) && ControlRecord(e)
    ensures Leads(w, s, e, next)
  {
  }

  lemma AdmissionLeads(w: Workflow, s: RunState, batch: seq<NodeId>, e: Event, next: Phase)
    requires Declared(w) && Matches(w, s) && ProposesTransition(w, s, batch, SelectNext(w, s), e, next)
    ensures Leads(w, s, e, next)
  {
    var t := SelectNext(w, s).value;
    if t.Execute? {
      ExecutionLeads(w, s, batch, t.node, e, next);
    } else if !t.EvaluateOptimization? {
      ControlEventMatches(w, s, t);
      ControlLeads(w, s, t, e, next);
    }
  }

  lemma AdmissionPrepared(w: Workflow, s: RunState, batch: seq<NodeId>, e: Event, next: Phase)
    requires Declared(w) && Sound(w, s) && Accepts(w, s, e) && Prepared(w, Admit(batch), s)
    requires Proposes(w, Admit(batch), s, e, next)
    ensures Prepared(w, next, Effect(w, s, e))
  {
    AdmissionLeads(w, s, batch, e, next);
    if e.ControlFailed? {
      FailingPrepared(w, s, e);
    } else {
      NothingFails(w, s, e);
    }
  }

  lemma FailurePrepared(w: Workflow, phase: Phase, s: RunState, e: Event, next: Phase)
    requires Declared(w) && Matches(w, s) && (phase.Restart? || phase.Review?) && Accepts(w, s, e)
    requires Proposes(w, phase, s, e, next)
    ensures Prepared(w, next, Effect(w, s, e))
  {
    if !next.Idle? {
      RetryClears(w, s, e, next);
    }
  }

  predicate NothingToPrepare(next: Phase) {
    next.Idle? || next.Reconcile? || next.Dispose? || next.Restart? || next.Settle?
  }

  /** The other phases lead where nothing needs preparing. */
  lemma PlainProposals(w: Workflow, phase: Phase, s: RunState, e: Event, next: Phase)
    requires Declared(w) && Matches(w, s) && Proposes(w, phase, s, e, next)
    requires !phase.Idle? && !phase.RecoverChildren? && !phase.Admit? && !phase.Perform? && !phase.Restart?
    requires !phase.Review?
    ensures NothingToPrepare(next)
  {
  }

  lemma PlainPrepared(w: Workflow, s: RunState, e: Event, next: Phase)
    requires Declared(w) && Matches(w, s) && Accepts(w, s, e) && NothingToPrepare(next)
    ensures Prepared(w, next, Effect(w, s, e))
  {
  }

  lemma EffectsPrepared(w: Workflow, s: RunState, batch: seq<NodeId>, e: Event, next: Phase)
    requires Declared(w) && Matches(w, s) && Accepts(w, s, e) && Prepared(w, Perform(batch), s)
    requires Proposes(w, Perform(batch), s, e, next)
    ensures Prepared(w, next, Effect(w, s, e))
  {
    NothingFails(w, s, e);
  }

  lemma RecordPrepared(w: Workflow, phase: Phase, s: RunState, e: Event, next: Phase)
    requires Declared(w) && Sound(w, s) && Orderly(w, phase, s) && Accepts(w, s, e) && Proposes(w, phase, s, e, next)
    ensures Prepared(w, next, Effect(w, s, e))
  {
    if phase.Idle? {
      DecisionPrepared(w, s, e, next);
    } else if phase.RecoverChildren? {
      ChildrenPrepared(w, s, phase.next, e, next);
    } else if phase.Admit? {
      AdmissionPrepared(w, s, phase.batch, e, next);
    } else if phase.Perform? {
      EffectsPrepared(w, s, phase.batch, e, next);
    } else if phase.Restart? || phase.Review? {
      FailurePrepared(w, phase, s, e, next);
    } else {
      PlainProposals(w, phase, s, e, next);
      PlainPrepared(w, s, e, next);
    }
  }

  predicate EndsRun(e: Event) {
    e.RunSucceeded? || e.RunFailed? || e.RunCancelled? || e.RunExhausted?
  }

  lemma OnlyEndsAreFinal(w: Workflow, s: RunState, e: Event)
    requires Declared(w) && Matches(w, s) && Accepts(w, s, e)
    ensures Effect(w, s, e).status.RunDone? <==> EndsRun(e)
  {
  }

  lemma TransitionsDoNotEnd(w: Workflow, s: RunState, batch: seq<NodeId>, e: Event, next: Phase)
    requires Declared(w) && Matches(w, s) && ProposesTransition(w, s, batch, SelectNext(w, s), e, next)
    ensures !EndsRun(e)
  {
    var t := SelectNext(w, s).value;
    if t.Execute? {
      ExecutionDoesNotEnd(w, s, batch, t.node, e, next);
    } else if !t.EvaluateOptimization? {
      ControlEventMatches(w, s, t);
    }
  }

  lemma ExecutionDoesNotEnd(w: Workflow, s: RunState, batch: seq<NodeId>, n: NodeId, e: Event, next: Phase)
    requires Declared(w) && Matches(w, s) && n < |w.nodes| && ProposesExecution(w, s, batch, n, e, next)
    ensures !EndsRun(e)
  {
  }

  lemma EndLeadsToIdle(w: Workflow, phase: Phase, s: RunState, e: Event, next: Phase)
    requires Declared(w) && Matches(w, s) && Proposes(w, phase, s, e, next) && EndsRun(e)
    ensures next.Idle?
  {
    if phase.Admit? {
      TransitionsDoNotEnd(w, s, phase.batch, e, next);
    }
  }

  lemma RecordKeepsOrder(w: Workflow, phase: Phase, s: RunState, e: Event, next: Phase)
    requires WellFormed(w) && Sound(w, s) && Orderly(w, phase, s)
    requires Proposes(w, phase, s, e, next) && Accepts(w, s, e)
    ensures Orderly(w, next, Effect(w, s, e))
  {
    ProposedIsAdmitted(w, phase, s, e, next);
    AskerStaysNext(w, s, e);
    WaitKept(w, s, e);
    RecordPrepared(w, phase, s, e, next);
    OnlyEndsAreFinal(w, s, e);
    if EndsRun(e) {
      EndLeadsToIdle(w, phase, s, e, next);
    }
  }

  lemma ProceedKeepsOrder(w: Workflow, phase: Phase, s: RunState, next: Phase)
    requires Declared(w) && Orderly(w, phase, s) && Proceeds(w, phase, s, next)
    ensures Orderly(w, next, s)
  {
  }

  lemma {:induction false} RunsAreOrderly(w: Workflow, steps: seq<Step>)
    requires WellFormed(w) && Ran(w, steps).Some?
    ensures Orderly(w, Ran(w, steps).value.phase, Ran(w, steps).value.state)
  {
    if |steps| > 0 {
      var before := steps[..|steps| - 1];
      RunsAreOrderly(w, before);
      LiveHistoryIsAccepted(w, before);
      var p := Ran(w, before).value;
      match steps[|steps| - 1]
      case Crash =>
      case Proceed(next) => ProceedKeepsOrder(w, p.phase, p.state, next);
      case Record(e, next) => RecordKeepsOrder(w, p.phase, p.state, e, next);
    }
  }

  /** Wherever a run stands, the reducer accepts what the driver is about to write, so
      the run goes on.  A decision, a join and an interruption may be refused, each
      exactly as stated for it. */
  lemma DriverIsNeverRefused(w: Workflow, steps: seq<Step>, e: Event, next: Phase)
    requires WellFormed(w) && OptimizationsDeclared(w) && Ran(w, steps).Some?
    requires var p := Ran(w, steps).value; Proposes(w, p.phase, p.state, e, next) && !MayBeRefused(p.phase, e)
    ensures Ran(w, steps + [Record(e, next)]).Some?
  {
    var p := Ran(w, steps).value;
    RunsAreOrderly(w, steps);
    LiveHistoryIsAccepted(w, steps);
    DriverWritesAccepted(w, p.phase, p.state, Replayed(w, p.ledger).value.resumeRequired, e, next);
    RecordTaken(w, steps, e, next);
  }

  /** A decision is accepted exactly when it is on the node the scheduler would settle
      next, so a decision on any other node is refused. */
  lemma DecisionAcceptedExactly(w: Workflow, steps: seq<Step>, e: Event, next: Phase)
    requires WellFormed(w) && Ran(w, steps).Some? && ProposesDecision(Ran(w, steps).value.state, e, next)
    ensures var s := Ran(w, steps).value.state;
            Accepts(w, s, e) <==>
              SelectNext(w, s) == Some(if e.CommandApprovalGranted?
                || e.CommandApprovalDenied? then Execute(e.node) else RequestApproval(e.node))
  {
    var p := Ran(w, steps).value;
    var s := p.state;
    RunsAreOrderly(w, steps);
    LiveHistoryIsAccepted(w, steps);
    var n: NodeId :| n < |s.nodes| && Asks(s.nodes[n]) && !s.nodes[n].approval.Granted?;
    assert RecordSound(w.nodes[n].kind, s.nodes[n]) by {
      assert NodeSound(w, s, n);
    }
    DecisionFits(w, s, n, e);
  }

  lemma DecisionFits(w: Workflow, s: RunState, n: NodeId, e: Event)
    requires Declared(w) && Matches(w, s) && AskerIsNext(w, s) && s.status.Waiting?
    requires n < |s.nodes| && Asks(s.nodes[n]) && !s.nodes[n].approval.Granted?
    requires RecordSound(w.nodes[n].kind, s.nodes[n])
    requires e.CommandApprovalGranted? || e.CommandApprovalDenied? || e.WorkflowApprovalApproved?
             || e.WorkflowApprovalDenied?
    ensures Accepts(w, s, e) <==>
              SelectNext(w, s) == Some(if e.CommandApprovalGranted?
                || e.CommandApprovalDenied? then Execute(e.node) else RequestApproval(e.node))
  {
    assert SelectNext(w, s) == Some(Asked(s, n));
    if e.node < |s.nodes| && s.nodes[e.node].status.Pending? && Asks(s.nodes[e.node]) {
      assert SelectNext(w, s) == Some(Asked(s, e.node));
    }
  }
}
