/** What holds in every state an accepted history leads to. */
module RunSafety {
  import opened Standard
  import opened WorkflowGraph
  import opened RunReducer
  import opened Scheduler
  import opened RecoveredHistory

  /** Work has begun on the node, or was asked for. */
  predicate Engaged(n: NodeState) {
    n.status.Running? || n.status.Succeeded? || n.status.Failed? || !n.approval.NoRequest? || n.awaiting
  }

  /** What the graph requires before work on a node may begin. */
  predicate Justified(w: Workflow, s: RunState, n: NodeId)
    requires Declared(w) && Matches(w, s) && n < |w.nodes|
  {
    match w.nodes[n].kind
    case Join(_, _) => DependenciesSettled(w, s, n)
    case Loop(_) => DependenciesSettled(w, s, n)
    case Optimization(_) => DependenciesSettled(w, s, n)
    case LoopCheck(_, _, _, _) => DependenciesSucceeded(w, s, n)
    case OptimizationCheck => DependenciesSucceeded(w, s, n)
    case _ => DependenciesSucceeded(w, s, n) && Selected(w, s, n)
  }

  /** Why a node may be left out: a dependency was, or one of its guards rejected it. */
  predicate OmissionJustified(w: Workflow, s: RunState, n: NodeId)
    requires Declared(w) && Matches(w, s) && n < |w.nodes|
  {
    var node := w.nodes[n];
    || (exists i :: 0 <= i < |node.dependsOn| && s.nodes[node.dependsOn[i]].status.Omitted?)
    || (node.when.Some? &&
          var c := s.nodes[node.when.value.conditionId].control;
            c.ConditionDecided? && c.selected != node.when.value.selects)
    || (node.loopGuard.Some? && s.nodes[node.loopGuard.value].control == LoopDecided(true))
    || (node.optimizationGuard.Some? && s.nodes[node.optimizationGuard.value].control == OptimizationDecided(true))
  }

  /** A decision is recorded exactly on a succeeded condition or check. */
  predicate DecisionSound(kind: Kind, n: NodeState) {
    && (n.control.ConditionDecided? <==> kind.Condition? && n.status.Succeeded?)
    && (n.control.LoopDecided? <==> kind.LoopCheck? && n.status.Succeeded?)
    && (n.control.OptimizationDecided? <==> kind.OptimizationCheck? && n.status.Succeeded?)
    && (n.control.ConditionDecided? ==> n.control.selected in PossibleCases(kind.cases, kind.otherwise))
  }

  predicate RecordSound(kind: Kind, n: NodeState) {
    && (kind.ProducesEvidence() && n.status.Succeeded? ==> n.evidence.Some?)
    && (n.status.Running? ==> kind.Executable())
    && (!kind.Executable() && n.status.Pending? ==> n.attempt == 0)
    && (!n.approval.NoRequest? ==> kind == Command(true))
    && (n.awaiting ==> kind.Approval?)
    && (n.status.Failed? ==> !kind.Join? && !kind.Optimization?)
  }

  /** A completed join took a succeeded branch and left every other branch omitted. */
  predicate JoinSound(w: Workflow, s: RunState, n: NodeId)
    requires Declared(w) && Matches(w, s) && n < |w.nodes| && w.nodes[n].kind.Join?
  {
    var kind := w.nodes[n].kind;
    s.nodes[n].status.Succeeded? ==>
      && s.nodes[kind.conditionId].control.ConditionDecided?
      && forall i | 0 <= i < |kind.branches| ::
          kind.branches[i].selects != s.nodes[kind.conditionId].control.selected ==>
            HasStatus(s, kind.branches[i].nodeId, Omitted)
  }

  predicate JoinTook(w: Workflow, s: RunState, n: NodeId)
    requires Declared(w) && Matches(w, s) && n < |w.nodes| && w.nodes[n].kind.Join?
  {
    s.nodes[n].status.Succeeded? ==>
      exists i :: 0 <= i < |w.nodes[n].dependsOn| && s.nodes[w.nodes[n].dependsOn[i]].status.Succeeded?
  }

  predicate NodeSound(w: Workflow, s: RunState, n: NodeId)
    requires Declared(w) && Matches(w, s) && n < |w.nodes|
  {
    && (Engaged(s.nodes[n]) ==> Justified(w, s, n))
    && (s.nodes[n].status.Omitted? ==> DependenciesSettled(w, s, n) && OmissionJustified(w, s, n))
    && DecisionSound(w.nodes[n].kind, s.nodes[n])
    && RecordSound(w.nodes[n].kind, s.nodes[n])
    && (w.nodes[n].kind.Join? ==> JoinSound(w, s, n) && JoinTook(w, s, n))
  }

  predicate Sound(w: Workflow, s: RunState)
    requires Declared(w)
  {
    && Matches(w, s)
    && forall n | 0 <= n < |w.nodes| :: NodeSound(w, s, n)
  }

  // ---------------------------------------------------------------------
  // Settled nodes never change
  // ---------------------------------------------------------------------

  ghost predicate Persists(s: RunState, s': RunState) {
    && |s.nodes| == |s'.nodes|
    && forall m | 0 <= m < |s.nodes| && Settled(s.nodes[m]) :: s'.nodes[m] == s.nodes[m]
  }

  lemma SettledIsAbsorbing(w: Workflow, s: RunState, e: Event)
    requires Declared(w) && Matches(w, s) && Accepts(w, s, e)
    ensures Persists(s, Effect(w, s, e))
  {
  }

  /** Facts that rest on settled nodes survive any later state. */
  lemma FactsPersist(w: Workflow, s: RunState, s': RunState, n: NodeId)
    requires Declared(w) && Matches(w, s) && Persists(s, s') && n < |w.nodes|
    ensures Matches(w, s')
    ensures DependenciesSettled(w, s, n) ==> DependenciesSettled(w, s', n)
    ensures DependenciesSucceeded(w, s, n) ==> DependenciesSucceeded(w, s', n)
    ensures Selected(w, s, n) ==> Selected(w, s', n)
    ensures Justified(w, s, n) ==> Justified(w, s', n)
  {
    assert RefsInRange(w, w.nodes[n]);
  }

  lemma OmissionPersists(w: Workflow, s: RunState, s': RunState, n: NodeId)
    requires Declared(w) && Sound(w, s) && Persists(s, s') && n < |w.nodes|
    requires OmissionJustified(w, s, n)
    ensures OmissionJustified(w, s', n)
  {
    var node := w.nodes[n];
    assert RefsInRange(w, node);
    if i :| 0 <= i < |node.dependsOn| && s.nodes[node.dependsOn[i]].status.Omitted? {
      assert s'.nodes[node.dependsOn[i]].status.Omitted?;
    } else if node.when.Some? && s.nodes[node.when.value.conditionId].control.ConditionDecided?
              && s.nodes[node.when.value.conditionId].control.selected != node.when.value.selects {
      assert NodeSound(w, s, node.when.value.conditionId);
    } else if node.loopGuard.Some? && s.nodes[node.loopGuard.value].control == LoopDecided(true) {
      assert NodeSound(w, s, node.loopGuard.value);
    } else {
      assert NodeSound(w, s, node.optimizationGuard.value);
    }
  }

  lemma JoinPersists(w: Workflow, s: RunState, s': RunState, n: NodeId)
    requires Declared(w) && Sound(w, s) && Persists(s, s') && n < |w.nodes| && w.nodes[n].kind.Join?
    requires s'.nodes[n] == s.nodes[n]
    ensures JoinSound(w, s', n) && JoinTook(w, s', n)
  {
    var kind := w.nodes[n].kind;
    assert RefsInRange(w, w.nodes[n]);
    if s.nodes[n].status.Succeeded? {
      assert NodeSound(w, s, n);
      assert NodeSound(w, s, kind.conditionId);
      assert s'.nodes[kind.conditionId] == s.nodes[kind.conditionId];
      var i :| 0 <= i < |w.nodes[n].dependsOn| && s.nodes[w.nodes[n].dependsOn[i]].status.Succeeded?;
      assert s'.nodes[w.nodes[n].dependsOn[i]].status.Succeeded?;
    }
  }

  lemma UnchangedNodeSound(w: Workflow, s: RunState, s': RunState, n: NodeId)
    requires Declared(w) && Sound(w, s) && Persists(s, s') && n < |w.nodes|
    requires s'.nodes[n] == s.nodes[n]
    ensures NodeSound(w, s', n)
  {
    assert NodeSound(w, s, n);
    FactsPersist(w, s, s', n);
    if s.nodes[n].status.Omitted? {
      OmissionPersists(w, s, s', n);
    }
    if w.nodes[n].kind.Join? {
      JoinPersists(w, s, s', n);
    }
  }

  // ---------------------------------------------------------------------
  // What the scheduler's choice implies
  // ---------------------------------------------------------------------

  lemma NoneOmitted(w: Workflow, s: RunState, n: NodeId)
    requires Declared(w) && Matches(w, s) && n < |w.nodes|
    requires DependenciesSettled(w, s, n) && OmittedAmong(s, w.nodes[n].dependsOn) == []
    ensures DependenciesSucceeded(w, s, n)
  {
    var ids := w.nodes[n].dependsOn;
    forall i | 0 <= i < |ids|
      ensures s.nodes[ids[i]].status.Succeeded?
    {
      assert ids[i] in ids;
      assert ids[i] !in OmittedAmong(s, ids);
    }
  }

  /** The transitions that begin or decide a node, and the kind each is for. */
  predicate Begins(t: Transition) {
    t.Execute? || t.RequestApproval? || t.EvaluateCondition? || t.PublishResult?
  }

  predicate KindFits(kind: Kind, t: Transition) {
    match t
    case Execute(_) => kind.Executable()
    case RequestApproval(_) => kind.Approval?
    case EvaluateCondition(_) => kind.Condition?
    case PublishResult(_) => kind.Result?
    case EvaluateLoop(_) => kind.LoopCheck?
    case EvaluateOptimization(_) => kind.OptimizationCheck?
    case TakeJoin(_) => kind.Join?
    case CompleteLoop(_) => kind.Loop?
    case CompleteOptimization(_) => kind.Optimization?
    case _ => true
  }

  lemma ReadyFits(w: Workflow, s: RunState, n: NodeId)
    requires Declared(w) && Matches(w, s) && n < |w.nodes| && Ready(w, s, n).Some?
    ensures KindFits(w.nodes[n].kind, Ready(w, s, n).value)
    ensures var t := Ready(w, s, n).value;
            Begins(t) || t.EvaluateLoop? || t.EvaluateOptimization? ==> OmittedAmong(s, w.nodes[n].dependsOn) == []
  {
  }

  /** A node is chosen to run, or to be decided, only when all its dependencies
      succeeded and every declared guard chose it. */
  lemma ChosenIsJustified(w: Workflow, s: RunState, t: Transition)
    requires WellFormed(w) && Sound(w, s)
    requires t.node < |w.nodes| && Ready(w, s, t.node) == Some(t)
    ensures KindFits(w.nodes[t.node].kind, t)
    ensures Begins(t) ==> DependenciesSucceeded(w, s, t.node) && Selected(w, s, t.node)
    ensures t.EvaluateLoop? || t.EvaluateOptimization? ==> DependenciesSucceeded(w, s, t.node)
  {
    ReadyFits(w, s, t.node);
    if Begins(t) || t.EvaluateLoop? || t.EvaluateOptimization? {
      NoneOmitted(w, s, t.node);
    }
    if Begins(t) {
      GuardsChose(w, s, t.node, t);
    }
  }

  lemma GuardsChose(w: Workflow, s: RunState, n: NodeId, t: Transition)
    requires WellFormed(w) && Sound(w, s) && n < |w.nodes|
    requires DependenciesSucceeded(w, s, n) && Ready(w, s, n) == Some(t)
    requires Begins(t)
    ensures Selected(w, s, n)
  {
    var node := w.nodes[n];
    assert RefsInRange(w, node) && GuardsDeclared(w, node);
    BeginsPastGuards(w, s, n, t);
    if node.optimizationGuard.Some? {
      assert NodeSound(w, s, node.optimizationGuard.value);
      assert node.kind.Child?;
    }
    if node.loopGuard.Some? {
      assert NodeSound(w, s, node.loopGuard.value);
    }
    if node.when.Some? {
      assert NodeSound(w, s, node.when.value.conditionId);
    }
  }

  /** A node begins only once each guard has decided for it, or was itself omitted. */
  lemma BeginsPastGuards(w: Workflow, s: RunState, n: NodeId, t: Transition)
    requires Declared(w) && Matches(w, s) && n < |w.nodes|
    requires Ready(w, s, n) == Some(t) && Begins(t)
    ensures var node := w.nodes[n];
            && node.kind.Guardable()
            && (node.optimizationGuard.Some? ==>
                  OptimizationDecision(s, node.optimizationGuard.value) == Some(false)
                    || HasStatus(s, node.optimizationGuard.value, Omitted))
            && (node.loopGuard.Some? ==>
                  LoopDecision(s, node.loopGuard.value) == Some(false) || HasStatus(s, node.loopGuard.value, Omitted))
            && (node.when.Some? ==>
                  ConditionDecision(s, node.when.value.conditionId) == Some(node.when.value.selects)
                  || HasStatus(s, node.when.value.conditionId, Omitted))
  {
  }

  // ---------------------------------------------------------------------
  // Preservation
  // ---------------------------------------------------------------------

  lemma JoinedSound(w: Workflow, s: RunState, n: NodeId, selected: Case, completed: NodeId, unselected: seq<NodeId>)
    requires WellFormed(w) && Sound(w, s) && n < |w.nodes| && w.nodes[n].kind.Join?
    requires HasStatus(s, n, Pending) && AcceptsJoin(w, s, n, selected, completed, unselected)
    requires Persists(s, s.(nodes := s.nodes[n := Decided(s.nodes[n], s.nodes[n].control)]))
    ensures NodeSound(w, s.(nodes := s.nodes[n := Decided(s.nodes[n], s.nodes[n].control)]), n)
  {
    var s' := s.(nodes := s.nodes[n := Decided(s.nodes[n], s.nodes[n].control)]);
    var kind := w.nodes[n].kind;
    assert RefsInRange(w, w.nodes[n]) && KindDeclared(w, w.nodes[n]);
    FactsPersist(w, s, s', n);
    assert NodeSound(w, s, n);
    var branch := BranchFor(kind.branches, selected).value;
    var i :| 0 <= i < |kind.branches| && kind.branches[i] == branch;
    assert w.nodes[n].dependsOn[i] == branch.nodeId;
    assert s'.nodes[w.nodes[n].dependsOn[i]].status.Succeeded?;
    forall j | 0 <= j < |kind.branches| && kind.branches[j].selects != selected
      ensures HasStatus(s', kind.branches[j].nodeId, Omitted)
    {
      assert kind.branches[j].nodeId in unselected;
    }
  }

  lemma OmittedSound(w: Workflow, s: RunState, n: NodeId, reason: Omission)
    requires WellFormed(w) && Sound(w, s) && n < |w.nodes|
    requires HasStatus(s, n, Pending) && DependenciesSettled(w, s, n) && AcceptsOmission(w, s, n, reason)
    requires Persists(s, s.(nodes := s.nodes[n := s.nodes[n].(status := Omitted)]))
    ensures NodeSound(w, s.(nodes := s.nodes[n := s.nodes[n].(status := Omitted)]), n)
  {
    var s' := s.(nodes := s.nodes[n := s.nodes[n].(status := Omitted)]);
    assert RefsInRange(w, w.nodes[n]) && GuardsDeclared(w, w.nodes[n]);
    FactsPersist(w, s, s', n);
    assert NodeSound(w, s, n);
    OmissionHasReason(w, s, n, reason);
    OmissionPersists(w, s, s', n);
  }

  lemma OmissionHasReason(w: Workflow, s: RunState, n: NodeId, reason: Omission)
    requires Declared(w) && Matches(w, s) && n < |w.nodes| && AcceptsOmission(w, s, n, reason)
    ensures OmissionJustified(w, s, n)
  {
    if reason.DependencyOmitted? {
      var d := reason.omitted[0];
      assert d in OmittedAmong(s, w.nodes[n].dependsOn);
      var i :| 0 <= i < |w.nodes[n].dependsOn| && w.nodes[n].dependsOn[i] == d;
    }
  }

  predicate Engages(e: Event) {
    ControlRecord(e) || e.NodeStarted? || e.CommandApprovalRequested?
  }

  lemma DecisionAfter(w: Workflow, s: RunState, n: NodeId, e: Event)
    requires Declared(w) && Matches(w, s) && Accepts(w, s, e) && Target(e) == Some(n) && n < |w.nodes|
    requires !e.NodeJoined? && !e.NodeOmitted?
    requires DecisionSound(w.nodes[n].kind, s.nodes[n]) && RecordSound(w.nodes[n].kind, s.nodes[n])
    ensures DecisionSound(w.nodes[n].kind, NodeAfter(w, s, e))
  {
  }

  lemma RecordAfter(w: Workflow, s: RunState, n: NodeId, e: Event)
    requires Declared(w) && Matches(w, s) && Accepts(w, s, e) && Target(e) == Some(n) && n < |w.nodes|
    requires !e.NodeJoined? && !e.NodeOmitted? && (e.NodeStarted? ==> w.nodes[n].kind.Executable())
    requires RecordSound(w.nodes[n].kind, s.nodes[n])
    ensures RecordSound(w.nodes[n].kind, NodeAfter(w, s, e))
  {
  }

  /** An accepted event leaves its node's record and decision in order. */
  lemma RecordedAfter(w: Workflow, s: RunState, n: NodeId, e: Event)
    requires Declared(w) && Matches(w, s) && Accepts(w, s, e) && Target(e) == Some(n) && n < |w.nodes|
    requires !e.NodeJoined? && !e.NodeOmitted? && (e.NodeStarted? ==> w.nodes[n].kind.Executable())
    requires DecisionSound(w.nodes[n].kind, s.nodes[n]) && RecordSound(w.nodes[n].kind, s.nodes[n])
    ensures var after := NodeAfter(w, s, e);
            && DecisionSound(w.nodes[n].kind, after) && RecordSound(w.nodes[n].kind, after)
            && !after.status.Omitted? && (w.nodes[n].kind.Join? ==> after.status == s.nodes[n].status)
            && (Engaged(after) ==> Engaged(s.nodes[n]) || Engages(e))
  {
    DecisionAfter(w, s, n, e);
    RecordAfter(w, s, n, e);
  }

  predicate Omits(t: Transition) {
    t.OmitCondition? || t.OmitDependency? || t.OmitLoop? || t.OmitOptimization?
  }

  lemma AdmittedChoice(w: Workflow, s: RunState, n: NodeId, e: Event)
    requires Declared(w) && Matches(w, s) && Target(e) == Some(n) && n < |w.nodes|
    requires Engages(e) && !e.NodeOmitted? && GraphAdmits(w, s, e)
    ensures SelectNext(w, s).Some? && SelectNext(w, s).value.node == n && !Omits(SelectNext(w, s).value)
    ensures e.NodeStarted? ==> SelectNext(w, s).value.Execute?
  {
  }

  lemma ChoiceJustifies(w: Workflow, s: RunState, t: Transition)
    requires WellFormed(w) && Sound(w, s) && t.node < |w.nodes| && Ready(w, s, t.node) == Some(t) && !Omits(t)
    ensures Justified(w, s, t.node) && KindFits(w.nodes[t.node].kind, t)
  {
    ChosenIsJustified(w, s, t);
  }

  /** What begins or decides a node is the scheduler's choice, so it is justified. */
  lemma EngagedIsJustified(w: Workflow, s: RunState, n: NodeId, e: Event)
    requires WellFormed(w) && Sound(w, s) && n < |w.nodes| && Target(e) == Some(n)
    requires Engages(e) && !e.NodeOmitted? && GraphAdmits(w, s, e)
    ensures Justified(w, s, n) && (e.NodeStarted? ==> w.nodes[n].kind.Executable())
  {
    AdmittedChoice(w, s, n, e);
    ChoiceJustifies(w, s, SelectNext(w, s).value);
  }

  lemma ReplacedNodeSound(w: Workflow, s: RunState, s': RunState, n: NodeId)
    requires Declared(w) && Matches(w, s) && Persists(s, s') && n < |w.nodes| && NodeSound(w, s, n)
    requires !s'.nodes[n].status.Omitted? && DecisionSound(w.nodes[n].kind, s'.nodes[n])
    requires RecordSound(w.nodes[n].kind, s'.nodes[n])
    requires Engaged(s'.nodes[n]) ==> Engaged(s.nodes[n]) || Justified(w, s, n)
    requires w.nodes[n].kind.Join? ==> s'.nodes[n].status == s.nodes[n].status && !s.nodes[n].status.Succeeded?
    ensures NodeSound(w, s', n)
  {
    FactsPersist(w, s, s', n);
  }

  /** The node an accepted event changes stays sound. */
  lemma TargetSound(w: Workflow, s: RunState, n: NodeId, e: Event, s': RunState)
    requires WellFormed(w) && Sound(w, s) && n < |w.nodes| && Target(e) == Some(n)
    requires GraphAdmits(w, s, e) && Accepts(w, s, e) && Persists(s, s') && s'.nodes == s.nodes[n := NodeAfter(w, s, e)]
    ensures NodeSound(w, s', n)
  {
    assert NodeSound(w, s, n);
    if Engages(e) && !e.NodeOmitted? {
      EngagedIsJustified(w, s, n, e);
    }
    if e.NodeJoined? {
      JoinedSound(w, s, n, e.selected, e.completed, e.unselected);
      SameNodesSound(w, s.(nodes := s'.nodes), s', n);
    } else if e.NodeOmitted? {
      OmittedSound(w, s, n, e.reason);
      SameNodesSound(w, s.(nodes := s'.nodes), s', n);
    } else {
      RecordedAfter(w, s, n, e);
      ReplacedNodeSound(w, s, s', n);
    }
  }

  lemma SameNodesSound(w: Workflow, s: RunState, s': RunState, n: NodeId)
    requires Declared(w) && Matches(w, s) && n < |w.nodes| && s'.nodes == s.nodes && NodeSound(w, s, n)
    ensures NodeSound(w, s', n)
  {
    FactsPersist(w, s, s', n);
  }

  /** Every accepted event keeps the invariant. */
  lemma SoundStep(w: Workflow, s: RunState, e: Event)
    requires WellFormed(w) && Sound(w, s)
    requires GraphAdmits(w, s, e) && Accepts(w, s, e)
    ensures Sound(w, Effect(w, s, e))
  {
    var s' := Effect(w, s, e);
    SettledIsAbsorbing(w, s, e);
    forall n | 0 <= n < |w.nodes|
      ensures NodeSound(w, s', n)
    {
      if Target(e) == Some(n) {
        TargetSound(w, s, n, e, s');
      } else {
        UnchangedNodeSound(w, s, s', n);
      }
    }
  }

  /** Every accepted history leads to a sound state. */
  lemma {:induction false} AcceptedHistoryIsSound(w: Workflow, ledger: seq<Event>)
    requires WellFormed(w) && Replayed(w, ledger).Some?
    ensures Sound(w, Replayed(w, ledger).value.state)
  {
    if |ledger| > 0 {
      var last := |ledger| - 1;
      AcceptedHistoryIsSound(w, ledger[..last]);
      SoundStep(w, Replayed(w, ledger[..last]).value.state, ledger[last]);
    }
  }

  // ---------------------------------------------------------------------
  // Whole histories
  // ---------------------------------------------------------------------

  /** The state after the first i records of an accepted ledger. */
  function StateAt(w: Workflow, ledger: seq<Event>, i: nat): RunState
    requires Declared(w) && i <= |ledger| && Replayed(w, ledger[..i]).Some?
  {
    Replayed(w, ledger[..i]).value.state
  }

  lemma {:induction false} PrefixesReplay(w: Workflow, ledger: seq<Event>, i: nat)
    requires Declared(w) && i <= |ledger| && Replayed(w, ledger).Some?
    ensures Replayed(w, ledger[..i]).Some?
  {
    if Replayed(w, ledger[..i]).None? {
      RejectionIsFinal(w, ledger, i);
    }
  }

  lemma PersistsOn(s: RunState, t: RunState, u: RunState)
    requires Persists(s, t) && Persists(t, u)
    ensures Persists(s, u)
  {
  }

  lemma LastPersists(w: Workflow, ledger: seq<Event>)
    requires Declared(w) && |ledger| > 0 && Replayed(w, ledger).Some?
    ensures Replayed(w, ledger[..|ledger| - 1]).Some?
    ensures Persists(Replayed(w, ledger[..|ledger| - 1]).value.state, Replayed(w, ledger).value.state)
  {
    SettledIsAbsorbing(w, Replayed(w, ledger[..|ledger| - 1]).value.state, ledger[|ledger| - 1]);
  }

  lemma {:induction false} PersistsToEnd(w: Workflow, ledger: seq<Event>, i: nat)
    requires Declared(w) && i <= |ledger| && Replayed(w, ledger).Some?
    ensures Replayed(w, ledger[..i]).Some? && Persists(StateAt(w, ledger, i), Replayed(w, ledger).value.state)
    decreases |ledger|
  {
    if i == |ledger| {
      assert ledger[..i] == ledger;
    } else {
      var before := ledger[..|ledger| - 1];
      LastPersists(w, ledger);
      PersistsToEnd(w, before, i);
      assert before[..i] == ledger[..i];
      PersistsOn(StateAt(w, ledger, i), Replayed(w, before).value.state, Replayed(w, ledger).value.state);
    }
  }

  /** Once settled, a node keeps its record at every later point of the ledger. */
  lemma SettledForever(w: Workflow, ledger: seq<Event>, i: nat, j: nat)
    requires Declared(w) && i <= j <= |ledger| && Replayed(w, ledger).Some?
    ensures Replayed(w, ledger[..i]).Some? && Replayed(w, ledger[..j]).Some?
    ensures Persists(StateAt(w, ledger, i), StateAt(w, ledger, j))
  {
    PrefixesReplay(w, ledger, j);
    PersistsToEnd(w, ledger[..j], i);
    assert ledger[..j][..i] == ledger[..i];
  }

  /** Safety of whole runs: wherever an accepted ledger starts a node, every
      dependency has succeeded and the condition, loop and optimization guards chose
      the node, and this is still so at every later point. */
  lemma StartsStayJustified(w: Workflow, ledger: seq<Event>, i: nat, j: nat)
    requires WellFormed(w) && Replayed(w, ledger).Some?
    requires i < |ledger| && ledger[i].NodeStarted? && i <= j <= |ledger|
    ensures Replayed(w, ledger[..j]).Some? && ledger[i].node < |w.nodes|
    ensures DependenciesSucceeded(w, StateAt(w, ledger, j), ledger[i].node)
    ensures Selected(w, StateAt(w, ledger, j), ledger[i].node)
  {
    SettledForever(w, ledger, i, j);
    PrefixesReplay(w, ledger, i + 1);
    assert ledger[..i + 1][..i] == ledger[..i];
    var s := StateAt(w, ledger, i);
    AcceptedHistoryIsSound(w, ledger[..i]);
    ChosenIsJustified(w, s, SelectNext(w, s).value);
    FactsPersist(w, s, StateAt(w, ledger, j), ledger[i].node);
  }
}
