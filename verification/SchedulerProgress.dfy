/** When the scheduler finds a transition, and how long a run can go on. */
module SchedulerProgress {
  import opened Standard
  import opened WorkflowGraph
  import opened RunReducer
  import opened Scheduler
  import opened RecoveredHistory
  import opened RunSafety

  /** No node is running or failed: the state in which a fresh batch is selected. */
  predicate Quiet(s: RunState) {
    !SomeStatus(s, Running) && !SomeStatus(s, Failed)
  }

  /** A pending join whose condition was omitted although every branch succeeded. */
  predicate Orphan(w: Workflow, s: RunState, n: NodeId)
    requires Declared(w) && Matches(w, s) && n < |w.nodes|
  {
    && w.nodes[n].kind.Join? && s.nodes[n].status.Pending?
    && HasStatus(s, w.nodes[n].kind.conditionId, Omitted)
    && DependenciesSucceeded(w, s, n)
  }

  predicate Due(w: Workflow, s: RunState, n: NodeId)
    requires Declared(w) && Matches(w, s) && n < |w.nodes|
  {
    s.nodes[n].status.Pending? && DependenciesSettled(w, s, n)
  }

  /** Settled nodes have settled dependencies, so settlement climbs every chain. */
  lemma {:induction false} ChainSettled(w: Workflow, s: RunState, chain: seq<NodeId>)
    requires Declared(w) && Sound(w, s) && IsChain(w, chain) && Settled(s.nodes[chain[0]])
    ensures Settled(s.nodes[chain[|chain| - 1]])
  {
    if |chain| > 1 {
      var n := chain[0];
      assert NodeSound(w, s, n);
      assert DependenciesSettled(w, s, n);
      assert chain[0 + 1] in w.nodes[n].dependsOn;
      var rest := chain[1..];
      assert rest[0] in w.nodes[n].dependsOn;
      assert forall i | 0 <= i < |rest| :: rest[i] == chain[i + 1];
      ChainSettled(w, s, rest);
    }
  }

  lemma JoinConditionSettled(w: Workflow, s: RunState, n: NodeId)
    requires WellFormed(w) && Sound(w, s) && n < |w.nodes| && w.nodes[n].kind.Join? && DependenciesSettled(w, s, n)
    ensures Settled(s.nodes[w.nodes[n].kind.conditionId])
  {
    assert KindDeclared(w, w.nodes[n]);
    var c := w.nodes[n].kind.conditionId;
    var d :| d in w.nodes[n].dependsOn && Above(w, c, d);
    var chain :| IsChain(w, chain) && chain[0] == d && chain[|chain| - 1] == c;
    assert Settled(s.nodes[d]);
    ChainSettled(w, s, chain);
  }

  /** The check that guards a due candidate, or a due check, is settled. */
  lemma OptimizationGuardSettled(w: Workflow, s: RunState, n: NodeId)
    requires WellFormed(w) && Sound(w, s) && n < |w.nodes| && DependenciesSettled(w, s, n)
    requires w.nodes[n].optimizationGuard.Some?
    ensures Settled(s.nodes[w.nodes[n].optimizationGuard.value])
  {
    var node := w.nodes[n];
    var check := node.optimizationGuard.value;
    assert GuardsDeclared(w, node);
    if node.kind.OptimizationCheck? {
      var i :| 0 <= i < |node.dependsOn| && w.nodes[node.dependsOn[i]].kind.Child?
        && check in w.nodes[node.dependsOn[i]].dependsOn;
      var candidate := node.dependsOn[i];
      assert NodeSound(w, s, candidate) && Settled(s.nodes[candidate]);
      assert DependenciesSettled(w, s, candidate);
    }
  }

  /** A due node is ready for some transition unless it is an orphaned join. */
  lemma DueIsReady(w: Workflow, s: RunState, n: NodeId)
    requires WellFormed(w) && Sound(w, s) && n < |w.nodes| && Due(w, s, n)
    ensures Ready(w, s, n).None? <==> Orphan(w, s, n)
  {
    var node := w.nodes[n];
    assert RefsInRange(w, node) && GuardsDeclared(w, node);
    if node.optimizationGuard.Some? {
      OptimizationGuardSettled(w, s, n);
      assert NodeSound(w, s, node.optimizationGuard.value);
    }
    if node.loopGuard.Some? {
      assert NodeSound(w, s, node.loopGuard.value);
    }
    if node.when.Some? {
      assert NodeSound(w, s, node.when.value.conditionId);
    }
    if node.kind.Join? {
      JoinConditionSettled(w, s, n);
      JoinReadiness(w, s, n);
    } else {
      NonJoinReady(w, s, n);
    }
  }

  lemma JoinReadiness(w: Workflow, s: RunState, n: NodeId)
    requires WellFormed(w) && Sound(w, s) && n < |w.nodes| && Due(w, s, n) && w.nodes[n].kind.Join?
    requires Settled(s.nodes[w.nodes[n].kind.conditionId])
    ensures Ready(w, s, n).None? <==> Orphan(w, s, n)
  {
    assert KindDeclared(w, w.nodes[n]) && GuardsDeclared(w, w.nodes[n]);
    assert NodeSound(w, s, w.nodes[n].kind.conditionId);
    if OmittedAmong(s, w.nodes[n].dependsOn) == [] {
      NoneOmitted(w, s, n);
    } else {
      var d := OmittedAmong(s, w.nodes[n].dependsOn)[0];
      assert d in OmittedAmong(s, w.nodes[n].dependsOn);
      var i :| 0 <= i < |w.nodes[n].dependsOn| && w.nodes[n].dependsOn[i] == d;
    }
  }

  lemma NonJoinReady(w: Workflow, s: RunState, n: NodeId)
    requires Declared(w) && Matches(w, s) && n < |w.nodes| && Due(w, s, n) && !w.nodes[n].kind.Join?
    requires var node := w.nodes[n];
             && (node.optimizationGuard.Some? ==>
                   OptimizationDecision(s, node.optimizationGuard.value).Some?
                     || HasStatus(s, node.optimizationGuard.value, Omitted))
             && (node.loopGuard.Some? ==>
                   LoopDecision(s, node.loopGuard.value).Some? || HasStatus(s, node.loopGuard.value, Omitted))
             && (node.when.Some? ==>
                   ConditionDecision(s, node.when.value.conditionId).Some?
                     || HasStatus(s, node.when.value.conditionId, Omitted))
    ensures Ready(w, s, n).Some?
  {
  }

  /** Among pending nodes of a quiet state, one of least rank is due. */
  lemma {:induction false} SomeNodeIsDue(w: Workflow, s: RunState, rank: seq<nat>, n: NodeId)
    requires Declared(w) && Matches(w, s) && Ranks(w, rank) && Quiet(s)
    requires n < |w.nodes| && s.nodes[n].status.Pending?
    ensures exists m :: 0 <= m < |w.nodes| && Due(w, s, m)
    decreases rank[n]
  {
    if DependenciesSettled(w, s, n) {
      assert Due(w, s, n);
    } else {
      var i :| 0 <= i < |w.nodes[n].dependsOn| && !Settled(s.nodes[w.nodes[n].dependsOn[i]]);
      SomeNodeIsDue(w, s, rank, w.nodes[n].dependsOn[i]);
    }
  }

  /** The scheduler finds no transition in a quiet, unfinished state exactly when
      every due node is an orphaned join; then at least one exists. */
  lemma NoReadyNodeExactly(w: Workflow, s: RunState)
    requires WellFormed(w) && Sound(w, s) && Quiet(s) && !AllSettled(s)
    ensures SelectNext(w, s).None? <==> forall n | 0 <= n < |w.nodes| && Due(w, s, n) :: Orphan(w, s, n)
    ensures SelectNext(w, s).None? ==> exists n :: 0 <= n < |w.nodes| && Orphan(w, s, n)
  {
    var p :| 0 <= p < |s.nodes| && !Settled(s.nodes[p]);
    assert s.nodes[p].status.Pending?;
    var rank :| Ranks(w, rank);
    SomeNodeIsDue(w, s, rank, p);
    forall n | 0 <= n < |w.nodes| && Due(w, s, n)
      ensures Ready(w, s, n).None? <==> Orphan(w, s, n)
    {
      DueIsReady(w, s, n);
    }
  }

  /** Progress: without an orphaned join, an unfinished quiet run always has a next
      transition, so the "no ready node" error cannot occur. */
  lemma Progress(w: Workflow, ledger: seq<Event>)
    requires WellFormed(w) && Replayed(w, ledger).Some?
    requires var s := Replayed(w, ledger).value.state;
             Quiet(s) && !AllSettled(s) && forall n | 0 <= n < |w.nodes| :: !Orphan(w, s, n)
    ensures SelectNext(w, Replayed(w, ledger).value.state).Some?
  {
    AcceptedHistoryIsSound(w, ledger);
    NoReadyNodeExactly(w, Replayed(w, ledger).value.state);
  }

  // ---------------------------------------------------------------------
  // Termination, across every crash and resume
  // ---------------------------------------------------------------------

  /** The attempts a node may ever use. */
  function Attempts(kind: Kind): nat {
    if kind.Agent? && kind.recovery.Some? && kind.recovery.value > 0 then kind.recovery.value else 1
  }

  /** How many more changes of status a node can go through, at most. */
  function Potential(kind: Kind, n: NodeState): nat {
    var left := if n.attempt >= Attempts(kind) then 0 else Attempts(kind) - n.attempt;
    match n.status
    case Pending => 3 * left + 1
    case Running => 3 * left + 3
    case Failed => 3 * left + 2
    case Succeeded => 0
    case Omitted => 0
  }

  function Work(kinds: seq<Node>, nodes: seq<NodeState>): nat
    requires |kinds| == |nodes|
  {
    if |nodes| == 0 then 0
    else Work(kinds[..|nodes| - 1], nodes[..|nodes| - 1]) + Potential(kinds[|nodes| - 1].kind, nodes[|nodes| - 1])
  }

  lemma {:induction false} WorkUpdate(kinds: seq<Node>, nodes: seq<NodeState>, n: nat, node: NodeState)
    requires |kinds| == |nodes| && n < |nodes|
    ensures Work(kinds, nodes[n := node]) ==
            Work(kinds, nodes) - Potential(kinds[n].kind, nodes[n]) + Potential(kinds[n].kind, node)
  {
    var last := |nodes| - 1;
    if n == last {
      assert nodes[n := node][..last] == nodes[..last];
    } else {
      assert nodes[n := node][..last] == nodes[..last][n := node];
      WorkUpdate(kinds[..last], nodes[..last], n, node);
    }
  }

  /** Attempt counts stay within a node's allowance: a spent one is never restarted. */
  predicate WithinAllowance(kind: Kind, n: NodeState) {
    && n.attempt <= Attempts(kind)
    && (n.status.Pending? ==> n.attempt < Attempts(kind))
  }

  predicate Frugal(w: Workflow, s: RunState) {
    && Matches(w, s)
    && forall n | 0 <= n < |w.nodes| :: WithinAllowance(w.nodes[n].kind, s.nodes[n])
  }

  /** The records that change a node's status. */
  predicate Advances(e: Event) {
    match e
    case WorkflowApprovalApproved(_) => true
    case WorkflowApprovalDenied(_) => true
    case CommandApprovalDenied(_) => true
    case NodeStarted(_, _) => true
    case NodeInterrupted(_, _) => true
    case NodeRetryScheduled(_, _) => true
    case NodeSucceeded(_, _, _, _) => true
    case NodeFailed(_, _, _, _) => true
    case OptimizationProgressed(_) => false
    case WorkflowApprovalRequested(_) => false
    case _ => ControlRecord(e)
  }

  /** The changes a record can make to its node's status and attempt count. */
  predicate Moves(kind: Kind, n: NodeState, after: NodeState) {
    match n.status
    case Pending =>
      || (after.status.Running? && after.attempt == n.attempt + 1)
      || ((after.status.Succeeded? || after.status.Failed?) && after.attempt == n.attempt + 1)
      || (after.status.Omitted? && after.attempt == n.attempt)
    case Running =>
      && after.attempt == n.attempt
      && (after.status.Succeeded? || after.status.Failed? || (after.status.Pending? && n.attempt < Attempts(kind)))
    case Failed => after.status.Pending? && after.attempt == n.attempt < Attempts(kind)
    case _ => false
  }

  lemma RecordMoves(w: Workflow, s: RunState, e: Event)
    requires Declared(w) && Matches(w, s) && Accepts(w, s, e) && Target(e).Some?
    requires e.WorkflowApprovalApproved? || e.WorkflowApprovalDenied? ==> s.nodes[e.node].attempt == 0
    ensures var n := Target(e).value;
            var after := NodeAfter(w, s, e);
            if Advances(e) then Moves(w.nodes[n].kind, s.nodes[n], after)
            else after.status == s.nodes[n].status && after.attempt == s.nodes[n].attempt
  {
  }

  lemma MovesSpend(kind: Kind, n: NodeState, after: NodeState)
    requires WithinAllowance(kind, n) && Moves(kind, n, after)
    ensures WithinAllowance(kind, after) && Potential(kind, after) < Potential(kind, n)
  {
  }

  lemma AdvanceSpendsWork(w: Workflow, s: RunState, e: Event)
    requires Declared(w) && Sound(w, s) && Frugal(w, s) && Accepts(w, s, e)
    ensures Frugal(w, Effect(w, s, e))
    ensures Work(w.nodes, Effect(w, s, e).nodes) <= Work(w.nodes, s.nodes)
    ensures Advances(e) ==> Work(w.nodes, Effect(w, s, e).nodes) < Work(w.nodes, s.nodes)
  {
    if Target(e).Some? {
      var n := Target(e).value;
      TargetSpends(w, s, e);
      WorkUpdate(w.nodes, s.nodes, n, NodeAfter(w, s, e));
      OneNodeChanges(w, s, e, Effect(w, s, e));
    }
  }

  lemma OneNodeChanges(w: Workflow, s: RunState, e: Event, s': RunState)
    requires Declared(w) && Frugal(w, s) && Accepts(w, s, e) && Target(e).Some? && s' == Effect(w, s, e)
    requires WithinAllowance(w.nodes[e.node].kind, NodeAfter(w, s, e))
    ensures s'.nodes == s.nodes[e.node := NodeAfter(w, s, e)] && Frugal(w, s')
  {
  }

  lemma TargetSpends(w: Workflow, s: RunState, e: Event)
    requires Declared(w) && Sound(w, s) && Accepts(w, s, e) && Target(e).Some?
    requires Frugal(w, s)
    ensures var kind, after := w.nodes[e.node].kind, NodeAfter(w, s, e);
            && WithinAllowance(kind, after)
            && (if Advances(e) then Potential(kind, after) < Potential(kind, s.nodes[e.node])
                else Potential(kind, after) == Potential(kind, s.nodes[e.node]))
  {
    assert NodeSound(w, s, e.node) && WithinAllowance(w.nodes[e.node].kind, s.nodes[e.node]);
    RecordMoves(w, s, e);
    if Advances(e) {
      MovesSpend(w.nodes[e.node].kind, s.nodes[e.node], NodeAfter(w, s, e));
    }
  }

  function AdvanceCount(ledger: seq<Event>): nat {
    if |ledger| == 0 then 0
    else AdvanceCount(ledger[..|ledger| - 1]) + if Advances(ledger[|ledger| - 1]) then 1 else 0
  }

  /** Over a whole history, with any number of crashes, resumes, interruptions and
      retries, the records that change a node's status are bounded by the workflow. */
  lemma {:induction false} HistoriesAreBounded(w: Workflow, ledger: seq<Event>)
    requires WellFormed(w) && Replayed(w, ledger).Some?
    ensures Frugal(w, Replayed(w, ledger).value.state)
    ensures AdvanceCount(ledger) + Work(w.nodes, Replayed(w, ledger).value.state.nodes) <= Work(w.nodes,
            Initial(w).nodes)
  {
    if |ledger| > 0 {
      var last := |ledger| - 1;
      HistoriesAreBounded(w, ledger[..last]);
      AcceptedHistoryIsSound(w, ledger[..last]);
      AdvanceSpendsWork(w, Replayed(w, ledger[..last]).value.state, ledger[last]);
    }
  }
}
