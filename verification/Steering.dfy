/** What the scheduler adds to soundness: why a join or a controller is left out, and on
    what a controller completes. */
module Steering {
  import opened Standard
  import opened WorkflowGraph
  import opened RunReducer
  import opened Scheduler
  import opened RecoveredHistory
  import opened RunSafety
  import opened OptimizationChain

  /** A join is left out only with its condition, a loop only if no check stopped it,
      an optimization never; a loop or an optimization completes on a check's decision. */
  predicate NodeSteered(w: Workflow, s: RunState, n: NodeId)
    requires Declared(w) && Matches(w, s) && n < |w.nodes|
  {
    match w.nodes[n].kind
    case Join(c, _) => s.nodes[n].status.Omitted? ==> HasStatus(s, c, Omitted)
    case Loop(checks) =>
      && (s.nodes[n].status.Omitted? ==> forall i | 0 <= i < |checks| ::
        s.nodes[checks[i]].control != LoopDecided(true))
      && (s.nodes[n].status.Succeeded? ==> exists i ::
        0 <= i < |checks| && s.nodes[checks[i]].control == LoopDecided(true))
    case Optimization(checks) =>
      && !s.nodes[n].status.Omitted?
      && (s.nodes[n].status.Succeeded? ==> exists i :: 0 <= i < |checks| && CheckDecides(s, checks[i]))
    case _ => true
  }

  predicate Steered(w: Workflow, s: RunState)
    requires Declared(w)
  {
    Matches(w, s) && forall n | 0 <= n < |w.nodes| :: NodeSteered(w, s, n)
  }

  lemma SteeringPersists(w: Workflow, s: RunState, s': RunState, n: NodeId)
    requires WellFormed(w) && Sound(w, s) && Persists(s, s') && n < |w.nodes| && NodeSteered(w, s, n)
    requires s'.nodes[n].status == s.nodes[n].status
    ensures NodeSteered(w, s', n)
  {
    assert NodeSound(w, s, n) && KindDeclared(w, w.nodes[n]) && RefsInRange(w, w.nodes[n]);
    if Settled(s.nodes[n]) && (w.nodes[n].kind.Loop? || w.nodes[n].kind.Optimization?) {
      assert DependenciesSettled(w, s, n);
      forall i | 0 <= i < |w.nodes[n].dependsOn|
        ensures s'.nodes[w.nodes[n].dependsOn[i]] == s.nodes[w.nodes[n].dependsOn[i]]
      {
        assert Settled(s.nodes[w.nodes[n].dependsOn[i]]);
      }
    }
  }

  /** Why the scheduler leaves out a join or a controller. */
  lemma OmissionIsSteered(w: Workflow, s: RunState, n: NodeId)
    requires WellFormed(w) && Matches(w, s) && n < |w.nodes| && Ready(w, s, n).Some? && Omits(Ready(w, s, n).value)
    ensures !w.nodes[n].kind.Optimization?
    ensures w.nodes[n].kind.Join? ==> HasStatus(s, w.nodes[n].kind.conditionId, Omitted)
    ensures w.nodes[n].kind.Loop? ==> FirstStop(s, w.nodes[n].kind.checks).None?
  {
    assert GuardsDeclared(w, w.nodes[n]);
  }

  lemma {:induction false} CountedDecide(s: RunState, checks: seq<NodeId>, stopped: bool)
    requires forall i | 0 <= i < |checks| :: checks[i] < |s.nodes|
    requires CompletedChecks(s, checks, stopped).Some? && |CompletedChecks(s, checks, stopped).value| > 0
    ensures exists i :: 0 <= i < |checks| && CheckDecides(s, checks[i])
  {
    if !CheckDecides(s, checks[0]) {
      CountedDecide(s, checks[1..], stopped);
      var i :| 0 <= i < |checks[1..]| && CheckDecides(s, checks[1..][i]);
      assert checks[i + 1] == checks[1..][i];
    }
  }

  lemma OnlyTargetChanges(w: Workflow, s: RunState, e: Event, n: NodeId)
    requires Declared(w) && Matches(w, s) && Accepts(w, s, e) && Target(e) == Some(n)
    ensures var s' := Effect(w, s, e);
            && n < |s.nodes| && s'.nodes[n] == NodeAfter(w, s, e)
            && (forall m | 0 <= m < |s.nodes| && m != n :: s'.nodes[m] == s.nodes[m])
    ensures e.NodeOmitted? ==> s.nodes[n].status.Pending? && NodeAfter(w, s, e) == s.nodes[n].(status := Omitted)
  {
  }

  lemma OmissionIsChosen(w: Workflow, s: RunState, e: Event)
    requires Declared(w) && Matches(w, s) && GraphAdmits(w, s, e) && e.NodeOmitted?
    ensures e.node < |w.nodes| && Ready(w, s, e.node).Some? && Omits(Ready(w, s, e.node).value)
  {
  }

  /** The node an accepted event settles is settled as the scheduler steered it. */
  lemma TargetSteered(w: Workflow, s: RunState, n: NodeId, e: Event, s': RunState)
    requires WellFormed(w) && Sound(w, s) && n < |w.nodes| && NodeSteered(w, s, n)
    requires GraphAdmits(w, s, e) && Accepts(w, s, e) && Target(e) == Some(n) && s' == Effect(w, s, e)
    requires Persists(s, s')
    ensures NodeSteered(w, s', n)
  {
    OnlyTargetChanges(w, s, e, n);
    if s'.nodes[n].status == s.nodes[n].status {
      SteeringPersists(w, s, s', n);
    } else if e.NodeOmitted? {
      OmissionIsChosen(w, s, e);
      OmissionIsSteered(w, s, n);
      OthersKeepFacts(w, s, s', n);
    } else {
      assert NodeSound(w, s, n);
      SettlementIsSteered(w, s, n, e, s');
    }
  }

  lemma OthersKeepFacts(w: Workflow, s: RunState, s': RunState, n: NodeId)
    requires WellFormed(w) && Matches(w, s) && Matches(w, s') && n < |w.nodes| && !w.nodes[n].kind.Optimization?
    requires s.nodes[n].status.Pending? && s'.nodes[n].status.Omitted?
    requires forall m | 0 <= m < |s.nodes| && m != n :: s'.nodes[m] == s.nodes[m]
    requires s'.nodes[n].control == s.nodes[n].control
    requires w.nodes[n].kind.Join? ==> HasStatus(s, w.nodes[n].kind.conditionId, Omitted)
    requires w.nodes[n].kind.Loop? ==> FirstStop(s, w.nodes[n].kind.checks).None?
    ensures NodeSteered(w, s', n)
  {
    assert RefsInRange(w, w.nodes[n]);
  }

  lemma LoopIsSteered(w: Workflow, s: RunState, s': RunState, n: NodeId, e: Event)
    requires WellFormed(w) && Matches(w, s) && n < |w.nodes| && w.nodes[n].kind.Loop? && Matches(w, s')
    requires e.LoopCompleted? && e.node == n && AcceptsControl(w, s, e)
    requires forall m | 0 <= m < |s.nodes| && m != n :: s'.nodes[m] == s.nodes[m]
    requires s'.nodes[n].control == s.nodes[n].control && !s'.nodes[n].status.Omitted?
    ensures NodeSteered(w, s', n)
  {
    var checks := w.nodes[n].kind.checks;
    assert RefsInRange(w, w.nodes[n]);
    var i := FirstStop(s, checks).value;
    assert s'.nodes[checks[i]].control == LoopDecided(true);
  }

  lemma OptimizationIsSteered(w: Workflow, s: RunState, s': RunState, n: NodeId, e: Event)
    requires WellFormed(w) && Matches(w, s) && n < |w.nodes| && w.nodes[n].kind.Optimization? && Matches(w, s')
    requires e.OptimizationCompleted? && e.node == n && AcceptsControl(w, s, e) && s.nodes[n].status.Pending?
    requires forall m | 0 <= m < |s.nodes| && m != n :: s'.nodes[m] == s.nodes[m]
    requires !s'.nodes[n].status.Omitted?
    ensures NodeSteered(w, s', n)
  {
    var checks := w.nodes[n].kind.checks;
    assert RefsInRange(w, w.nodes[n]);
    CountedDecide(s, checks, false);
    var i :| 0 <= i < |checks| && CheckDecides(s, checks[i]);
    assert CheckDecides(s', checks[i]);
  }

  lemma NotLeftOut(w: Workflow, s: RunState, e: Event)
    requires Declared(w) && Matches(w, s) && Accepts(w, s, e) && Target(e).Some? && !e.NodeOmitted?
    ensures NodeAfter(w, s, e).status.Omitted? ==> s.nodes[e.node].status.Omitted?
  {
  }

  lemma LoopSettlesBy(w: Workflow, s: RunState, n: NodeId, e: Event)
    requires Declared(w) && Matches(w, s) && n < |w.nodes| && RecordSound(w.nodes[n].kind, s.nodes[n])
    requires Accepts(w, s, e) && Target(e) == Some(n) && w.nodes[n].kind.Loop?
    requires NodeAfter(w, s, e).status.Succeeded? && !s.nodes[n].status.Succeeded?
    ensures e.LoopCompleted? && AcceptsControl(w, s, e) && NodeAfter(w, s, e).control == s.nodes[n].control
  {
  }

  lemma OptimizationSettlesBy(w: Workflow, s: RunState, n: NodeId, e: Event)
    requires Declared(w) && Matches(w, s) && n < |w.nodes| && RecordSound(w.nodes[n].kind, s.nodes[n])
    requires Accepts(w, s, e) && Target(e) == Some(n) && w.nodes[n].kind.Optimization?
    requires NodeAfter(w, s, e).status.Succeeded? && !s.nodes[n].status.Succeeded?
    ensures e.OptimizationCompleted? && AcceptsControl(w, s, e) && s.nodes[n].status.Pending?
  {
  }

  lemma SettlementIsSteered(w: Workflow, s: RunState, n: NodeId, e: Event, s': RunState)
    requires WellFormed(w) && Matches(w, s) && Matches(w, s') && n < |w.nodes| && NodeSound(w, s, n)
    requires Accepts(w, s, e) && Target(e) == Some(n) && !e.NodeOmitted?
    requires NodeAfter(w, s, e).status != s.nodes[n].status && s'.nodes[n] == NodeAfter(w, s, e)
    requires forall m | 0 <= m < |s.nodes| && m != n :: s'.nodes[m] == s.nodes[m]
    ensures NodeSteered(w, s', n)
  {
    NotLeftOut(w, s, e);
    if s'.nodes[n].status.Succeeded? && w.nodes[n].kind.Loop? {
      LoopSettlesBy(w, s, n, e);
      LoopIsSteered(w, s, s', n, e);
    } else if s'.nodes[n].status.Succeeded? && w.nodes[n].kind.Optimization? {
      OptimizationSettlesBy(w, s, n, e);
      OptimizationIsSteered(w, s, s', n, e);
    }
  }

  lemma SteeredStep(w: Workflow, s: RunState, e: Event)
    requires WellFormed(w) && Sound(w, s) && Steered(w, s) && GraphAdmits(w, s, e) && Accepts(w, s, e)
    ensures Steered(w, Effect(w, s, e))
  {
    var s' := Effect(w, s, e);
    SettledIsAbsorbing(w, s, e);
    forall n | 0 <= n < |w.nodes|
      ensures NodeSteered(w, s', n)
    {
      if Target(e) == Some(n) {
        TargetSteered(w, s, n, e, s');
      } else {
        SteeringPersists(w, s, s', n);
      }
    }
  }

  /** Every accepted history is steered. */
  lemma {:induction false} HistoryIsSteered(w: Workflow, ledger: seq<Event>)
    requires WellFormed(w) && Replayed(w, ledger).Some?
    ensures Steered(w, Replayed(w, ledger).value.state)
  {
    if |ledger| > 0 {
      var before := ledger[..|ledger| - 1];
      HistoryIsSteered(w, before);
      AcceptedHistoryIsSound(w, before);
      SteeredStep(w, Replayed(w, before).value.state, ledger[|ledger| - 1]);
    }
  }
}
