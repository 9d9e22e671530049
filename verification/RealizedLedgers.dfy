/** The converse: a run leaves behind every accepted ledger that is written. */
module RealizedLedgers {
  import opened Standard
  import opened WorkflowGraph
  import opened RunReducer
  import opened Scheduler
  import opened RecoveredHistory
  import opened RunSafety
  import opened LiveRun
  import opened LiveHistory
  import opened DriverAcceptance
  import opened WrittenLedgers

  /** Some run stands in this phase with this ledger. */
  ghost predicate Reaches(w: Workflow, ledger: seq<Event>, phase: Phase)
    requires Declared(w)
  {
    exists steps :: Ran(w, steps).Some? && Ran(w, steps).value.phase == phase && Ran(w, steps).value.ledger == ledger
  }

  function StateOf(w: Workflow, ledger: seq<Event>): RunState
    requires Declared(w) && Replayed(w, ledger).Some?
  {
    Replayed(w, ledger).value.state
  }

  /** What holds wherever a run stands. */
  lemma Reached(w: Workflow, ledger: seq<Event>, phase: Phase)
    requires WellFormed(w) && Reaches(w, ledger, phase)
    ensures Replayed(w, ledger).Some?
    ensures var s := StateOf(w, ledger);
            && Sound(w, s) && OneSortRuns(w, s) && PhaseHolds(w, phase, s) && Orderly(w, phase, s)
              && Linked(w, phase, ledger, s)
            && (s.status.Waiting? ==> !SomeStatus(s, Running))
  {
    var steps :| Ran(w, steps).Some? && Ran(w, steps).value.phase == phase && Ran(w, steps).value.ledger == ledger;
    LiveHistoryIsAccepted(w, steps);
    RunsAreOrderly(w, steps);
    RunsAreWritten(w, steps);
  }

  lemma Takes(w: Workflow, steps: seq<Step>, step: Step)
    requires Declared(w) && Ran(w, steps).Some? && Enabled(w, Ran(w, steps).value, step)
    ensures Ran(w, steps + [step]) == Some(Stepped(w, Ran(w, steps).value, step))
  {
    assert (steps + [step])[..|steps|] == steps;
  }

  lemma Records(w: Workflow, steps: seq<Step>, e: Event, next: Phase)
    requires Declared(w) && Ran(w, steps).Some?
    requires var p := Ran(w, steps).value; Proposes(w, p.phase, p.state, e, next) && Accepts(w, p.state, e)
    ensures var p := Ran(w, steps + [Record(e, next)]);
            p.Some? && p.value.phase == next && p.value.ledger == Ran(w, steps).value.ledger + [e]
  {
    Takes(w, steps, Record(e, next));
  }

  lemma MoveOn(w: Workflow, ledger: seq<Event>, phase: Phase, next: Phase)
    requires WellFormed(w) && Reaches(w, ledger, phase) && Replayed(w, ledger).Some?
    requires Proceeds(w, phase, StateOf(w, ledger), next)
    ensures Reaches(w, ledger, next)
  {
    var steps :| Ran(w, steps).Some? && Ran(w, steps).value.phase == phase && Ran(w, steps).value.ledger == ledger;
    LiveHistoryIsAccepted(w, steps);
    Takes(w, steps, Proceed(next));
    assert Ran(w, steps + [Proceed(next)]).value.phase == next;
  }

  lemma Abandon(w: Workflow, ledger: seq<Event>, phase: Phase)
    requires WellFormed(w) && Reaches(w, ledger, phase)
    ensures Reaches(w, ledger, Idle)
  {
    var steps :| Ran(w, steps).Some? && Ran(w, steps).value.phase == phase && Ran(w, steps).value.ledger == ledger;
    Takes(w, steps, Crash);
    assert Ran(w, steps + [Crash]).value.phase == Idle;
  }

  lemma Write(w: Workflow, ledger: seq<Event>, phase: Phase, e: Event, next: Phase)
    requires WellFormed(w) && Reaches(w, ledger, phase) && Replayed(w, ledger).Some?
    requires Proposes(w, phase, StateOf(w, ledger), e, next) && Accepts(w, StateOf(w, ledger), e)
    ensures Reaches(w, ledger + [e], next) && Reaches(w, ledger + [e], Idle)
  {
    var steps :| Ran(w, steps).Some? && Ran(w, steps).value.phase == phase && Ran(w, steps).value.ledger == ledger;
    LiveHistoryIsAccepted(w, steps);
    Records(w, steps, e, next);
    assert Ran(w, steps + [Record(e, next)]).value.phase == next;
    Abandon(w, ledger + [e], next);
  }

  // ---------------------------------------------------------------------
  // Where a run can stand after a ledger
  // ---------------------------------------------------------------------

  ghost predicate CanAdmit(w: Workflow, ledger: seq<Event>)
    requires Declared(w)
  {
    exists batch :: batch != [] && Reaches(w, ledger, Admit(batch))
  }

  ghost predicate CanPerform(w: Workflow, ledger: seq<Event>)
    requires Declared(w)
  {
    exists batch :: Reaches(w, ledger, Perform(batch))
  }

  ghost predicate CanSettle(w: Workflow, ledger: seq<Event>)
    requires Declared(w)
  {
    exists batch, settled: nat :: Reaches(w, ledger, Settle(batch, settled))
  }

  /** A node failed outside a batch: the run is about to fail. */
  predicate FailsRun(e: Event) {
    e.CommandApprovalDenied? || e.WorkflowApprovalDenied? || e.ControlFailed?
  }

  /** What the last record of a driven ledger allows. */
  ghost predicate Continues(w: Workflow, ledger: seq<Event>)
    requires Declared(w) && Replayed(w, ledger).Some?
  {
    var s := StateOf(w, ledger);
    if Last(ledger).None? || Last(ledger).value == RunResumed(false) then Reaches(w, ledger, Restart)
    else
      var e := Last(ledger).value;
      if e.NodeStarted? then
        (!ExceedsAny(w.limits, s.spent) ==> CanAdmit(w, ledger)) && (EndsBatch(w, s, e.node) ==> CanPerform(w, ledger))
      else if TracksEffect(e) then CanPerform(w, ledger)
      else if Reports(e) then CanSettle(w, ledger)
      else if FailsRun(e) then Reaches(w, ledger, Failing(e.node))
      else if e.OptimizationProgressed? then Reaches(w, ledger, Admit([]))
      else Reaches(w, ledger, Dispatch)
  }

  ghost predicate Stands(w: Workflow, ledger: seq<Event>)
    requires Declared(w) && Replayed(w, ledger).Some?
  {
    Reaches(w, ledger, Idle) && (Driven(ledger) ==> Continues(w, ledger))
  }

  /** A driven ledger that ends with a failure outside a batch has that node failed alone. */
  lemma FailsHere(w: Workflow, ledger: seq<Event>)
    requires WellFormed(w) && Replayed(w, ledger).Some? && Stands(w, ledger) && Driven(ledger)
    requires Last(ledger).Some? && FailsRun(Last(ledger).value)
    ensures var s, n := StateOf(w, ledger), Last(ledger).value.node;
            && Reaches(w, ledger, Failing(n)) && !SomeStatus(s, Running) && FirstWith(s, Failed) == Some(n)
            && n < |w.nodes| && !w.nodes[n].kind.Agent? && !SettlementExhausted(w.limits, s.spent)
  {
    Reached(w, ledger, Failing(Last(ledger).value.node));
  }

  /** While nodes run, the last record of a driven ledger is one of their batch's. */
  lemma RunningIsBatch(w: Workflow, ledger: seq<Event>)
    requires WellFormed(w) && Replayed(w, ledger).Some? && Stands(w, ledger) && Driven(ledger)
    requires SomeStatus(StateOf(w, ledger), Running)
    ensures Last(ledger).Some?
    ensures (Last(ledger).value.NodeStarted? || TracksEffect(Last(ledger).value) || Reports(Last(ledger).value))
  {
    if Last(ledger).None? || Last(ledger).value == RunResumed(false) {
      Reached(w, ledger, Restart);
    } else if FailsRun(Last(ledger).value) {
      FailsHere(w, ledger);
    } else if Last(ledger).value.OptimizationProgressed? {
      Reached(w, ledger, Admit([]));
    } else if !(Last(ledger).value.NodeStarted? || TracksEffect(Last(ledger).value) || Reports(Last(ledger).value)) {
      Reached(w, ledger, Dispatch);
    }
  }

  lemma BatchRuns(w: Workflow, s: RunState, batch: seq<NodeId>)
    requires RunningAre(s, batch) && Ordered(batch, |s.nodes|) && batch != []
    ensures SomeStatus(s, Running)
  {
    assert batch[0] in batch;
  }

  lemma RestRuns(s: RunState, batch: seq<NodeId>, k: nat)
    requires k <= |batch| && RunningAre(s, batch[k..]) && Ordered(batch, |s.nodes|)
    ensures k < |batch| ==> SomeStatus(s, Running)
  {
    if k < |batch| {
      assert batch[k] == batch[k..][0] && batch[k] in batch[k..];
    }
  }

  /** Once nothing runs, a full batch is settled. */
  lemma SettledBatch(w: Workflow, ledger: seq<Event>)
    requires WellFormed(w) && Replayed(w, ledger).Some? && CanSettle(w, ledger)
    requires !SomeStatus(StateOf(w, ledger), Running)
    ensures Reaches(w, ledger, Review)
  {
    var batch, k: nat :| Reaches(w, ledger, Settle(batch, k));
    Reached(w, ledger, Settle(batch, k));
    RestRuns(StateOf(w, ledger), batch, k);
    MoveOn(w, ledger, Settle(batch, k), Review);
  }

  /** A driven ledger whose last record was a start or an effect has nodes running. */
  lemma StartedRuns(w: Workflow, ledger: seq<Event>)
    requires WellFormed(w) && Replayed(w, ledger).Some? && Stands(w, ledger) && Driven(ledger)
    requires Last(ledger).Some? && (Last(ledger).value.NodeStarted? || TracksEffect(Last(ledger).value))
    ensures SomeStatus(StateOf(w, ledger), Running)
  {
    var s := StateOf(w, ledger);
    if Last(ledger).value.NodeStarted? && !ExceedsAny(w.limits, s.spent) {
      var batch :| batch != [] && Reaches(w, ledger, Admit(batch));
      Reached(w, ledger, Admit(batch));
      BatchRuns(w, s, batch);
    } else {
      var batch :| Reaches(w, ledger, Perform(batch));
      Reached(w, ledger, Perform(batch));
      BatchRuns(w, s, batch);
    }
  }

  /** With nothing running or failed, the driver is at the top of its loop, or after a
      batch that used up the budget. */
  lemma Top(w: Workflow, ledger: seq<Event>)
    requires WellFormed(w) && Replayed(w, ledger).Some? && Stands(w, ledger) && AtTop(ledger)
    requires !SomeStatus(StateOf(w, ledger), Running) && !SomeStatus(StateOf(w, ledger), Failed)
    ensures var s := StateOf(w, ledger);
            || Reaches(w, ledger, Dispatch)
            || (Reaches(w, ledger, Review) && (SettlementExhausted(w.limits, s.spent) || PendingStartExhaustion(w, s)))
  {
    var s := StateOf(w, ledger);
    if Last(ledger).None? || Last(ledger).value == RunResumed(false) {
      MoveOn(w, ledger, Restart, Dispatch);
    } else if Last(ledger).value.NodeStarted? || TracksEffect(Last(ledger).value) {
      StartedRuns(w, ledger);
    } else if Reports(Last(ledger).value) {
      SettledBatch(w, ledger);
      if !SettlementExhausted(w.limits, s.spent) && !PendingStartExhaustion(w, s) {
        MoveOn(w, ledger, Review, Dispatch);
      }
    } else if FailsRun(Last(ledger).value) {
      FailsHere(w, ledger);
    }
  }

  /** ... and within the budget it can begin a batch while a node is pending. */
  lemma Begin(w: Workflow, ledger: seq<Event>)
    requires WellFormed(w) && Replayed(w, ledger).Some? && Stands(w, ledger) && Driven(ledger)
    requires var s := StateOf(w, ledger);
             !SomeStatus(s, Running) && !SomeStatus(s, Failed) && !ExceedsAny(w.limits, s.spent)
               && SomeStatus(s, Pending)
    ensures Reaches(w, ledger, Admit([]))
  {
    var s := StateOf(w, ledger);
    if AtTop(ledger) {
      Top(w, ledger);
      assert !AllSettled(s);
      MoveOn(w, ledger, Dispatch, Admit([]));
    }
  }

  /** With a failed node and nothing running, the driver looks at the failure. */
  lemma Failure(w: Workflow, ledger: seq<Event>)
    requires WellFormed(w) && Replayed(w, ledger).Some? && Stands(w, ledger) && Driven(ledger)
    requires !SomeStatus(StateOf(w, ledger), Running) && SomeStatus(StateOf(w, ledger), Failed)
    ensures || ((Last(ledger).None? || Last(ledger).value == RunResumed(false)) && Reaches(w, ledger, Restart))
            || (Last(ledger).Some? && Reports(Last(ledger).value) && Reaches(w, ledger, Review))
            || (Last(ledger).Some? && FailsRun(Last(ledger).value)
              && Reaches(w, ledger, Failing(Last(ledger).value.node)))
  {
    if Last(ledger).None? || Last(ledger).value == RunResumed(false) {
    } else if Last(ledger).value.NodeStarted? || TracksEffect(Last(ledger).value) {
      StartedRuns(w, ledger);
    } else if Reports(Last(ledger).value) {
      SettledBatch(w, ledger);
    } else if Last(ledger).value.OptimizationProgressed? {
      Reached(w, ledger, Admit([]));
    } else if !FailsRun(Last(ledger).value) {
      Reached(w, ledger, Dispatch);
    }
  }

  // ---------------------------------------------------------------------
  // One more record
  // ---------------------------------------------------------------------

  /** The record e was accepted and fits. */
  predicate Follows(w: Workflow, ledger: seq<Event>, e: Event)
    requires Declared(w) && Replayed(w, ledger).Some?
  {
    var s := StateOf(w, ledger);
    GraphAdmits(w, s, e) && Accepts(w, s, e) && Fits(w, ledger, s, e)
  }

  lemma ToReconcile(w: Workflow, ledger: seq<Event>)
    requires WellFormed(w) && Replayed(w, ledger).Some? && Stands(w, ledger) && !StateOf(w, ledger).status.RunDone?
    ensures Reaches(w, ledger, Relocate) && Reaches(w, ledger, Reconcile)
  {
    MoveOn(w, ledger, Idle, Relocate);
    MoveOn(w, ledger, Relocate, Reconcile);
  }

  lemma ToChildren(w: Workflow, ledger: seq<Event>)
    requires WellFormed(w) && Replayed(w, ledger).Some? && Stands(w, ledger) && !StateOf(w, ledger).status.RunDone?
    requires EffectsObserved(StateOf(w, ledger)) && NoAgentRuns(w, StateOf(w, ledger), |w.nodes|)
    ensures Reaches(w, ledger, RecoverChildren(0))
  {
    ToReconcile(w, ledger);
    MoveOn(w, ledger, Reconcile, Dispose(0));
    MoveOn(w, ledger, Dispose(0), RecoverChildren(0));
  }

  /** The records of a resume. */
  lemma ResumeRecorded(w: Workflow, ledger: seq<Event>, e: Event)
    requires WellFormed(w) && Replayed(w, ledger).Some? && Stands(w, ledger) && Follows(w, ledger, e)
    requires e == RunResumed(true) || e.EffectReconciled? || e.NodeInterrupted?
    ensures Reaches(w, ledger + [e], Idle)
  {
    ToReconcile(w, ledger);
    if e.RunResumed? {
      Write(w, ledger, Relocate, e, Reconcile);
    } else if e.EffectReconciled? {
      Write(w, ledger, Reconcile, e, Reconcile);
    } else {
      MoveOn(w, ledger, Reconcile, Dispose(0));
      Write(w, ledger, Dispose(0), e, Dispose(e.node + 1));
    }
  }

  lemma MarkerRecorded(w: Workflow, ledger: seq<Event>, e: Event)
    requires WellFormed(w) && Replayed(w, ledger).Some? && Stands(w, ledger) && Follows(w, ledger, e)
    requires e == RunResumed(false)
    ensures Reaches(w, ledger + [e], Idle) && Reaches(w, ledger + [e], Restart)
  {
    var s := StateOf(w, ledger);
    assert !SomeStatus(s, Running);
    forall m: NodeId | m < |w.nodes|
      ensures !HasStatus(s, m, Running)
    {
    }
    ToChildren(w, ledger);
    MoveOn(w, ledger, RecoverChildren(0), Reopen);
    Write(w, ledger, Reopen, e, Restart);
  }

  predicate Decides(e: Event) {
    e.CommandApprovalGranted? || e.CommandApprovalDenied? || e.WorkflowApprovalApproved? || e.WorkflowApprovalDenied?
  }

  lemma DecisionRecorded(w: Workflow, ledger: seq<Event>, e: Event)
    requires WellFormed(w) && Replayed(w, ledger).Some? && Stands(w, ledger) && Follows(w, ledger, e) && Decides(e)
    ensures Reaches(w, ledger + [e], Idle) && (FailsRun(e) ==> Reaches(w, ledger + [e], Failing(e.node)))
  {
    Write(w, ledger, Idle, e, if FailsRun(e) then Failing(e.node) else Idle);
  }

  /** A batch's outcome is of its first node that still runs. */
  lemma FirstOfBatch(s: RunState, batch: seq<NodeId>, k: nat, n: NodeId)
    requires k <= |batch| && RunningAre(s, batch[k..]) && Ordered(batch, |s.nodes|) && FirstWith(s, Running) == Some(n)
    ensures k < |batch| && batch[k] == n
  {
    assert n in batch[k..];
    var i :| 0 <= i < |batch[k..]| && batch[k..][i] == n;
    assert batch[k + i] == n;
    assert batch[k..][0] == batch[k] && batch[k] in batch[k..];
    assert s.nodes[batch[k]].status.Running?;
  }

  lemma FullSettles(w: Workflow, ledger: seq<Event>)
    requires WellFormed(w) && Replayed(w, ledger).Some? && Stands(w, ledger) && Driven(ledger)
    requires SomeStatus(StateOf(w, ledger), Running) && BatchFull(w, ledger, StateOf(w, ledger))
    ensures CanSettle(w, ledger)
  {
    RunningIsBatch(w, ledger);
    if !Reports(Last(ledger).value) {
      var batch :| Reaches(w, ledger, Perform(batch));
      MoveOn(w, ledger, Perform(batch), Settle(batch, 0));
    }
  }

  lemma ReportProposed(w: Workflow, s: RunState, batch: seq<NodeId>, k: nat, e: Event)
    requires Declared(w) && Matches(w, s) && Accepts(w, s, e) && Reports(e) && PhaseHolds(w, Settle(batch, k), s)
    ensures Proposes(w, Settle(batch, k), s, e, Settle(batch, k + 1))
  {
    FirstOfBatch(s, batch, k, e.node);
  }

  lemma ReportSettles(w: Workflow, ledger: seq<Event>, e: Event)
    requires WellFormed(w) && Replayed(w, ledger).Some? && Accepts(w, StateOf(w, ledger), e) && Reports(e)
    requires CanSettle(w, ledger)
    ensures Reaches(w, ledger + [e], Idle) && CanSettle(w, ledger + [e])
  {
    var batch, k: nat :| Reaches(w, ledger, Settle(batch, k));
    Reached(w, ledger, Settle(batch, k));
    ReportProposed(w, StateOf(w, ledger), batch, k, e);
    Write(w, ledger, Settle(batch, k), e, Settle(batch, k + 1));
  }

  /** A child recovered in a driven ledger ends a batch, since a child may. */
  lemma RecoveredIsFull(w: Workflow, ledger: seq<Event>, n: NodeId)
    requires WellFormed(w) && Replayed(w, ledger).Some? && Stands(w, ledger) && Driven(ledger)
    requires RunningChild(w, StateOf(w, ledger), n)
    ensures BatchFull(w, ledger, StateOf(w, ledger))
  {
    var s := StateOf(w, ledger);
    Reached(w, ledger, Idle);
    if Last(ledger).Some? && Last(ledger).value.NodeStarted? && !ExceedsAny(w.limits, s.spent) {
      var batch :| batch != [] && Reaches(w, ledger, Admit(batch));
      Reached(w, ledger, Admit(batch));
      assert batch[|batch| - 1] in batch;
      assert s.nodes[batch[|batch| - 1]].status.Running?;
    }
  }

  lemma ReportRecorded(w: Workflow, ledger: seq<Event>, e: Event)
    requires WellFormed(w) && Replayed(w, ledger).Some? && Stands(w, ledger) && Follows(w, ledger, e) && Reports(e)
    ensures Reaches(w, ledger + [e], Idle) && (Driven(ledger) ==> CanSettle(w, ledger + [e]))
  {
    var s := StateOf(w, ledger);
    if Driven(ledger) {
      if !BatchFull(w, ledger, s) {
        RecoveredIsFull(w, ledger, e.node);
      }
      FullSettles(w, ledger);
      ReportSettles(w, ledger, e);
    } else {
      ToChildren(w, ledger);
      Write(w, ledger, RecoverChildren(0), e, RecoverChildren(e.node + 1));
    }
  }

  lemma EffectProposed(w: Workflow, s: RunState, batch: seq<NodeId>, e: Event)
    requires Declared(w) && Matches(w, s) && Accepts(w, s, e) && TracksEffect(e) && RunningAre(s, batch)
    ensures Proposes(w, Perform(batch), s, e, Perform(batch))
  {
    assert s.nodes[e.node].status.Running?;
  }

  lemma EffectRecorded(w: Workflow, ledger: seq<Event>, e: Event)
    requires WellFormed(w) && Replayed(w, ledger).Some? && Stands(w, ledger) && Follows(w, ledger, e) && TracksEffect(e)
    ensures Reaches(w, ledger + [e], Idle) && CanPerform(w, ledger + [e])
  {
    var s := StateOf(w, ledger);
    assert HasStatus(s, e.node, Running);
    RunningIsBatch(w, ledger);
    var batch :| Reaches(w, ledger, Perform(batch));
    Reached(w, ledger, Perform(batch));
    EffectProposed(w, s, batch, e);
    Write(w, ledger, Perform(batch), e, Perform(batch));
  }

  // ---------------------------------------------------------------------
  // Records of the loop
  // ---------------------------------------------------------------------

  lemma UnsettledIsPending(s: RunState)
    requires !SomeStatus(s, Running) && !SomeStatus(s, Failed)
    ensures !AllSettled(s) ==> SomeStatus(s, Pending)
  {
    if n :| 0 <= n < |s.nodes| && !Settled(s.nodes[n]) {
      assert s.nodes[n].status.Pending?;
    }
  }

  lemma CancellationProposed(w: Workflow, s: RunState, phase: Phase)
    requires Declared(w) && Matches(w, s) && Accepts(w, s, RunCancelled)
    requires phase == Review || (phase == Dispatch && !SomeStatus(s, Failed))
    ensures Proposes(w, phase, s, RunCancelled, Idle)
  {
    if phase.Dispatch? {
      UnsettledIsPending(s);
    }
  }

  lemma CancellationRecorded(w: Workflow, ledger: seq<Event>)
    requires WellFormed(w) && Replayed(w, ledger).Some? && Stands(w, ledger) && Follows(w, ledger, RunCancelled)
    ensures Reaches(w, ledger + [RunCancelled], Idle)
  {
    var s := StateOf(w, ledger);
    var phase := Review;
    if SomeStatus(s, Failed) {
      Failure(w, ledger);
    } else {
      Top(w, ledger);
      phase := Dispatch;
    }
    CancellationProposed(w, s, phase);
    Write(w, ledger, phase, RunCancelled, Idle);
  }

  lemma ExhaustionProposed(w: Workflow, s: RunState, phase: Phase)
    requires Declared(w) && Matches(w, s) && Accepts(w, s, RunExhausted)
    requires (AllSettled(s) ==> SettlementExhausted(w.limits, s.spent))
    requires || (phase == Restart && SomeStatus(s, Failed)) || (phase == Dispatch && !SomeStatus(s, Failed))
             || (phase == Review && (SettlementExhausted(w.limits, s.spent) || PendingStartExhaustion(w, s)))
    ensures Proposes(w, phase, s, RunExhausted, Idle)
  {
  }

  lemma ExhaustionRecorded(w: Workflow, ledger: seq<Event>)
    requires WellFormed(w) && Replayed(w, ledger).Some? && Stands(w, ledger) && Follows(w, ledger, RunExhausted)
    ensures Reaches(w, ledger + [RunExhausted], Idle)
  {
    var s := StateOf(w, ledger);
    var phase := Dispatch;
    if SomeStatus(s, Failed) {
      Failure(w, ledger);
      if Last(ledger).None? || Last(ledger).value == RunResumed(false) {
        phase := Restart;
      } else if Reports(Last(ledger).value) {
        phase := Review;
      } else {
        FailsHere(w, ledger);
      }
    } else {
      Top(w, ledger);
      if !Reaches(w, ledger, Dispatch) {
        phase := Review;
      }
    }
    ExhaustionProposed(w, s, phase);
    Write(w, ledger, phase, RunExhausted, Idle);
  }

  lemma SuccessRecorded(w: Workflow, ledger: seq<Event>)
    requires WellFormed(w) && Replayed(w, ledger).Some? && Stands(w, ledger) && Follows(w, ledger, RunSucceeded)
    ensures Reaches(w, ledger + [RunSucceeded], Idle)
  {
    Top(w, ledger);
    Write(w, ledger, Dispatch, RunSucceeded, Idle);
  }

  lemma FailureProposed(w: Workflow, s: RunState, e: Event, phase: Phase)
    requires Declared(w) && Matches(w, s) && Accepts(w, s, e) && (e.RunFailed? || e.NodeRetryScheduled?)
    requires e.NodeRetryScheduled? ==> WithStatus(s, Failed) == {e.node}
    requires phase == Restart || phase == Review
    ensures Proposes(w, phase, s, e, if e.RunFailed? then Idle else Dispatch)
  {
    if e.NodeRetryScheduled? {
      AloneIsFirst(s, e.node);
    }
  }

  /** The run fails, or its one failed attempt is retried. */
  lemma FailureRecorded(w: Workflow, ledger: seq<Event>, e: Event)
    requires WellFormed(w) && Replayed(w, ledger).Some? && Stands(w, ledger) && Follows(w, ledger, e)
    requires e.RunFailed? || e.NodeRetryScheduled?
    ensures Reaches(w, ledger + [e], Idle) && (e.NodeRetryScheduled? ==> Reaches(w, ledger + [e], Dispatch))
  {
    var s := StateOf(w, ledger);
    assert HasStatus(s, e.node, Failed);
    Failure(w, ledger);
    if Last(ledger).Some? && FailsRun(Last(ledger).value) {
      FailureAtOnce(w, ledger, e);
    } else {
      var phase := if Last(ledger).Some? && Reports(Last(ledger).value) then Review else Restart;
      FailureProposed(w, s, e, phase);
      Write(w, ledger, phase, e, if e.RunFailed? then Idle else Dispatch);
    }
  }

  /** What failed outside a batch is not an agent's attempt, so it is not retried. */
  lemma FailureAtOnce(w: Workflow, ledger: seq<Event>, e: Event)
    requires WellFormed(w) && Replayed(w, ledger).Some? && Stands(w, ledger) && Follows(w, ledger, e) && Driven(ledger)
    requires e.RunFailed? || e.NodeRetryScheduled?
    requires Last(ledger).Some? && FailsRun(Last(ledger).value)
    ensures Reaches(w, ledger + [e], Idle) && e.RunFailed?
  {
    FailsHere(w, ledger);
    if e.NodeRetryScheduled? {
      AloneIsFirst(StateOf(w, ledger), e.node);
    } else {
      Write(w, ledger, Failing(e.node), e, Idle);
    }
  }

  lemma AloneIsFirst(s: RunState, n: NodeId)
    requires WithStatus(s, Failed) == {n}
    ensures FirstWith(s, Failed) == Some(n)
  {
    var first := FirstWith(s, Failed);
    assert n in WithStatus(s, Failed);
    assert first.Some? ==> first.value in WithStatus(s, Failed);
  }

  /** Where the driver goes after a control record. */
  function AfterControl(e: Event): Phase
    requires ControlRecord(e)
  {
    if e.WorkflowApprovalRequested? then Idle else if e.ControlFailed? then Failing(e.node)
    else if e.OptimizationProgressed? then Admit([]) else Dispatch
  }

  lemma ControlTarget(w: Workflow, s: RunState, e: Event)
    requires Declared(w) && Matches(w, s) && ControlRecord(e) && GraphAdmits(w, s, e)
    ensures SelectNext(w, s).Some? && SelectNext(w, s).value.node == e.node && !SelectNext(w, s).value.Execute?
    ensures e.OptimizationProgressed? ==> SelectNext(w, s).value.EvaluateOptimization?
  {
  }

  lemma ControlProposed(w: Workflow, s: RunState, e: Event)
    requires Declared(w) && Matches(w, s) && w.maxNodes > 0 && ControlRecord(e) && GraphAdmits(w, s, e)
    requires e.node < |w.nodes|
    requires ScheduledControl(w, s, e)
    ensures Proposes(w, Admit([]), s, e, AfterControl(e))
  {
    var t := SelectNext(w, s).value;
    ControlTarget(w, s, e);
    if !t.EvaluateOptimization? {
      assert !e.OptimizationProgressed?;
      assert ProposesControl(w, s, t, e, AfterControl(e));
    }
  }

  lemma ControlIsQuiet(w: Workflow, s: RunState, e: Event)
    requires Declared(w) && Matches(w, s) && Accepts(w, s, e) && ControlRecord(e)
    ensures HasStatus(s, e.node, Pending) && !SomeStatus(s, Running) && !SomeStatus(s, Failed)
  {
  }

  lemma ControlRecorded(w: Workflow, ledger: seq<Event>, e: Event)
    requires WellFormed(w) && Replayed(w, ledger).Some? && Stands(w, ledger) && Follows(w, ledger, e)
    requires ControlRecord(e)
    ensures Reaches(w, ledger + [e], Idle) && Reaches(w, ledger + [e], AfterControl(e))
  {
    var s := StateOf(w, ledger);
    ControlIsQuiet(w, s, e);
    Begin(w, ledger);
    ControlProposed(w, s, e);
    Write(w, ledger, Admit([]), e, AfterControl(e));
  }

  lemma ApprovalProposed(w: Workflow, s: RunState, e: Event)
    requires Declared(w) && Sound(w, s) && w.maxNodes > 0 && GraphAdmits(w, s, e) && Accepts(w, s, e)
    requires AskerIsNext(w, s)
    requires e.CommandApprovalRequested? || e.CommandApprovalExpired?
    ensures !SomeStatus(s, Running) && !SomeStatus(s, Failed) && HasStatus(s, e.node, Pending)
    ensures Proposes(w, Admit([]), s, e, if e.CommandApprovalRequested? then Idle else Dispatch)
  {
    assert NodeSound(w, s, e.node);
    if e.CommandApprovalExpired? {
      assert Asks(s.nodes[e.node]);
      assert SelectNext(w, s) == Some(Asked(s, e.node));
    }
  }

  lemma ApprovalRecorded(w: Workflow, ledger: seq<Event>, e: Event)
    requires WellFormed(w) && Replayed(w, ledger).Some? && Stands(w, ledger) && Follows(w, ledger, e)
    requires e.CommandApprovalRequested? || e.CommandApprovalExpired?
    ensures Reaches(w, ledger + [e], Idle) && (e.CommandApprovalExpired? ==> Reaches(w, ledger + [e], Dispatch))
  {
    var s := StateOf(w, ledger);
    Reached(w, ledger, Idle);
    ApprovalProposed(w, s, e);
    Begin(w, ledger);
    Write(w, ledger, Admit([]), e, if e.CommandApprovalRequested? then Idle else Dispatch);
  }

  // ---------------------------------------------------------------------
  // Starts
  // ---------------------------------------------------------------------

  lemma StartIsQuiet(w: Workflow, s: RunState, e: Event)
    requires Declared(w) && Matches(w, s) && Accepts(w, s, e) && e.NodeStarted?
    ensures HasStatus(s, e.node, Pending) && !SomeStatus(s, Failed) && !ExceedsAny(w.limits, s.spent)
    ensures |WithStatus(s, Running)| < w.maxNodes
  {
  }

  lemma JoinsItsSort(w: Workflow, s: RunState, batch: seq<NodeId>, e: Event)
    requires Declared(w) && Matches(w, s) && Accepts(w, s, e) && e.NodeStarted? && batch != []
    requires PhaseHolds(w, Admit(batch), s) && OneSortRuns(w, s) && SameKindOfNode(w, batch[|batch| - 1], e.node)
    ensures SameSort(w, batch, e.node) && |batch| < w.maxNodes
  {
    StartIsQuiet(w, s, e);
    assert batch[0] in batch && batch[|batch| - 1] in batch;
    assert s.nodes[batch[0]].status.Running? && s.nodes[batch[|batch| - 1]].status.Running?;
    BatchSize(s, batch);
  }

  /** The batch that the next start joins. */
  lemma BatchToJoin(w: Workflow, ledger: seq<Event>, e: Event) returns (batch: seq<NodeId>)
    requires WellFormed(w) && Replayed(w, ledger).Some? && Stands(w, ledger) && Follows(w, ledger, e) && e.NodeStarted?
    ensures Reaches(w, ledger, Admit(batch)) && SameSort(w, batch, e.node) && |batch| < w.maxNodes
  {
    var s := StateOf(w, ledger);
    if SomeStatus(s, Running) {
      batch :| batch != [] && Reaches(w, ledger, Admit(batch));
      Reached(w, ledger, Admit(batch));
      JoinsItsSort(w, s, batch, e);
    } else {
      StartIsQuiet(w, s, e);
      Begin(w, ledger);
      batch := [];
    }
  }

  lemma StartProposed(w: Workflow, s: RunState, batch: seq<NodeId>, e: Event, next: Phase)
    requires Declared(w) && Matches(w, s) && GraphAdmits(w, s, e) && Accepts(w, s, e) && e.NodeStarted?
    requires SameSort(w, batch, e.node) && |batch| < w.maxNodes
    requires if ExceedsAny(w.limits, SpentAfter(s.spent, e)) then next == Perform(batch + [e.node])
             else next == Admit(batch + [e.node]) || (w.nodes[e.node].kind.Child? && next == Perform(batch + [e.node]))
    ensures Proposes(w, Admit(batch), s, e, next)
  {
    assert ProposesExecution(w, s, batch, e.node, e, next);
  }

  /** A batch that may end here stops being filled. */
  lemma FullStops(w: Workflow, s: RunState, batch: seq<NodeId>, n: NodeId)
    requires Declared(w) && Matches(w, s) && PhaseHolds(w, Admit(batch), s) && OneSortRuns(w, s)
    requires |batch| > 0 && batch[|batch| - 1] == n && EndsBatch(w, s, n)
    requires !ExceedsAny(w.limits, s.spent) && n < |w.nodes| && !w.nodes[n].kind.Child?
    ensures AdmissionStops(w, s, batch)
  {
    BatchSize(s, batch);
    assert batch[0] in batch && n in batch;
    assert s.nodes[batch[0]].status.Running? && s.nodes[n].status.Running?;
  }

  lemma StartPerforms(w: Workflow, ledger: seq<Event>, e: Event, batch: seq<NodeId>)
    requires WellFormed(w) && Replayed(w, ledger).Some? && Follows(w, ledger, e) && e.NodeStarted?
    requires Reaches(w, ledger, Admit(batch)) && SameSort(w, batch, e.node) && |batch| < w.maxNodes
    requires Replayed(w, ledger + [e]).Some? && EndsBatch(w, StateOf(w, ledger + [e]), e.node)
    requires StateOf(w, ledger + [e]) == Effect(w, StateOf(w, ledger), e)
    ensures CanPerform(w, ledger + [e])
  {
    var s, s' := StateOf(w, ledger), StateOf(w, ledger + [e]);
    var longer := batch + [e.node];
    if ExceedsAny(w.limits, s'.spent) || w.nodes[e.node].kind.Child? {
      StartProposed(w, s, batch, e, Perform(longer));
      Write(w, ledger, Admit(batch), e, Perform(longer));
    } else {
      StartProposed(w, s, batch, e, Admit(longer));
      Write(w, ledger, Admit(batch), e, Admit(longer));
      Reached(w, ledger + [e], Admit(longer));
      FullStops(w, s', longer, e.node);
      MoveOn(w, ledger + [e], Admit(longer), Perform(longer));
    }
  }

  lemma StartRecorded(w: Workflow, ledger: seq<Event>, e: Event)
    requires WellFormed(w) && Replayed(w, ledger).Some? && Stands(w, ledger) && Follows(w, ledger, e) && e.NodeStarted?
    requires Replayed(w, ledger + [e]).Some? && StateOf(w, ledger + [e]) == Effect(w, StateOf(w, ledger), e)
    ensures Reaches(w, ledger + [e], Idle)
    ensures !ExceedsAny(w.limits, StateOf(w, ledger + [e]).spent) ==> CanAdmit(w, ledger + [e])
    ensures EndsBatch(w, StateOf(w, ledger + [e]), e.node) ==> CanPerform(w, ledger + [e])
  {
    var s, s' := StateOf(w, ledger), StateOf(w, ledger + [e]);
    var batch := BatchToJoin(w, ledger, e);
    var next := if ExceedsAny(w.limits, s'.spent) then Perform(batch + [e.node]) else Admit(batch + [e.node]);
    StartProposed(w, s, batch, e, next);
    Write(w, ledger, Admit(batch), e, next);
    if EndsBatch(w, s', e.node) {
      StartPerforms(w, ledger, e, batch);
    }
  }

  // ---------------------------------------------------------------------
  // Whole ledgers
  // ---------------------------------------------------------------------

  lemma EndRecorded(w: Workflow, ledger: seq<Event>, e: Event)
    requires WellFormed(w) && Replayed(w, ledger).Some? && Stands(w, ledger) && Follows(w, ledger, e) && EndsRun(e)
    ensures Reaches(w, ledger + [e], Idle)
  {
    if e.RunSucceeded? {
      SuccessRecorded(w, ledger);
    } else if e.RunCancelled? {
      CancellationRecorded(w, ledger);
    } else if e.RunExhausted? {
      ExhaustionRecorded(w, ledger);
    } else {
      FailureRecorded(w, ledger, e);
    }
  }

  lemma PartedStands(w: Workflow, ledger: seq<Event>, e: Event)
    requires Declared(w) && Replayed(w, ledger + [e]).Some? && Parts(e) && Reaches(w, ledger + [e], Idle)
    ensures Stands(w, ledger + [e])
  {
    Appended(ledger, e);
  }

  lemma TopStands(w: Workflow, ledger: seq<Event>, e: Event)
    requires Declared(w) && Replayed(w, ledger + [e]).Some? && Reaches(w, ledger + [e], Idle)
    requires Reaches(w, ledger + [e], Dispatch)
    requires e.NodeRetryScheduled? || e.CommandApprovalExpired? || ControlRecord(e)
    requires !FailsRun(e) && !e.OptimizationProgressed?
    ensures Stands(w, ledger + [e])
  {
    Appended(ledger, e);
  }

  lemma ControlStands(w: Workflow, ledger: seq<Event>, e: Event)
    requires Declared(w) && Replayed(w, ledger + [e]).Some? && ControlRecord(e)
    requires Reaches(w, ledger + [e], Idle) && Reaches(w, ledger + [e], AfterControl(e))
    ensures Stands(w, ledger + [e])
  {
    Appended(ledger, e);
  }

  lemma LoopRecorded(w: Workflow, ledger: seq<Event>, e: Event)
    requires WellFormed(w) && Replayed(w, ledger).Some? && Stands(w, ledger) && Follows(w, ledger, e)
    requires EndsRun(e) || e.NodeRetryScheduled? || e.CommandApprovalRequested? || e.CommandApprovalExpired?
             || ControlRecord(e)
    requires Replayed(w, ledger + [e]).Some?
    ensures Stands(w, ledger + [e])
  {
    if EndsRun(e) {
      EndRecorded(w, ledger, e);
      PartedStands(w, ledger, e);
    } else if ControlRecord(e) {
      ControlRecorded(w, ledger, e);
      ControlStands(w, ledger, e);
    } else {
      if e.NodeRetryScheduled? {
        FailureRecorded(w, ledger, e);
      } else {
        ApprovalRecorded(w, ledger, e);
      }
      if e.CommandApprovalRequested? {
        PartedStands(w, ledger, e);
      } else {
        TopStands(w, ledger, e);
      }
    }
  }

  lemma BatchRecorded(w: Workflow, ledger: seq<Event>, e: Event)
    requires WellFormed(w) && Replayed(w, ledger).Some? && Stands(w, ledger) && Follows(w, ledger, e)
    requires e.NodeStarted? || TracksEffect(e) || Reports(e)
    requires Replayed(w, ledger + [e]).Some? && StateOf(w, ledger + [e]) == Effect(w, StateOf(w, ledger), e)
    ensures Stands(w, ledger + [e])
  {
    Appended(ledger, e);
    if e.NodeStarted? {
      StartRecorded(w, ledger, e);
    } else if TracksEffect(e) {
      EffectRecorded(w, ledger, e);
    } else {
      ReportRecorded(w, ledger, e);
    }
  }

  lemma OtherRecorded(w: Workflow, ledger: seq<Event>, e: Event)
    requires WellFormed(w) && Replayed(w, ledger).Some? && Stands(w, ledger) && Follows(w, ledger, e)
    requires e.RunResumed? || e.EffectReconciled? || e.NodeInterrupted? || Decides(e)
    requires Replayed(w, ledger + [e]).Some?
    ensures Stands(w, ledger + [e])
  {
    Appended(ledger, e);
    if Decides(e) {
      DecisionRecorded(w, ledger, e);
    } else if e == RunResumed(false) {
      MarkerRecorded(w, ledger, e);
    } else {
      ResumeRecorded(w, ledger, e);
    }
  }

  lemma LastFollows(w: Workflow, ledger: seq<Event>)
    requires WellFormed(w) && |ledger| > 0 && Replayed(w, ledger).Some? && Written(w, ledger)
    ensures var before, e := ledger[..|ledger| - 1], ledger[|ledger| - 1];
            && Replayed(w, before).Some? && Written(w, before) && Follows(w, before, e)
            && StateOf(w, ledger) == Effect(w, StateOf(w, before), e)
  {
  }

  lemma Recorded(w: Workflow, ledger: seq<Event>, e: Event)
    requires WellFormed(w) && Replayed(w, ledger).Some? && Stands(w, ledger) && Follows(w, ledger, e)
    requires Replayed(w, ledger + [e]).Some? && StateOf(w, ledger + [e]) == Effect(w, StateOf(w, ledger), e)
    ensures Stands(w, ledger + [e])
  {
    if e.NodeStarted? || TracksEffect(e) || Reports(e) {
      BatchRecorded(w, ledger, e);
    } else if e.RunResumed? || e.EffectReconciled? || e.NodeInterrupted? || Decides(e) {
      OtherRecorded(w, ledger, e);
    } else {
      LoopRecorded(w, ledger, e);
    }
  }

  lemma EmptyStands(w: Workflow)
    requires WellFormed(w)
    ensures Replayed(w, []).Some? && Stands(w, [])
  {
    assert Ran(w, []).value.phase == Restart && Ran(w, []).value.ledger == [];
    assert Reaches(w, [], Restart);
    Abandon(w, [], Restart);
  }

  lemma LastRecorded(w: Workflow, ledger: seq<Event>)
    requires WellFormed(w) && |ledger| > 0 && Replayed(w, ledger).Some? && Written(w, ledger)
    requires Replayed(w, ledger[..|ledger| - 1]).Some? && Stands(w, ledger[..|ledger| - 1])
    ensures Stands(w, ledger)
  {
    LastFollows(w, ledger);
    assert ledger[..|ledger| - 1] + [ledger[|ledger| - 1]] == ledger;
    Recorded(w, ledger[..|ledger| - 1], ledger[|ledger| - 1]);
  }

  lemma {:induction false} WrittenIsRealized(w: Workflow, ledger: seq<Event>)
    requires WellFormed(w) && Replayed(w, ledger).Some? && Written(w, ledger)
    ensures Stands(w, ledger)
    decreases |ledger|
  {
    if |ledger| == 0 {
      EmptyStands(w);
    } else {
      LastFollows(w, ledger);
      WrittenIsRealized(w, ledger[..|ledger| - 1]);
      LastRecorded(w, ledger);
    }
  }

  /** Exactly which ledgers runs leave behind: those the recovery check accepts and in
      which every record fits the records before it. */
  lemma LedgersLeftExactly(w: Workflow, ledger: seq<Event>)
    requires WellFormed(w)
    ensures (exists steps :: Ran(w, steps).Some? && Ran(w, steps).value.ledger == ledger)
       <==> Replayed(w, ledger).Some? && Written(w, ledger)
  {
    if steps :| Ran(w, steps).Some? && Ran(w, steps).value.ledger == ledger {
      LiveHistoryIsAccepted(w, steps);
      RunsAreWritten(w, steps);
    }
    if Replayed(w, ledger).Some? && Written(w, ledger) {
      WrittenIsRealized(w, ledger);
    }
  }
}
