/** Which accepted ledgers a run of the driver leaves behind: a condition on each
    record, the records before it and the state they lead to. */
module WrittenLedgers {
  import opened Standard
  import opened WorkflowGraph
  import opened RunReducer
  import opened Scheduler
  import opened RecoveredHistory
  import opened RunSafety
  import opened LiveRun
  import opened LiveHistory
  import opened DriverAcceptance

  function Last(ledger: seq<Event>): Option<Event> {
    if |ledger| == 0 then None else Some(ledger[|ledger| - 1])
  }

  predicate Reports(e: Event) {
    e.NodeSucceeded? || e.NodeFailed?
  }

  predicate TracksEffect(e: Event) {
    e.EffectPrepared? || e.EffectSettled?
  }

  /** The records after which no process drives the run: it ended, it waits for a
      decision or was just given one, or a resume has begun and not finished. */
  predicate Parts(e: Event) {
    || EndsRun(e) || e == RunResumed(true) || e.EffectReconciled? || e.NodeInterrupted?
    || e.CommandApprovalRequested? || e.WorkflowApprovalRequested? || e.CommandApprovalGranted?
      || e.WorkflowApprovalApproved?
  }

  /** After these records a process may be driving the run. */
  predicate Driven(ledger: seq<Event>) {
    if |ledger| == 0 then true
    else
      var e := ledger[|ledger| - 1];
      if Reports(e) then Driven(ledger[..|ledger| - 1]) else !Parts(e)
  }

  /** ... and may be at the top of its loop, if nothing runs. */
  predicate AtTop(ledger: seq<Event>) {
    Driven(ledger) && !(Last(ledger).Some? && Last(ledger).value.OptimizationProgressed?)
  }

  predicate SameKindOfNode(w: Workflow, m: NodeId, n: NodeId) {
    m < |w.nodes| && n < |w.nodes| ==> (w.nodes[m].kind.Child? <==> w.nodes[n].kind.Child?)
  }

  /** A batch may end with this start: it is a child, which may fail its preflight, or the
      budget or the width is used up, or the next choice may not join the batch. */
  predicate EndsBatch(w: Workflow, s: RunState, n: NodeId)
    requires Declared(w) && Matches(w, s)
  {
    || (n < |w.nodes| && w.nodes[n].kind.Child?)
    || ExceedsAny(w.limits, s.spent)
    || |WithStatus(s, Running)| >= w.maxNodes
    || (match SelectNext(w, s)
        case Some(Execute(m)) => !SameKindOfNode(w, n, m) || w.nodes[m].kind == Command(true)
        case _ => true)
  }

  /** The batch is full: it executes, or settles. */
  predicate BatchFull(w: Workflow, ledger: seq<Event>, s: RunState)
    requires Declared(w) && Matches(w, s)
  {
    Last(ledger).Some? && Last(ledger).value.NodeStarted? ==> EndsBatch(w, s, Last(ledger).value.node)
  }

  predicate NoAgentRuns(w: Workflow, s: RunState, below: nat) {
    forall m: NodeId | m < below && m < |w.nodes| :: !RunningAgent(w, s, m)
  }

  /** The record of a control transition is the one the scheduler makes. */
  predicate ScheduledControl(w: Workflow, s: RunState, e: Event)
    requires Declared(w) && Matches(w, s)
  {
    && SelectNext(w, s).Some?
    && (if SelectNext(w, s).value.EvaluateOptimization? then e.OptimizationProgressed? || e.OptimizationChecked?
      || e.ControlFailed?
        else
          && !(SelectNext(w, s).value.RequestApproval? && s.nodes[SelectNext(w, s).value.node].awaiting)
          && ControlEvent(w, s, SelectNext(w, s).value) == Some(e))
  }

  /** What the driver adds to the recovery check, for a record e after these records. */
  predicate Fits(w: Workflow, before: seq<Event>, s: RunState, e: Event)
    requires Declared(w) && Matches(w, s)
  {
    match e
    // The batch is filled by starts alone, all of one sort.
    case NodeStarted(n, _) =>
      && Driven(before)
      && (SomeStatus(s, Running) ==>
            Last(before).Some? && Last(before).value.NodeStarted? && SameKindOfNode(w, Last(before).value.node, n))
    // Effects belong to a full batch none of whose outcomes is recorded.
    case EffectPrepared(_) => Driven(before) && BatchFull(w, before, s)
      && !(Last(before).Some? && Reports(Last(before).value))
    case EffectSettled(_, _, _) => Driven(before) && BatchFull(w, before, s)
      && !(Last(before).Some? && Reports(Last(before).value))
    // Outcomes are those of a full batch, or of a child recovered after the agents.
    case NodeSucceeded(n, _, _, _) => ReportFits(w, before, s, n)
    case NodeFailed(n, _, _, _) => ReportFits(w, before, s, n)
    // Agents are interrupted in order, once every open effect was observed.
    case NodeInterrupted(n, _) => EffectsObserved(s) && NoAgentRuns(w, s, n)
    // A failed attempt is retried when it failed alone and the batch is settled.
    case NodeRetryScheduled(n, _) => Driven(before) && !SomeStatus(s, Running) && WithStatus(s, Failed) == {n}
    // Control records are the scheduler's own, within the budget.
    case CommandApprovalRequested(_, _) => Driven(before)
    case CommandApprovalExpired(_) => Driven(before) && !ExceedsAny(w.limits, s.spent)
    // The run ends where the loop looks.
    case RunSucceeded => AtTop(before)
    case RunFailed(_) => Driven(before)
    case RunCancelled => AtTop(before) && (SomeStatus(s, Failed) ==> Last(before).Some? && Reports(Last(before).value))
    case RunExhausted => AtTop(before) && (AllSettled(s) ==> SettlementExhausted(w.limits, s.spent))
    case _ => ControlRecord(e) ==> Driven(before) && !ExceedsAny(w.limits, s.spent) && ScheduledControl(w, s, e)
  }

  predicate ReportFits(w: Workflow, before: seq<Event>, s: RunState, n: NodeId)
    requires Declared(w) && Matches(w, s)
  {
    || (Driven(before) && BatchFull(w, before, s))
    || (n < |w.nodes| && w.nodes[n].kind.Child? && EffectsObserved(s) && NoAgentRuns(w, s, |w.nodes|))
  }

  /** Every record of an accepted ledger fits what comes before it. */
  predicate Written(w: Workflow, ledger: seq<Event>)
    requires Declared(w)
  {
    |ledger| == 0 ||
    (var before, e := ledger[..|ledger| - 1], ledger[|ledger| - 1];
     && Written(w, before) && Replayed(w, before).Some?
     && Fits(w, before, Replayed(w, before).value.state, e))
  }

  lemma Appended(ledger: seq<Event>, e: Event)
    ensures Last(ledger + [e]) == Some(e)
    ensures Driven(ledger + [e]) == if Reports(e) then Driven(ledger) else !Parts(e)
  {
    assert (ledger + [e])[..|ledger|] == ledger;
  }

  lemma WrittenAppends(w: Workflow, ledger: seq<Event>, e: Event)
    requires Declared(w) && Replayed(w, ledger).Some?
    ensures Written(w, ledger + [e]) <==> Written(w, ledger) && Fits(w, ledger, Replayed(w, ledger).value.state, e)
  {
    assert (ledger + [e])[..|ledger|] == ledger;
  }

  // ---------------------------------------------------------------------
  // What a run leaves is written
  // ---------------------------------------------------------------------

  /** What the last records tell in each phase. */
  predicate Linked(w: Workflow, phase: Phase, ledger: seq<Event>, s: RunState)
    requires Declared(w) && Matches(w, s)
  {
    match phase
    case Dispose(k) => NoAgentRuns(w, s, k)
    case RecoverChildren(_) => NoAgentRuns(w, s, |w.nodes|)
    case Restart => AtTop(ledger)
    case Dispatch => AtTop(ledger)
    case Admit(batch) => Driven(ledger) && (batch != [] ==> StartedLast(ledger, batch))
    case Perform(batch) =>
      && Driven(ledger) && BatchFull(w, ledger, s) && batch != []
      && (StartedLast(ledger, batch) || (Last(ledger).Some? && TracksEffect(Last(ledger).value)))
    case Settle(batch, k) =>
      && Driven(ledger) && BatchFull(w, ledger, s) && batch != []
      && (k > 0 ==> Last(ledger).Some? && Reports(Last(ledger).value))
    case Review => Driven(ledger) && Last(ledger).Some? && Reports(Last(ledger).value)
    case Failing(_) => Driven(ledger)
    case _ => true
  }

  predicate StartedLast(ledger: seq<Event>, batch: seq<NodeId>) {
    |batch| > 0 && Last(ledger).Some? && Last(ledger).value.NodeStarted?
      && Last(ledger).value.node == batch[|batch| - 1]
  }

  lemma FailureFits(w: Workflow, phase: Phase, ledger: seq<Event>, s: RunState, e: Event, next: Phase)
    requires Declared(w) && Matches(w, s) && ProposesForFailure(w, s, e, next) && Driven(ledger)
    requires !SomeStatus(s, Running)
    ensures Fits(w, ledger, s, e)
  {
  }

  lemma EndFits(w: Workflow, phase: Phase, ledger: seq<Event>, s: RunState, e: Event, next: Phase)
    requires Declared(w) && Matches(w, s) && PhaseHolds(w, phase, s) && Prepared(w, phase, s)
    requires Linked(w, phase, ledger, s)
    requires phase.Restart? || phase.Dispatch? || phase.Review? || phase.Failing?
    requires Proposes(w, phase, s, e, next)
    ensures Fits(w, ledger, s, e)
  {
    if (phase.Restart? || phase.Review?) && ProposesForFailure(w, s, e, next) {
      FailureFits(w, phase, ledger, s, e, next);
    }
  }

  lemma ResumeFits(w: Workflow, phase: Phase, ledger: seq<Event>, s: RunState, e: Event, next: Phase)
    requires Declared(w) && Matches(w, s) && PhaseHolds(w, phase, s) && Linked(w, phase, ledger, s)
    requires Resuming(phase) && Proposes(w, phase, s, e, next)
    ensures Fits(w, ledger, s, e)
  {
  }

  lemma BatchFits(w: Workflow, phase: Phase, ledger: seq<Event>, s: RunState, e: Event, next: Phase)
    requires Declared(w) && Matches(w, s) && Linked(w, phase, ledger, s)
    requires (phase.Perform? || phase.Settle?) && Proposes(w, phase, s, e, next)
    ensures Fits(w, ledger, s, e)
  {
  }

  /** The running nodes are the batch, whose last was started last. */
  lemma StartFits(w: Workflow, ledger: seq<Event>, s: RunState, batch: seq<NodeId>, n: NodeId, attempt: nat)
    requires Declared(w) && Matches(w, s) && PhaseHolds(w, Admit(batch), s) && OneSortRuns(w, s)
    requires Linked(w, Admit(batch), ledger, s)
    requires n < |w.nodes| && SameSort(w, batch, n)
    ensures Fits(w, ledger, s, NodeStarted(n, attempt))
  {
    if batch != [] {
      assert batch[0] in batch && batch[|batch| - 1] in batch;
      assert s.nodes[batch[0]].status.Running? && s.nodes[batch[|batch| - 1]].status.Running?;
    }
  }

  lemma ExecutionFits(w: Workflow, ledger: seq<Event>, s: RunState, batch: seq<NodeId>, n: NodeId, e: Event,
                      next: Phase)
    requires Declared(w) && Matches(w, s) && PhaseHolds(w, Admit(batch), s) && OneSortRuns(w, s)
    requires Linked(w, Admit(batch), ledger, s)
    requires !ExceedsAny(w.limits, s.spent) && n < |w.nodes| && SameSort(w, batch, n)
    requires ProposesExecution(w, s, batch, n, e, next)
    ensures Fits(w, ledger, s, e)
  {
    if e.NodeStarted? {
      StartFits(w, ledger, s, batch, n, e.attempt);
    }
  }

  lemma ControlFits(w: Workflow, ledger: seq<Event>, s: RunState, e: Event)
    requires Declared(w) && Matches(w, s) && Driven(ledger) && !ExceedsAny(w.limits, s.spent)
    requires ControlRecord(e) && ScheduledControl(w, s, e)
    ensures Fits(w, ledger, s, e)
  {
  }

  lemma TransitionFits(w: Workflow, ledger: seq<Event>, s: RunState, batch: seq<NodeId>, e: Event, next: Phase)
    requires Declared(w) && Matches(w, s) && PhaseHolds(w, Admit(batch), s) && OneSortRuns(w, s)
    requires Linked(w, Admit(batch), ledger, s)
    requires !ExceedsAny(w.limits, s.spent) && ProposesTransition(w, s, batch, SelectNext(w, s), e, next)
    ensures Fits(w, ledger, s, e)
  {
    var t := SelectNext(w, s).value;
    if t.Execute? {
      ExecutionFits(w, ledger, s, batch, t.node, e, next);
    } else {
      if !t.EvaluateOptimization? {
        ControlEventMatches(w, s, t);
      }
      ControlFits(w, ledger, s, e);
    }
  }

  lemma ProposalFits(w: Workflow, phase: Phase, ledger: seq<Event>, s: RunState, e: Event, next: Phase)
    requires Declared(w) && Matches(w, s) && PhaseHolds(w, phase, s) && OneSortRuns(w, s) && Prepared(w, phase, s)
    requires Linked(w, phase, ledger, s) && Proposes(w, phase, s, e, next)
    ensures Fits(w, ledger, s, e)
  {
    if Resuming(phase) {
      ResumeFits(w, phase, ledger, s, e, next);
    } else if phase.Admit? {
      TransitionFits(w, ledger, s, phase.batch, e, next);
    } else if phase.Perform? || phase.Settle? {
      BatchFits(w, phase, ledger, s, e, next);
    } else {
      EndFits(w, phase, ledger, s, e, next);
    }
  }

  lemma NoAgentStays(w: Workflow, s: RunState, e: Event, s': RunState, below: nat)
    requires Moved(s, e, s') && !e.NodeStarted? && NoAgentRuns(w, s, below)
    ensures NoAgentRuns(w, s', below)
  {
    forall m: NodeId | m < below && m < |w.nodes|
      ensures !RunningAgent(w, s', m)
    {
      assert RunningAgent(w, s', m) ==> RunningAgent(w, s, m);
    }
  }

  /** How a resume moves on. */
  lemma ResumeLinks(w: Workflow, phase: Phase, ledger: seq<Event>, s: RunState, e: Event, next: Phase, s': RunState)
    requires Declared(w) && Matches(w, s) && Matches(w, s') && Linked(w, phase, ledger, s) && Resuming(phase)
    requires Proposes(w, phase, s, e, next) && Moved(s, e, s')
    ensures Linked(w, next, ledger + [e], s')
  {
    Appended(ledger, e);
    if phase.Dispose? {
      forall m: NodeId | m < e.node + 1 && m < |w.nodes|
        ensures !RunningAgent(w, s', m)
      {
        assert RunningAgent(w, s', m) ==> RunningAgent(w, s, m);
      }
    } else if phase.RecoverChildren? {
      NoAgentStays(w, s, e, s', |w.nodes|);
    }
  }

  /** What follows a control record, an expired approval or a retry is the loop's top;
      an optimization that made progress keeps its turn. */
  lemma DriveLinks(w: Workflow, phase: Phase, ledger: seq<Event>, s: RunState, e: Event, next: Phase, s': RunState)
    requires Declared(w) && Matches(w, s) && Matches(w, s') && Linked(w, phase, ledger, s)
    requires phase.Restart? || phase.Dispatch? || phase.Review? || phase.Failing?
    requires Proposes(w, phase, s, e, next)
    ensures Linked(w, next, ledger + [e], s')
  {
    Appended(ledger, e);
    if (phase.Restart? || phase.Review?) && ProposesForFailure(w, s, e, next) {
      assert next.Idle? || e.NodeRetryScheduled?;
    }
  }

  lemma BatchLinks(w: Workflow, phase: Phase, ledger: seq<Event>, s: RunState, e: Event, next: Phase, s': RunState)
    requires Declared(w) && Matches(w, s) && Matches(w, s') && Linked(w, phase, ledger, s)
    requires (phase.Perform? || phase.Settle?) && Proposes(w, phase, s, e, next)
    ensures Linked(w, next, ledger + [e], s')
  {
    Appended(ledger, e);
  }

  lemma StartLinks(w: Workflow, ledger: seq<Event>, s: RunState, batch: seq<NodeId>, n: NodeId, e: Event, next: Phase,
                   s': RunState)
    requires Declared(w) && Matches(w, s) && Matches(w, s') && Driven(ledger) && n < |w.nodes|
    requires ProposesExecution(w, s, batch, n, e, next) && s'.spent == SpentAfter(s.spent, e)
    ensures Linked(w, next, ledger + [e], s')
  {
    Appended(ledger, e);
  }

  lemma ControlLinks(w: Workflow, ledger: seq<Event>, s: RunState, t: Transition, e: Event, next: Phase, s': RunState)
    requires Declared(w) && Matches(w, s) && Matches(w, s') && Driven(ledger) && t.node < |w.nodes|
    requires ProposesControl(w, s, t, e, next) && ControlRecord(e) && !t.EvaluateOptimization?
    ensures Linked(w, next, ledger + [e], s')
  {
    Appended(ledger, e);
    assert !e.OptimizationProgressed?;
  }

  lemma TransitionLinks(w: Workflow, ledger: seq<Event>, s: RunState, batch: seq<NodeId>, e: Event, next: Phase,
                        s': RunState)
    requires Declared(w) && Matches(w, s) && Matches(w, s') && Linked(w, Admit(batch), ledger, s)
    requires ProposesTransition(w, s, batch, SelectNext(w, s), e, next) && s'.spent == SpentAfter(s.spent, e)
    ensures Linked(w, next, ledger + [e], s')
  {
    var t := SelectNext(w, s).value;
    if t.Execute? {
      StartLinks(w, ledger, s, batch, t.node, e, next, s');
    } else if t.EvaluateOptimization? {
      Appended(ledger, e);
    } else {
      ControlEventMatches(w, s, t);
      ControlLinks(w, ledger, s, t, e, next, s');
    }
  }

  lemma RecordLinks(w: Workflow, phase: Phase, ledger: seq<Event>, s: RunState, e: Event, next: Phase)
    requires Declared(w) && Matches(w, s) && Linked(w, phase, ledger, s) && Proposes(w, phase, s, e, next)
    requires Accepts(w, s, e)
    ensures Linked(w, next, ledger + [e], Effect(w, s, e))
  {
    var s' := Effect(w, s, e);
    if Resuming(phase) {
      AcceptedMoves(w, s, e);
      ResumeLinks(w, phase, ledger, s, e, next, s');
    } else if phase.Admit? {
      TransitionLinks(w, ledger, s, phase.batch, e, next, s');
    } else if phase.Perform? || phase.Settle? {
      BatchLinks(w, phase, ledger, s, e, next, s');
    } else {
      DriveLinks(w, phase, ledger, s, e, next, s');
    }
  }

  lemma StopsWhenFull(w: Workflow, ledger: seq<Event>, s: RunState, batch: seq<NodeId>)
    requires Declared(w) && Matches(w, s) && PhaseHolds(w, Admit(batch), s) && OneSortRuns(w, s)
    requires Linked(w, Admit(batch), ledger, s)
    requires batch != [] && AdmissionStops(w, s, batch)
    ensures BatchFull(w, ledger, s)
  {
    BatchSize(s, batch);
    assert batch[0] in batch && batch[|batch| - 1] in batch;
    assert s.nodes[batch[0]].status.Running? && s.nodes[batch[|batch| - 1]].status.Running?;
  }

  lemma ProceedLinks(w: Workflow, phase: Phase, ledger: seq<Event>, s: RunState, next: Phase)
    requires Declared(w) && Matches(w, s) && PhaseHolds(w, phase, s) && OneSortRuns(w, s) && Linked(w, phase, ledger, s)
    requires Proceeds(w, phase, s, next)
    ensures Linked(w, next, ledger, s)
  {
    if phase.Admit? {
      StopsWhenFull(w, ledger, s, phase.batch);
    }
  }

  /** Every ledger a run leaves behind is written. */
  lemma {:induction false} RunsAreWritten(w: Workflow, steps: seq<Step>)
    requires WellFormed(w) && Ran(w, steps).Some?
    ensures var p := Ran(w, steps).value; Written(w, p.ledger) && Linked(w, p.phase, p.ledger, p.state)
  {
    if |steps| > 0 {
      var before := steps[..|steps| - 1];
      RunsAreWritten(w, before);
      LiveHistoryIsAccepted(w, before);
      RunsAreOrderly(w, before);
      var p := Ran(w, before).value;
      match steps[|steps| - 1]
      case Crash =>
      case Proceed(next) => ProceedLinks(w, p.phase, p.ledger, p.state, next);
      case Record(e, next) =>
        ProposalFits(w, p.phase, p.ledger, p.state, e, next);
        WrittenAppends(w, p.ledger, e);
        RecordLinks(w, p.phase, p.ledger, p.state, e, next);
    }
  }
}
