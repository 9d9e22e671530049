/** Every ledger the driver can leave behind passes the recovery check. */
module LiveHistory {
  import opened Standard
  import opened WorkflowGraph
  import opened RunReducer
  import opened Scheduler
  import opened RecoveredHistory
  import opened RunSafety
  import opened LiveRun

  lemma InvariantHoldsInitially(w: Workflow)
    requires Declared(w)
    ensures Invariant(w, Restart, Initial(w), false)
  {
  }

  // ---------------------------------------------------------------------
  // What an accepted event does to the running nodes
  // ---------------------------------------------------------------------

  predicate Starts(e: Event, n: NodeId) {
    e.NodeStarted? && e.node == n
  }

  predicate Ends(e: Event, n: NodeId) {
    (e.NodeInterrupted? || e.NodeSucceeded? || e.NodeFailed?) && e.node == n
  }

  /** Only a start makes a node run, and only an outcome or an interruption ends that;
      only a preparation opens an effect; and a run waits only while nothing runs. */
  predicate Moved(s: RunState, e: Event, s': RunState) {
    && |s'.nodes| == |s.nodes|
    && (forall n: NodeId | n < |s.nodes| ::
          s'.nodes[n].status.Running? <==> Starts(e, n) || (s.nodes[n].status.Running? && !Ends(e, n)))
    && (forall n: NodeId | n < |s.nodes| && !e.EffectPrepared? && SomeOpenEffect(s'.nodes[n]) ::
      SomeOpenEffect(s.nodes[n]))
    && (s'.status.Waiting? ==> !e.NodeStarted? && (s.status.Waiting? || !SomeStatus(s, Running)))
    && (e.EffectReconciled? ==> HasStatus(s, e.node, Running) && SomeOpenEffect(s.nodes[e.node]))
    && (e.NodeStarted? ==>
          && e.node < |s.nodes| && s'.nodes[e.node].control == s.nodes[e.node].control
          && forall n: NodeId | n < |s.nodes| && n != e.node :: s'.nodes[n] == s.nodes[n])
  }

  lemma NodeMoves(w: Workflow, s: RunState, e: Event)
    requires Declared(w) && Matches(w, s) && Accepts(w, s, e) && Target(e).Some?
    ensures var n := Target(e).value;
            var after := NodeAfter(w, s, e);
            && e.node == n < |s.nodes|
            && (after.status.Running? <==> Starts(e, n) || (s.nodes[n].status.Running? && !Ends(e, n)))
            && (!e.EffectPrepared? && SomeOpenEffect(after) ==> SomeOpenEffect(s.nodes[n]))
            && (e.EffectReconciled? ==> s.nodes[n].status.Running? && SomeOpenEffect(s.nodes[n]))
            && (e.NodeStarted? ==> after.control == s.nodes[n].control)
  {
    var after := NodeAfter(w, s, e);
    if i :| 0 <= i < |after.effects| && after.effects[i].Open? {
      assert e.EffectPrepared? || s.nodes[e.node].effects[i].Open?;
    }
    if e.EffectReconciled? {
      assert s.nodes[e.node].effects[e.index].Open?;
    }
  }

  lemma AcceptedMoves(w: Workflow, s: RunState, e: Event)
    requires Declared(w) && Matches(w, s) && Accepts(w, s, e)
    ensures Moved(s, e, Effect(w, s, e))
  {
    if Target(e).Some? {
      NodeMoves(w, s, e);
      assert Effect(w, s, e).nodes == s.nodes[e.node := NodeAfter(w, s, e)];
    }
    WaitBegins(w, s, e);
  }

  lemma WaitBegins(w: Workflow, s: RunState, e: Event)
    requires Declared(w) && Matches(w, s) && Accepts(w, s, e)
    ensures Effect(w, s, e).status.Waiting? ==> !e.NodeStarted? && (s.status.Waiting? || !SomeStatus(s, Running))
  {
  }

  // ---------------------------------------------------------------------
  // What the driver writes, phase by phase
  // ---------------------------------------------------------------------

  predicate ExecutionPhase(phase: Phase) {
    phase.Admit? || phase.Perform? || phase.Settle?
  }

  /** A start joins the batch, beside nodes of its own sort; anything else is written
      before the batch has a node. */
  predicate AdmissionShape(w: Workflow, s: RunState, batch: seq<NodeId>, e: Event, next: Phase)
    requires Declared(w) && Matches(w, s)
  {
    && !e.EffectPrepared? && !e.NodeInterrupted? && !e.RunResumed?
    && (if e.NodeStarted? then
          && SelectNext(w, s) == Some(Execute(e.node)) && SameSort(w, batch, e.node)
          && (next == Admit(batch + [e.node]) || next == Perform(batch + [e.node]))
        else
          batch == [] && (next.Idle? || next.Dispatch? || next.Failing? || next == Admit([])))
  }

  /** Outside a batch nothing starts, and where the driver goes next tells what held. */
  predicate OutsideShape(w: Workflow, phase: Phase, s: RunState, e: Event, next: Phase)
    requires Matches(w, s)
  {
    && !e.NodeStarted? && !e.EffectPrepared? && !ExecutionPhase(next) && !next.Review? && !next.Relocate?
    && (e.NodeInterrupted? ==> phase.Dispose? && next.Dispose? && RunningAgent(w, s, e.node))
    && (next.Dispose? || next.RecoverChildren? ==> phase.Dispose? || phase.RecoverChildren?)
    && (next.Restart? || next.Dispatch? ==> phase.Restart? || phase.Review? || !SomeStatus(s, Running))
    && (next.Failing? || phase.Idle? ==> s.status.Waiting?)
    && (phase.RecoverChildren? ==> (e.NodeSucceeded? || e.NodeFailed?) && RunningChild(w, s, e.node))
    && (Resuming(phase) ==>
      phase.Idle? || e.RunResumed? || e.NodeInterrupted? || e.EffectReconciled? || phase.RecoverChildren?)
    && (Resuming(phase) && !e.RunResumed? ==> Resuming(next) || s.status.Waiting?)
  }

  predicate Shape(w: Workflow, phase: Phase, s: RunState, e: Event, next: Phase)
    requires Declared(w) && Matches(w, s)
  {
    match phase
    case Admit(batch) => AdmissionShape(w, s, batch, e, next)
    case Perform(batch) => (e.EffectPrepared? || e.EffectSettled?) && next == phase
    case Settle(batch, k) => (e.NodeSucceeded? || e.NodeFailed?) && k < |batch| && Ends(e, batch[k])
      && next == Settle(batch, k + 1)
    case _ => OutsideShape(w, phase, s, e, next)
  }

  /** The events the recovery check leaves to the reducer. */
  predicate Unchecked(e: Event) {
    !ControlRecord(e) && !e.CommandApprovalRequested? && !e.NodeStarted? && !e.NodeInterrupted?
  }

  lemma ControlAdmitted(w: Workflow, s: RunState, t: Transition, e: Event)
    requires Declared(w) && Matches(w, s) && t.node < |w.nodes|
    requires SelectNext(w, s) == Some(t) && ControlEvent(w, s, t) == Some(e)
    ensures ControlRecord(e) && GraphAdmits(w, s, e)
  {
    ControlEventMatches(w, s, t);
  }

  lemma ExecutionAdmitted(w: Workflow, s: RunState, batch: seq<NodeId>, n: NodeId, e: Event, next: Phase)
    requires Declared(w) && Matches(w, s) && n < |w.nodes| && SameSort(w, batch, n)
    requires SelectNext(w, s) == Some(Execute(n)) && ProposesExecution(w, s, batch, n, e, next)
    ensures GraphAdmits(w, s, e) && AdmissionShape(w, s, batch, e, next)
  {
  }

  lemma ControlShape(w: Workflow, s: RunState, t: Transition, e: Event, next: Phase)
    requires Declared(w) && Matches(w, s) && t.node < |w.nodes|
    requires ProposesControl(w, s, t, e, next) && ControlRecord(e)
    ensures AdmissionShape(w, s, [], e, next)
  {
  }

  lemma OptimizationAdmitted(w: Workflow, s: RunState, t: Transition, e: Event, next: Phase)
    requires Declared(w) && Matches(w, s) && t.EvaluateOptimization? && SelectNext(w, s) == Some(t)
    requires ProposesOptimization(t.node, e, next)
    ensures GraphAdmits(w, s, e) && AdmissionShape(w, s, [], e, next)
  {
  }

  /** The scheduler's choice is checked against the state it was made in, so the
      recovery check repeats it. */
  lemma TransitionAdmitted(w: Workflow, s: RunState, batch: seq<NodeId>, e: Event, next: Phase)
    requires Declared(w) && Matches(w, s)
    requires ProposesTransition(w, s, batch, SelectNext(w, s), e, next)
    ensures GraphAdmits(w, s, e) && AdmissionShape(w, s, batch, e, next)
  {
    var t := SelectNext(w, s).value;
    if t.Execute? {
      ExecutionAdmitted(w, s, batch, t.node, e, next);
    } else if t.EvaluateOptimization? {
      OptimizationAdmitted(w, s, t, e, next);
    } else {
      ControlAdmitted(w, s, t, e);
      ControlShape(w, s, t, e, next);
    }
  }

  lemma ResumeProposals(w: Workflow, phase: Phase, s: RunState, e: Event, next: Phase)
    requires Declared(w) && Matches(w, s) && Proposes(w, phase, s, e, next) && Resuming(phase)
    ensures OutsideShape(w, phase, s, e, next) && (Unchecked(e) || e.NodeInterrupted?)
  {
  }

  lemma FailureProposals(w: Workflow, phase: Phase, s: RunState, e: Event, next: Phase)
    requires Matches(w, s) && ProposesForFailure(w, s, e, next) && (phase.Restart? || phase.Review?)
    ensures OutsideShape(w, phase, s, e, next) && Unchecked(e)
  {
  }

  lemma DriveProposals(w: Workflow, phase: Phase, s: RunState, e: Event, next: Phase)
    requires Declared(w) && Matches(w, s) && Proposes(w, phase, s, e, next) && !Resuming(phase) && !phase.Admit?
    ensures Shape(w, phase, s, e, next) && Unchecked(e)
  {
    if (phase.Restart? || phase.Review?) && ProposesForFailure(w, s, e, next) {
      FailureProposals(w, phase, s, e, next);
    }
  }

  /** Whatever the driver writes passes the graph check. */
  lemma ProposedIsAdmitted(w: Workflow, phase: Phase, s: RunState, e: Event, next: Phase)
    requires Declared(w) && Sound(w, s) && Proposes(w, phase, s, e, next)
    ensures GraphAdmits(w, s, e) && Shape(w, phase, s, e, next)
  {
    if phase.Admit? {
      TransitionAdmitted(w, s, phase.batch, e, next);
    } else {
      if Resuming(phase) {
        ResumeProposals(w, phase, s, e, next);
      } else {
        DriveProposals(w, phase, s, e, next);
      }
      if e.NodeInterrupted? {
        assert NodeSound(w, s, e.node);
      }
    }
  }

  // ---------------------------------------------------------------------
  // Each step keeps the invariant
  // ---------------------------------------------------------------------

  function Required(required: bool, e: Event): bool {
    if e.RunResumed? then false else if e.NodeInterrupted? then true else required
  }

  /** While the resume marker is missing, nothing but the marker or a further
      interruption is written. */
  lemma OnlyTheMarker(w: Workflow, phase: Phase, s: RunState, required: bool, e: Event, next: Phase, s': RunState)
    requires Declared(w) && Matches(w, s) && MarkerHolds(w, phase, s, required)
    requires Shape(w, phase, s, e, next) && Moved(s, e, s')
    ensures required ==> e.RunResumed? || e.NodeInterrupted?
  {
  }

  lemma StaysQuiet(s: RunState, e: Event, s': RunState)
    requires Moved(s, e, s') && !e.NodeStarted? && !SomeStatus(s, Running)
    ensures !SomeStatus(s', Running)
  {
  }

  lemma StaysObserved(s: RunState, e: Event, s': RunState)
    requires Moved(s, e, s') && !e.NodeStarted? && !e.EffectPrepared? && EffectsObserved(s)
    ensures EffectsObserved(s')
  {
  }

  /** The batch is exactly what runs: a start appends its node, an outcome removes the first. */
  lemma StartKeepsBatch(w: Workflow, s: RunState, batch: seq<NodeId>, e: Event, s': RunState)
    requires Declared(w) && Matches(w, s) && PhaseHolds(w, Admit(batch), s)
    requires e.NodeStarted? && SelectNext(w, s) == Some(Execute(e.node)) && Moved(s, e, s')
    ensures PhaseHolds(w, Admit(batch + [e.node]), s') && PhaseHolds(w, Perform(batch + [e.node]), s')
  {
    var longer := batch + [e.node];
    assert ChoosesLater(w, s', longer) by {
      ChoicesAscend(w, s, e.node, s');
    }
    assert Ordered(longer, |s'.nodes|);
    assert forall n :: n in longer <==> n in batch || n == e.node;
    assert RunningAre(s', longer);
  }

  lemma OutcomeKeepsBatch(w: Workflow, s: RunState, batch: seq<NodeId>, k: nat, e: Event, s': RunState)
    requires Declared(w) && Matches(w, s) && PhaseHolds(w, Settle(batch, k), s)
    requires k < |batch| && Ends(e, batch[k]) && Moved(s, e, s')
    ensures PhaseHolds(w, Settle(batch, k + 1), s')
  {
    assert batch[k..] == [batch[k]] + batch[k + 1..];
    assert batch[k] !in batch[k + 1..];
  }

  lemma OutsideKeepsPhase(w: Workflow, phase: Phase, s: RunState, e: Event, next: Phase, s': RunState)
    requires Declared(w) && Matches(w, s) && PhaseHolds(w, phase, s) && (s.status.Waiting? ==> !SomeStatus(s, Running))
    requires OutsideShape(w, phase, s, e, next) && Moved(s, e, s')
    ensures PhaseHolds(w, next, s')
  {
    if !SomeStatus(s, Running) {
      StaysQuiet(s, e, s');
    }
    if EffectsObserved(s) {
      StaysObserved(s, e, s');
    }
  }

  lemma PlainKeepsPhase(w: Workflow, phase: Phase, s: RunState, e: Event, next: Phase, s': RunState)
    requires Declared(w) && Matches(w, s) && PhaseHolds(w, phase, s) && (s.status.Waiting? ==> !SomeStatus(s, Running))
    requires Shape(w, phase, s, e, next) && Moved(s, e, s') && !e.NodeStarted? && !phase.Settle? && !phase.Perform?
    ensures PhaseHolds(w, next, s')
  {
    if phase.Admit? {
      assert phase.batch == [];
      StaysQuiet(s, e, s');
    } else {
      OutsideKeepsPhase(w, phase, s, e, next, s');
    }
  }

  lemma KeepsPhase(w: Workflow, phase: Phase, s: RunState, e: Event, next: Phase, s': RunState)
    requires Declared(w) && Matches(w, s) && PhaseHolds(w, phase, s) && (s.status.Waiting? ==> !SomeStatus(s, Running))
    requires Shape(w, phase, s, e, next) && Moved(s, e, s')
    ensures PhaseHolds(w, next, s')
  {
    if e.NodeStarted? {
      StartKeepsBatch(w, s, phase.batch, e, s');
    } else if phase.Settle? {
      OutcomeKeepsBatch(w, s, phase.batch, phase.settled, e, s');
    } else if !phase.Perform? {
      PlainKeepsPhase(w, phase, s, e, next, s');
    }
  }

  /** A node joins a batch only beside nodes of its own sort. */
  lemma KeepsOneSort(w: Workflow, phase: Phase, s: RunState, e: Event, next: Phase, s': RunState)
    requires Declared(w) && Matches(w, s) && PhaseHolds(w, phase, s) && OneSortRuns(w, s)
    requires Shape(w, phase, s, e, next) && Moved(s, e, s')
    ensures OneSortRuns(w, s')
  {
    if e.NodeStarted? {
      forall m: NodeId | m < |s.nodes| && s.nodes[m].status.Running?
        ensures w.nodes[m].kind.Child? <==> w.nodes[e.node].kind.Child?
      {
        assert m in phase.batch && phase.batch[0] in phase.batch;
      }
    }
  }

  lemma KeepsMarker(w: Workflow, phase: Phase, s: RunState, required: bool, e: Event, next: Phase, s': RunState)
    requires Declared(w) && Matches(w, s) && PhaseHolds(w, phase, s) && OneSortRuns(w, s)
    requires (s.status.Waiting? ==> !SomeStatus(s, Running)) && MarkerHolds(w, phase, s, required)
    requires Shape(w, phase, s, e, next) && Moved(s, e, s') && (required ==> e.RunResumed? || e.NodeInterrupted?)
    ensures MarkerHolds(w, next, s', Required(required, e))
  {
    if e.NodeInterrupted? {
      StaysObserved(s, e, s');
      assert s.nodes[e.node].status.Running?;
      forall n: NodeId | n < |w.nodes|
        ensures !RunningChild(w, s', n)
      {
        assert s'.nodes[n].status.Running? ==> s.nodes[n].status.Running?;
      }
    }
  }

  lemma InvariantNext(w: Workflow, phase: Phase, s: RunState, required: bool, e: Event, next: Phase, s': RunState)
    requires Declared(w) && Invariant(w, phase, s, required) && Sound(w, s')
    requires Shape(w, phase, s, e, next) && Moved(s, e, s') && (required ==> e.RunResumed? || e.NodeInterrupted?)
    ensures Invariant(w, next, s', Required(required, e))
  {
    KeepsPhase(w, phase, s, e, next, s');
    KeepsOneSort(w, phase, s, e, next, s');
    KeepsMarker(w, phase, s, required, e, next, s');
    WaitsQuietly(s, e, s');
  }

  lemma WaitsQuietly(s: RunState, e: Event, s': RunState)
    requires Moved(s, e, s') && (s.status.Waiting? ==> !SomeStatus(s, Running))
    ensures s'.status.Waiting? ==> !SomeStatus(s', Running)
  {
  }

  lemma RecordKeeps(w: Workflow, phase: Phase, s: RunState, required: bool, e: Event, next: Phase)
    requires WellFormed(w) && Invariant(w, phase, s, required)
    requires Proposes(w, phase, s, e, next) && Accepts(w, s, e)
    ensures GraphAdmits(w, s, e) && (required ==> e.RunResumed? || e.NodeInterrupted?)
    ensures Invariant(w, next, Effect(w, s, e), Required(required, e))
  {
    var s' := Effect(w, s, e);
    ProposedIsAdmitted(w, phase, s, e, next);
    AcceptedMoves(w, s, e);
    OnlyTheMarker(w, phase, s, required, e, next, s');
    SoundStep(w, s, e);
    InvariantNext(w, phase, s, required, e, next, s');
  }

  lemma ProceedKeeps(w: Workflow, phase: Phase, s: RunState, required: bool, next: Phase)
    requires Declared(w) && Invariant(w, phase, s, required) && Proceeds(w, phase, s, next)
    ensures Invariant(w, next, s, required)
  {
  }

  /** A record that is proposed and accepted is taken. */
  lemma RecordTaken(w: Workflow, steps: seq<Step>, e: Event, next: Phase)
    requires Declared(w) && Ran(w, steps).Some?
    requires var p := Ran(w, steps).value; Proposes(w, p.phase, p.state, e, next) && Accepts(w, p.state, e)
    ensures Ran(w, steps + [Record(e, next)]).Some?
  {
    var longer := steps + [Record(e, next)];
    assert longer[..|longer| - 1] == steps && longer[|longer| - 1] == Record(e, next);
  }

  // ---------------------------------------------------------------------
  // Whole runs
  // ---------------------------------------------------------------------

  /** Every ledger a run can leave behind, with concurrent batches, retries, approvals,
      crashes between any two writes and repeated resumes, is accepted by the recovery
      check, which rebuilds exactly the state the driver held. */
  lemma {:induction false} LiveHistoryIsAccepted(w: Workflow, steps: seq<Step>)
    requires WellFormed(w) && Ran(w, steps).Some?
    ensures var p := Ran(w, steps).value;
            && Replayed(w, p.ledger).Some?
            && Replayed(w, p.ledger).value.state == p.state
            && Invariant(w, p.phase, p.state, Replayed(w, p.ledger).value.resumeRequired)
  {
    if |steps| == 0 {
      InvariantHoldsInitially(w);
    } else {
      var last := |steps| - 1;
      LiveHistoryIsAccepted(w, steps[..last]);
      var p := Ran(w, steps[..last]).value;
      var required := Replayed(w, p.ledger).value.resumeRequired;
      match steps[last]
      case Crash =>
      case Proceed(next) => ProceedKeeps(w, p.phase, p.state, required, next);
      case Record(e, next) =>
        RecordKeeps(w, p.phase, p.state, required, e, next);
        AppendReplays(w, p.ledger, e);
    }
  }
}
