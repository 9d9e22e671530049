/** What an accepted ledger says of the run and of each node, read off its records: the
    replayed state holds exactly this. */
module LedgerReading {
  import opened Standard
  import opened WorkflowGraph
  import opened RunReducer
  import opened RecoveredHistory
  import opened RunSafety
  import opened RunAccounting

  // ---------------------------------------------------------------------
  // The last record on a topic
  // ---------------------------------------------------------------------

  datatype Topic =
    | Course                               // whether the run is active, waits or has ended
    | Standing(node: NodeId)               // the node's status
    | Approving(node: NodeId)              // a command's approval
    | Opening(node: NodeId)                // an attempt begins, or the node is given back
    | Disposing(node: NodeId, index: nat)  // an effect of the node is found applied or not

  /** Where a record leads a node, if it moves one. */
  datatype Move = Stays | Leads(node: NodeId, to: Status)

  function MoveOf(e: Event): Move {
    match e
    case NodeStarted(n, _) => Leads(n, Running)
    case NodeInterrupted(n, _) => Leads(n, Pending)
    case NodeRetryScheduled(n, _) => Leads(n, Pending)
    case NodeSucceeded(n, _, _, _) => Leads(n, Succeeded)
    case NodeFailed(n, _, _, _) => Leads(n, Failed)
    case CommandApprovalDenied(n) => Leads(n, Failed)
    case WorkflowApprovalApproved(n) => Leads(n, Succeeded)
    case WorkflowApprovalDenied(n) => Leads(n, Failed)
    case ConditionEvaluated(n, _) => Leads(n, Succeeded)
    case ResultPublished(n) => Leads(n, Succeeded)
    case LoopChecked(n, _) => Leads(n, Succeeded)
    case LoopCompleted(n, _, _) => Leads(n, Succeeded)
    case OptimizationChecked(n, _) => Leads(n, Succeeded)
    case OptimizationCompleted(n, _, _) => Leads(n, Succeeded)
    case NodeJoined(n, _, _, _) => Leads(n, Succeeded)
    case NodeOmitted(n, _) => Leads(n, Omitted)
    case ControlFailed(n) => Leads(n, Failed)
    case _ => Stays
  }

  predicate MovesNode(e: Event, n: NodeId) {
    MoveOf(e).Leads? && MoveOf(e).node == n
  }

  predicate Concerns(e: Event, topic: Topic) {
    match topic
    case Course => CourseOf(e).Some?
    case Standing(n) => MovesNode(e, n)
    case Approving(n) => ApprovalOf(e, n).Some?
    case Opening(n) => (e.NodeStarted? || e.NodeInterrupted? || e.NodeRetryScheduled?) && e.node == n
    case Disposing(n, i) => (e.EffectSettled? || e.EffectReconciled?) && e.node == n && e.index == i
  }

  /** The course a record sets for the whole run. */
  function CourseOf(e: Event): Option<RunStatus> {
    if e.CommandApprovalRequested? || e.WorkflowApprovalRequested? then Some(Waiting)
    else if e.CommandApprovalGranted? || e.CommandApprovalDenied? then Some(Active)
    else if e.WorkflowApprovalApproved? || e.WorkflowApprovalDenied? then Some(Active)
    else if e.RunSucceeded? then Some(RunDone(AllSucceeded))
    else if e.RunFailed? then Some(RunDone(SomeFailed))
    else if e.RunCancelled? then Some(RunDone(Cancelled))
    else if e.RunExhausted? then Some(RunDone(Exhausted))
    else None
  }

  /** What a record makes of a command's approval: starting the command consumes it. */
  function ApprovalOf(e: Event, n: NodeId): Option<Approved> {
    match e
    case CommandApprovalRequested(m, _) => if m == n then Some(Requested) else None
    case CommandApprovalGranted(m) => if m == n then Some(Granted) else None
    case CommandApprovalDenied(m) => if m == n then Some(Denied) else None
    case CommandApprovalExpired(m) => if m == n then Some(Expired) else None
    case NodeStarted(m, _) => if m == n then Some(Consumed) else None
    case _ => None
  }

  /** The place of the last record on a topic. */
  function Latest(ledger: seq<Event>, topic: Topic): (i: Option<nat>)
    ensures match i
            case Some(k) =>
              k < |ledger| && Concerns(ledger[k], topic) && forall j | k < j < |ledger| :: !Concerns(ledger[j], topic)
            case None => forall j | 0 <= j < |ledger| :: !Concerns(ledger[j], topic)
  {
    if |ledger| == 0 then None
    else if Concerns(ledger[|ledger| - 1], topic) then Some(|ledger| - 1)
    else Latest(ledger[..|ledger| - 1], topic)
  }

  // ---------------------------------------------------------------------
  // The run and each node's standing
  // ---------------------------------------------------------------------

  function FinalState(w: Workflow, ledger: seq<Event>): RunState
    requires Declared(w) && Replayed(w, ledger).Some?
  {
    Replayed(w, ledger).value.state
  }

  function CourseRead(ledger: seq<Event>): RunStatus {
    match Latest(ledger, Course) case None => Active case Some(i) => CourseOf(ledger[i]).value
  }

  function StatusRead(ledger: seq<Event>, n: NodeId): Status {
    match Latest(ledger, Standing(n)) case None => Pending case Some(i) => MoveOf(ledger[i]).to
  }

  function ApprovalRead(ledger: seq<Event>, n: NodeId): Approved {
    match Latest(ledger, Approving(n)) case None => NoRequest case Some(i) => ApprovalOf(ledger[i], n).value
  }

  /** An event changes the record of its own node only. */
  lemma NodeStep(w: Workflow, s: RunState, e: Event, n: NodeId)
    requires Declared(w) && Matches(w, s) && Accepts(w, s, e) && n < |w.nodes|
    ensures Effect(w, s, e).nodes[n] == if Target(e) == Some(n) then NodeAfter(w, s, e) else s.nodes[n]
    ensures MovesNode(e, n) ==> Target(e) == Some(n)
  {
  }

  lemma StandingAfter(w: Workflow, s: RunState, e: Event, n: NodeId)
    requires Declared(w) && Matches(w, s) && Accepts(w, s, e) == true && Target(e) == Some(n)
    ensures NodeAfter(w, s, e).status == if MovesNode(e, n) then MoveOf(e).to else s.nodes[n].status
  {
  }

  lemma StandingStep(w: Workflow, s: RunState, e: Event, n: NodeId)
    requires Declared(w) && Matches(w, s) && Accepts(w, s, e) && n < |w.nodes|
    ensures Effect(w, s, e).nodes[n].status == if MovesNode(e, n) then MoveOf(e).to else s.nodes[n].status
  {
    NodeStep(w, s, e, n);
    if Target(e) == Some(n) {
      StandingAfter(w, s, e, n);
    }
  }

  lemma CourseStep(w: Workflow, s: RunState, e: Event)
    requires Declared(w) && Matches(w, s) && Accepts(w, s, e)
    ensures Effect(w, s, e).status == if CourseOf(e).Some? then CourseOf(e).value else s.status
  {
  }

  /** One more record, read. */
  lemma ReadStep(ledger: seq<Event>, n: NodeId)
    requires |ledger| > 0
    ensures var before, e := ledger[..|ledger| - 1], ledger[|ledger| - 1];
            && StatusRead(ledger, n) == (if MovesNode(e, n) then MoveOf(e).to else StatusRead(before, n))
            && CourseRead(ledger) == (if CourseOf(e).Some? then CourseOf(e).value else CourseRead(before))
            && ApprovalRead(ledger, n) ==
               if ApprovalOf(e, n).Some? then ApprovalOf(e, n).value else ApprovalRead(before, n)
  {
    var before := ledger[..|ledger| - 1];
    assert forall i | 0 <= i < |before| :: before[i] == ledger[i];
  }

  lemma LastAccepted(w: Workflow, ledger: seq<Event>)
    requires Declared(w) && Replayed(w, ledger).Some? && |ledger| > 0
    ensures var before, e := ledger[..|ledger| - 1], ledger[|ledger| - 1];
            && Replayed(w, before).Some? && Accepts(w, FinalState(w, before), e)
            && FinalState(w, ledger) == Effect(w, FinalState(w, before), e)
  {
  }

  /** Every node stands where the last record that moves it led, ... */
  lemma {:induction false} StandingIsRead(w: Workflow, ledger: seq<Event>, n: NodeId)
    requires Declared(w) && Replayed(w, ledger).Some? && n < |w.nodes|
    ensures FinalState(w, ledger).nodes[n].status == StatusRead(ledger, n)
  {
    if |ledger| > 0 {
      var before := ledger[..|ledger| - 1];
      LastAccepted(w, ledger);
      StandingIsRead(w, before, n);
      StandingStep(w, FinalState(w, before), ledger[|ledger| - 1], n);
      ReadStep(ledger, n);
    }
  }

  /** ... and the run is on the course its last deciding record set. */
  lemma {:induction false} CourseIsRead(w: Workflow, ledger: seq<Event>)
    requires Declared(w) && Replayed(w, ledger).Some?
    ensures FinalState(w, ledger).status == CourseRead(ledger)
  {
    if |ledger| > 0 {
      var before := ledger[..|ledger| - 1];
      LastAccepted(w, ledger);
      CourseIsRead(w, before);
      CourseStep(w, FinalState(w, before), ledger[|ledger| - 1]);
      ReadStep(ledger, 0);
    }
  }

  // ---------------------------------------------------------------------
  // Attempts
  // ---------------------------------------------------------------------

  /** A record that counts as an attempt of the node: a start, a denied command, or the
      settling of a control node. */
  predicate Attempts(e: Event, n: NodeId) {
    && MovesNode(e, n)
    && !e.NodeSucceeded? && !e.NodeFailed? && !e.NodeInterrupted? && !e.NodeRetryScheduled? && !e.NodeOmitted?
  }

  function AttemptsIn(ledger: seq<Event>, n: NodeId): nat {
    if |ledger| == 0 then 0
    else AttemptsIn(ledger[..|ledger| - 1], n) + if Attempts(ledger[|ledger| - 1], n) then 1 else 0
  }

  lemma AttemptBegins(w: Workflow, s: RunState, e: Event, n: NodeId)
    requires Declared(w) && Matches(w, s) && Accepts(w, s, e) && n < |w.nodes|
    requires RecordSound(w.nodes[n].kind, s.nodes[n])
    requires Attempts(e, n)
    ensures Effect(w, s, e).nodes[n].attempt == s.nodes[n].attempt + 1
  {
  }

  lemma UnmovedKeepsAttempt(w: Workflow, s: RunState, e: Event, n: NodeId)
    requires Declared(w) && Matches(w, s) && Accepts(w, s, e) == true && Target(e) == Some(n) && MoveOf(e).Stays?
    ensures NodeAfter(w, s, e).attempt == s.nodes[n].attempt
  {
  }

  lemma MovedKeepsAttempt(w: Workflow, s: RunState, e: Event, n: NodeId)
    requires Declared(w) && Matches(w, s) && Accepts(w, s, e) == true && Target(e) == Some(n)
    requires e.NodeSucceeded? || e.NodeFailed? || e.NodeInterrupted? || e.NodeRetryScheduled? || e.NodeOmitted?
    ensures NodeAfter(w, s, e).attempt == s.nodes[n].attempt
  {
  }

  lemma AttemptStays(w: Workflow, s: RunState, e: Event, n: NodeId)
    requires Declared(w) && Matches(w, s) && Accepts(w, s, e) && n < |w.nodes| && !Attempts(e, n)
    ensures Effect(w, s, e).nodes[n].attempt == s.nodes[n].attempt
  {
    NodeStep(w, s, e, n);
    if Target(e) == Some(n) {
      if MoveOf(e).Stays? {
        UnmovedKeepsAttempt(w, s, e, n);
      } else {
        MovedKeepsAttempt(w, s, e, n);
      }
    }
  }

  lemma AttemptNumbers(w: Workflow, s: RunState, e: Event)
    requires Declared(w) && Matches(w, s) && Accepts(w, s, e) && Target(e).Some?
    ensures e.NodeStarted? || e.CommandApprovalRequested? ==> e.attempt == s.nodes[e.node].attempt + 1
    ensures e.NodeSucceeded? || e.NodeFailed? || e.NodeInterrupted? || e.NodeRetryScheduled? ==>
              e.attempt == s.nodes[e.node].attempt
  {
  }

  /** A node's attempt number is the number of its attempts, ... */
  lemma {:induction false} AttemptsAreCounted(w: Workflow, ledger: seq<Event>, n: NodeId)
    requires WellFormed(w) && Replayed(w, ledger).Some? && n < |w.nodes|
    ensures FinalState(w, ledger).nodes[n].attempt == AttemptsIn(ledger, n)
  {
    if |ledger| > 0 {
      var before := ledger[..|ledger| - 1];
      LastAccepted(w, ledger);
      AttemptsAreCounted(w, before, n);
      AcceptedHistoryIsSound(w, before);
      assert NodeSound(w, FinalState(w, before), n);
      if Attempts(ledger[|ledger| - 1], n) {
        AttemptBegins(w, FinalState(w, before), ledger[|ledger| - 1], n);
      } else {
        AttemptStays(w, FinalState(w, before), ledger[|ledger| - 1], n);
      }
    }
  }

  /** ... and every record that gives an attempt number gives the right one. */
  lemma AttemptsAreNumbered(w: Workflow, ledger: seq<Event>, i: nat)
    requires WellFormed(w) && Replayed(w, ledger).Some? && i < |ledger|
    ensures var e := ledger[i];
            && (e.NodeStarted? || e.CommandApprovalRequested? ==> e.attempt == AttemptsIn(ledger[..i], e.node) + 1)
            && (e.NodeSucceeded? || e.NodeFailed? || e.NodeInterrupted? || e.NodeRetryScheduled? ==>
                  e.attempt == AttemptsIn(ledger[..i], e.node))
  {
    AcceptedAt(w, ledger, i);
    if Target(ledger[i]).Some? {
      AttemptNumbers(w, StateAt(w, ledger, i), ledger[i]);
      AttemptsAreCounted(w, ledger[..i], ledger[i].node);
    }
  }

  // ---------------------------------------------------------------------
  // Approvals
  // ---------------------------------------------------------------------

  predicate AsksWorkflowApproval(ledger: seq<Event>, n: NodeId) {
    exists i :: 0 <= i < |ledger| && ledger[i] == WorkflowApprovalRequested(n)
  }

  lemma ApprovalAfter(w: Workflow, s: RunState, e: Event, n: NodeId)
    requires Declared(w) && Matches(w, s) && Accepts(w, s, e) == true && Target(e) == Some(n)
    requires n < |w.nodes| && w.nodes[n].kind == Command(true)
    ensures NodeAfter(w, s, e).approval ==
            if ApprovalOf(e, n).Some? then ApprovalOf(e, n).value else s.nodes[n].approval
  {
  }

  lemma ApprovalStep(w: Workflow, s: RunState, e: Event, n: NodeId)
    requires Declared(w) && Matches(w, s) && Accepts(w, s, e) && n < |w.nodes|
    requires w.nodes[n].kind == Command(true)
    ensures Effect(w, s, e).nodes[n].approval ==
            if ApprovalOf(e, n).Some? then ApprovalOf(e, n).value else s.nodes[n].approval
  {
    NodeStep(w, s, e, n);
    if Target(e) == Some(n) {
      ApprovalAfter(w, s, e, n);
    }
  }

  lemma AwaitingAfter(w: Workflow, s: RunState, e: Event, n: NodeId)
    requires Declared(w) && Matches(w, s) && Accepts(w, s, e) == true && Target(e) == Some(n)
    requires n < |w.nodes| && w.nodes[n].kind.Approval?
    ensures NodeAfter(w, s, e).awaiting <==> s.nodes[n].awaiting || e.WorkflowApprovalRequested?
  {
  }

  lemma AwaitingStep(w: Workflow, s: RunState, e: Event, n: NodeId)
    requires Declared(w) && Matches(w, s) && Accepts(w, s, e) && n < |w.nodes| && w.nodes[n].kind.Approval?
    ensures Effect(w, s, e).nodes[n].awaiting <==> s.nodes[n].awaiting || e == WorkflowApprovalRequested(n)
  {
    NodeStep(w, s, e, n);
    if Target(e) == Some(n) {
      AwaitingAfter(w, s, e, n);
    }
  }

  /** A command's approval is what its last approval record, or its start, made of it. */
  lemma {:induction false} ApprovalIsRead(w: Workflow, ledger: seq<Event>, n: NodeId)
    requires Declared(w) && Replayed(w, ledger).Some? && n < |w.nodes| && w.nodes[n].kind == Command(true)
    ensures FinalState(w, ledger).nodes[n].approval == ApprovalRead(ledger, n)
  {
    if |ledger| > 0 {
      var before := ledger[..|ledger| - 1];
      LastAccepted(w, ledger);
      ReadStep(ledger, n);
      ApprovalIsRead(w, before, n);
      ApprovalStep(w, FinalState(w, before), ledger[|ledger| - 1], n);
    }
  }

  lemma {:induction false} AwaitingIsRead(w: Workflow, ledger: seq<Event>, n: NodeId)
    requires Declared(w) && Replayed(w, ledger).Some? && n < |w.nodes| && w.nodes[n].kind.Approval?
    ensures FinalState(w, ledger).nodes[n].awaiting <==> AsksWorkflowApproval(ledger, n)
  {
    if |ledger| > 0 {
      var k := |ledger| - 1;
      AwaitingIsRead(w, ledger[..k], n);
      AwaitingStep(w, FinalState(w, ledger[..k]), ledger[k], n);
    }
  }

  // ---------------------------------------------------------------------
  // Effects and failures
  // ---------------------------------------------------------------------

  /** How many effects the node has prepared since its last start, or since it was given back. */
  function PreparedIn(ledger: seq<Event>, n: NodeId): nat {
    if |ledger| == 0 || Concerns(ledger[|ledger| - 1], Opening(n)) then 0
    else PreparedIn(ledger[..|ledger| - 1], n) + if ledger[|ledger| - 1] == EffectPrepared(n) then 1 else 0
  }

  /** What has been found of an effect since then. */
  function EffectRead(ledger: seq<Event>, n: NodeId, i: nat): EffectState {
    if |ledger| == 0 || Concerns(ledger[|ledger| - 1], Opening(n)) then Open
    else if Concerns(ledger[|ledger| - 1], Disposing(n, i)) then
      if ledger[|ledger| - 1].applied then Applied else NotApplied
    else EffectRead(ledger[..|ledger| - 1], n, i)
  }

  lemma EffectsOpened(w: Workflow, s: RunState, e: Event, n: NodeId)
    requires Declared(w) && Matches(w, s) && Accepts(w, s, e) == true && Target(e) == Some(n)
    requires !e.EffectSettled? && !e.EffectReconciled?
    ensures NodeAfter(w, s, e).effects ==
            if Concerns(e, Opening(n)) then [] else s.nodes[n].effects + if e.EffectPrepared? then [Open] else []
  {
    assert s.nodes[n].effects + [] == s.nodes[n].effects;
  }

  lemma EffectFound(w: Workflow, s: RunState, e: Event, n: NodeId)
    requires Declared(w) && Matches(w, s) && Accepts(w, s, e) && Target(e) == Some(n)
    requires e.EffectSettled? || e.EffectReconciled?
    ensures var before := s.nodes[n].effects;
            && e.index < |before| && before[e.index].Open?
            && NodeAfter(w, s, e).effects == before[e.index := if e.applied then Applied else NotApplied]
  {
  }

  lemma EffectStep(w: Workflow, s: RunState, e: Event, n: NodeId)
    requires Declared(w) && Matches(w, s) && Accepts(w, s, e) && n < |w.nodes|
    ensures var before, after := s.nodes[n].effects, Effect(w, s, e).nodes[n].effects;
            if Concerns(e, Opening(n)) then after == []
            else if e == EffectPrepared(n) then after == before + [Open]
            else if (e.EffectSettled? || e.EffectReconciled?) && e.node == n then
              && e.index < |before| && before[e.index].Open?
              && after == before[e.index := if e.applied then Applied else NotApplied]
            else after == before
  {
    NodeStep(w, s, e, n);
    if Target(e) == Some(n) {
      if e.EffectSettled? || e.EffectReconciled? {
        EffectFound(w, s, e, n);
      } else {
        EffectsOpened(w, s, e, n);
      }
    }
  }

  /** A node's effects are those prepared in its current attempt, each as it was last found. */
  lemma {:induction false} EffectsAreRead(w: Workflow, ledger: seq<Event>, n: NodeId)
    requires Declared(w) && Replayed(w, ledger).Some? && n < |w.nodes|
    ensures |FinalState(w, ledger).nodes[n].effects| == PreparedIn(ledger, n)
    ensures forall i: nat | i < PreparedIn(ledger, n) ::
              FinalState(w, ledger).nodes[n].effects[i] == EffectRead(ledger, n, i)
  {
    if |ledger| > 0 {
      var before := ledger[..|ledger| - 1];
      LastAccepted(w, ledger);
      EffectsAreRead(w, before, n);
      EffectStep(w, FinalState(w, before), ledger[|ledger| - 1], n);
      UnpreparedIsOpen(w, before, n, PreparedIn(before, n));
    }
  }

  /** Nothing is found of an effect before it is prepared. */
  lemma {:induction false} UnpreparedIsOpen(w: Workflow, ledger: seq<Event>, n: NodeId, i: nat)
    requires Declared(w) && Replayed(w, ledger).Some? && n < |w.nodes| && i >= PreparedIn(ledger, n)
    requires |FinalState(w, ledger).nodes[n].effects| == PreparedIn(ledger, n)
    ensures EffectRead(ledger, n, i) == Open
  {
    if |ledger| > 0 {
      var before := ledger[..|ledger| - 1];
      LastAccepted(w, ledger);
      EffectStep(w, FinalState(w, before), ledger[|ledger| - 1], n);
      if !Concerns(ledger[|ledger| - 1], Opening(n)) {
        UnpreparedIsOpen(w, before, n, i);
      }
    }
  }

  /** The node's last failure said that it may be retried. */
  predicate RetryRead(ledger: seq<Event>, n: NodeId) {
    match Latest(ledger, Standing(n)) case None => false case Some(i) => ledger[i].NodeFailed? && ledger[i].mayRetry
  }

  lemma RetryReadStep(ledger: seq<Event>, n: NodeId)
    requires |ledger| > 0
    ensures var e := ledger[|ledger| - 1];
            RetryRead(ledger, n) <==>
              if MovesNode(e, n) then e.NodeFailed? && e.mayRetry else RetryRead(ledger[..|ledger| - 1], n)
  {
    var before := ledger[..|ledger| - 1];
    assert forall i | 0 <= i < |before| :: before[i] == ledger[i];
  }

  lemma RetryAfter(w: Workflow, s: RunState, e: Event, n: NodeId)
    requires Declared(w) && Matches(w, s) && Accepts(w, s, e) == true && Target(e) == Some(n)
    ensures var after := NodeAfter(w, s, e);
            after.status.Failed? ==>
              (after.retryable <==> if MovesNode(e, n) then e.NodeFailed? && e.mayRetry else s.nodes[n].retryable)
  {
  }

  /** A failed node may be retried exactly when the record of its failure says so. */
  lemma {:induction false} RetryIsRead(w: Workflow, ledger: seq<Event>, n: NodeId)
    requires Declared(w) && Replayed(w, ledger).Some? && n < |w.nodes| && FinalState(w, ledger).nodes[n].status.Failed?
    ensures FinalState(w, ledger).nodes[n].retryable <==> RetryRead(ledger, n)
  {
    if |ledger| > 0 {
      var before := ledger[..|ledger| - 1];
      LastAccepted(w, ledger);
      RetryReadStep(ledger, n);
      NodeStep(w, FinalState(w, before), ledger[|ledger| - 1], n);
      if Target(ledger[|ledger| - 1]) == Some(n) {
        RetryAfter(w, FinalState(w, before), ledger[|ledger| - 1], n);
      }
      StandingStep(w, FinalState(w, before), ledger[|ledger| - 1], n);
      if !MovesNode(ledger[|ledger| - 1], n) {
        RetryIsRead(w, before, n);
      }
    }
  }

  // ---------------------------------------------------------------------
  // Evidence and decisions
  // ---------------------------------------------------------------------

  /** The first i records show this evidence of the node: it was recorded as the node's
      output, or the node is a result and published what was shown of its source. */
  ghost predicate Shown(w: Workflow, ledger: seq<Event>, i: nat, n: NodeId, seen: Evidence)
    requires i <= |ledger|
  {
    exists j :: 0 <= j < i && ShownBy(w, ledger, j, n, seen)
  }

  ghost predicate ShownBy(w: Workflow, ledger: seq<Event>, j: nat, n: NodeId, seen: Evidence)
    requires j < |ledger|
    decreases j
  {
    || (ledger[j].NodeSucceeded? && ledger[j].node == n && ledger[j].output == seen)
    || (&& ledger[j] == ResultPublished(n) && n < |w.nodes| && w.nodes[n].kind.Result?
        && exists k :: 0 <= k < j && ShownBy(w, ledger, k, w.nodes[n].kind.source, seen))
  }

  function Deciding(e: Event): Option<Control> {
    match e
    case ConditionEvaluated(_, selected) => Some(ConditionDecided(selected))
    case LoopChecked(_, stop) => Some(LoopDecided(stop))
    case OptimizationChecked(_, stop) => Some(OptimizationDecided(stop))
    case _ => None
  }

  predicate DecidedBy(ledger: seq<Event>, n: NodeId, control: Control) {
    exists i :: 0 <= i < |ledger| && Deciding(ledger[i]) == Some(control) && ledger[i].node == n
  }

  lemma EvidenceAfter(w: Workflow, s: RunState, e: Event, n: NodeId)
    requires Declared(w) && Matches(w, s) && Accepts(w, s, e) && Target(e) == Some(n)
    requires s.nodes[n].evidence.Some? ==> s.nodes[n].status.Succeeded?
    ensures var after := NodeAfter(w, s, e);
            && (after.evidence.Some? ==> after.status.Succeeded?)
            && (e.NodeSucceeded? ==> s.nodes[n].evidence.None? && after.evidence == Some(e.output))
            && (e.ResultPublished? ==>
                  && w.nodes[n].kind.Result? && s.nodes[n].evidence.None?
                  && after.evidence.Some? && after.evidence == Source(s, w.nodes[n].kind.source))
            && (!e.NodeSucceeded? && !e.ResultPublished? ==> after.evidence == s.nodes[n].evidence)
  {
  }

  lemma EvidenceStep(w: Workflow, s: RunState, e: Event, n: NodeId)
    requires Declared(w) && Matches(w, s) && Accepts(w, s, e) && n < |w.nodes|
    requires forall m | 0 <= m < |s.nodes| && s.nodes[m].evidence.Some? :: s.nodes[m].status.Succeeded?
    ensures var after := Effect(w, s, e).nodes[n];
            && (after.evidence.Some? ==> after.status.Succeeded?)
            && (e.NodeSucceeded? && e.node == n ==> s.nodes[n].evidence.None? && after.evidence == Some(e.output))
            && (e == ResultPublished(n) ==>
                  && w.nodes[n].kind.Result? && s.nodes[n].evidence.None?
                  && after.evidence.Some? && after.evidence == s.nodes[w.nodes[n].kind.source].evidence)
            && (!(e.NodeSucceeded? && e.node == n) && e != ResultPublished(n) ==> after.evidence == s.nodes[n].evidence)
  {
    assert RefsInRange(w, w.nodes[n]);
    NodeStep(w, s, e, n);
    if Target(e) == Some(n) {
      EvidenceAfter(w, s, e, n);
    }
  }

  ghost predicate EvidenceAgrees(w: Workflow, ledger: seq<Event>, i: nat, n: NodeId)
    requires Declared(w) && i <= |ledger| && Replayed(w, ledger[..i]).Some? && n < |w.nodes|
  {
    && (StateAt(w, ledger, i).nodes[n].evidence.Some? ==> StateAt(w, ledger, i).nodes[n].status.Succeeded?)
    && forall seen :: StateAt(w, ledger, i).nodes[n].evidence == Some(seen) <==> Shown(w, ledger, i, n, seen)
  }

  lemma ShownStep(w: Workflow, ledger: seq<Event>, i: nat, n: NodeId, seen: Evidence)
    requires i < |ledger|
    ensures Shown(w, ledger, i + 1, n, seen) <==> Shown(w, ledger, i, n, seen) || ShownBy(w, ledger, i, n, seen)
    ensures ledger[i] == ResultPublished(n) && n < |w.nodes| && w.nodes[n].kind.Result? ==>
              (ShownBy(w, ledger, i, n, seen) <==> Shown(w, ledger, i, w.nodes[n].kind.source, seen))
  {
  }

  /** What a step makes of a node's evidence is what its record shows. */
  lemma StepIsShown(w: Workflow, ledger: seq<Event>, i: nat, n: NodeId, held: seq<Option<Evidence>>,
                    after: Option<Evidence>)
    requires Declared(w) && i < |ledger| && n < |w.nodes| && |held| == |w.nodes|
    requires forall m, seen | 0 <= m < |w.nodes| :: held[m] == Some(seen) <==> Shown(w, ledger, i, m, seen)
    requires ledger[i].NodeSucceeded? && ledger[i].node == n ==> held[n].None? && after == Some(ledger[i].output)
    requires ledger[i] == ResultPublished(n) ==>
               w.nodes[n].kind.Result? && w.nodes[n].kind.source < |w.nodes| && held[n].None?
               && after == held[w.nodes[n].kind.source]
    requires !(ledger[i].NodeSucceeded? && ledger[i].node == n) && ledger[i] != ResultPublished(n) ==> after == held[n]
    ensures forall seen :: after == Some(seen) <==> Shown(w, ledger, i + 1, n, seen)
  {
    forall seen
      ensures after == Some(seen) <==> Shown(w, ledger, i + 1, n, seen)
    {
      ShownStep(w, ledger, i, n, seen);
    }
  }

  lemma AgreesAt(w: Workflow, ledger: seq<Event>, i: nat, n: NodeId, seen: Evidence)
    requires Declared(w) && i <= |ledger| && Replayed(w, ledger[..i]).Some? && n < |w.nodes|
    requires EvidenceAgrees(w, ledger, i, n)
    ensures StateAt(w, ledger, i).nodes[n].evidence.Some? ==> StateAt(w, ledger, i).nodes[n].status.Succeeded?
    ensures StateAt(w, ledger, i).nodes[n].evidence == Some(seen) <==> Shown(w, ledger, i, n, seen)
  {
  }

  lemma EvidenceAgreesAfter(w: Workflow, ledger: seq<Event>, i: nat, n: NodeId, s: RunState, e: Event, after: NodeState)
    requires Declared(w) && i < |ledger| && n < |w.nodes| && Replayed(w, ledger[..i]).Some?
    requires s == StateAt(w, ledger, i) && e == ledger[i] && Accepts(w, s, e) && after == Effect(w, s, e).nodes[n]
    requires forall m | 0 <= m < |w.nodes| :: EvidenceAgrees(w, ledger, i, m)
    ensures after.evidence.Some? ==> after.status.Succeeded?
    ensures forall seen :: after.evidence == Some(seen) <==> Shown(w, ledger, i + 1, n, seen)
  {
    forall m, seen | 0 <= m < |w.nodes|
      ensures s.nodes[m].evidence.Some? ==> s.nodes[m].status.Succeeded?
      ensures s.nodes[m].evidence == Some(seen) <==> Shown(w, ledger, i, m, seen)
    {
      AgreesAt(w, ledger, i, m, seen);
    }
    EvidenceStep(w, s, e, n);
    assert RefsInRange(w, w.nodes[n]);
    var held := seq(|w.nodes|, m requires 0 <= m < |w.nodes| => s.nodes[m].evidence);
    StepIsShown(w, ledger, i, n, held, after.evidence);
  }

  /** The evidence a node holds is what the records show of it. */
  lemma {:induction false} EvidenceIsRead(w: Workflow, ledger: seq<Event>, i: nat)
    requires Declared(w) && i <= |ledger| && Replayed(w, ledger).Some?
    ensures Replayed(w, ledger[..i]).Some?
    ensures forall n | 0 <= n < |w.nodes| :: EvidenceAgrees(w, ledger, i, n)
    decreases i
  {
    PrefixesReplay(w, ledger, i);
    if i > 0 {
      EvidenceIsRead(w, ledger, i - 1);
      AcceptedAt(w, ledger, i - 1);
      forall n | 0 <= n < |w.nodes|
        ensures EvidenceAgrees(w, ledger, i, n)
      {
        EvidenceAgreesAfter(w, ledger, i - 1, n, StateAt(w, ledger, i - 1), ledger[i - 1],
                            StateAt(w, ledger, i).nodes[n]);
      }
    }
  }

  /** What a control record may read of a node. */
  lemma SourceIsShown(w: Workflow, ledger: seq<Event>, i: nat, n: NodeId, seen: Evidence)
    requires Declared(w) && i <= |ledger| && Replayed(w, ledger).Some? && n < |w.nodes|
    ensures Replayed(w, ledger[..i]).Some?
    ensures Source(StateAt(w, ledger, i), n) == Some(seen) <==> Shown(w, ledger, i, n, seen)
  {
    EvidenceIsRead(w, ledger, i);
    assert EvidenceAgrees(w, ledger, i, n);
  }

  /** The records never show two things of one node. */
  lemma ShownOnce(w: Workflow, ledger: seq<Event>, i: nat, n: NodeId, a: Evidence, b: Evidence)
    requires Declared(w) && i <= |ledger| && Replayed(w, ledger).Some? && n < |w.nodes|
    requires Shown(w, ledger, i, n, a) && Shown(w, ledger, i, n, b)
    ensures a == b
  {
    SourceIsShown(w, ledger, i, n, a);
    SourceIsShown(w, ledger, i, n, b);
  }

  lemma DecisionStep(w: Workflow, s: RunState, e: Event, n: NodeId)
    requires Declared(w) && Matches(w, s) && Accepts(w, s, e) && n < |w.nodes|
    ensures var after := Effect(w, s, e).nodes[n].control;
            after == if Deciding(e).Some? && e.node == n then Deciding(e).value else s.nodes[n].control
    ensures Deciding(e).Some? && e.node == n ==> s.nodes[n].status.Pending?
  {
  }

  lemma DecidedByStep(ledger: seq<Event>, n: NodeId, control: Control)
    requires |ledger| > 0
    ensures DecidedBy(ledger, n, control) <==>
            || DecidedBy(ledger[..|ledger| - 1], n, control)
            || (Deciding(ledger[|ledger| - 1]) == Some(control) && ledger[|ledger| - 1].node == n)
  {
    var before := ledger[..|ledger| - 1];
    assert forall i | 0 <= i < |before| :: before[i] == ledger[i];
  }

  /** No record decides for a node before it is settled, and none after. */
  lemma {:induction false} DecidedOnlyOnce(w: Workflow, ledger: seq<Event>, n: NodeId, control: Control)
    requires Declared(w) && Replayed(w, ledger).Some? && n < |w.nodes| && DecidedBy(ledger, n, control)
    ensures Settled(FinalState(w, ledger).nodes[n])
  {
    if |ledger| > 0 {
      var before, e := ledger[..|ledger| - 1], ledger[|ledger| - 1];
      LastAccepted(w, ledger);
      DecidedByStep(ledger, n, control);
      StandingStep(w, FinalState(w, before), e, n);
      if DecidedBy(before, n, control) {
        DecidedOnlyOnce(w, before, n, control);
        SettledIsAbsorbing(w, FinalState(w, before), e);
      }
    }
  }

  /** A node carries a decision exactly when a record decided so. */
  lemma {:induction false} DecisionIsRead(w: Workflow, ledger: seq<Event>, n: NodeId, control: Control)
    requires Declared(w) && Replayed(w, ledger).Some? && n < |w.nodes| && control != Undecided
    ensures FinalState(w, ledger).nodes[n].control == control <==> DecidedBy(ledger, n, control)
  {
    if |ledger| > 0 {
      var before, e := ledger[..|ledger| - 1], ledger[|ledger| - 1];
      LastAccepted(w, ledger);
      DecisionIsRead(w, before, n, control);
      DecisionStep(w, FinalState(w, before), e, n);
      DecidedByStep(ledger, n, control);
      if DecidedBy(before, n, control) {
        DecidedOnlyOnce(w, before, n, control);
      }
    }
  }
}
