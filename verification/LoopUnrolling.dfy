/** The unrolled, guarded iterations of a loop behave as one bounded do-until. */
module LoopUnrolling {
  import opened Standard
  import opened WorkflowGraph
  import opened RunReducer
  import opened Scheduler
  import opened RunSafety
  import opened SchedulerProgress

  predicate InIteration(w: Workflow, n: NodeId, loopId: NodeId, k: nat) {
    n < |w.nodes| && w.nodes[n].instance == Some(LoopInstance(loopId, k))
  }

  predicate AllInIteration(w: Workflow, ids: seq<NodeId>, loopId: NodeId, k: nat) {
    |ids| > 0 && forall i | 0 <= i < |ids| :: InIteration(w, ids[i], loopId, k)
  }

  /** A node of a later iteration is its entry, guarded by the check before it, or
      depends only on nodes of the same iteration. */
  predicate InstanceDeclared(w: Workflow, n: NodeId, checks: seq<NodeId>, loopId: NodeId, k: nat)
    requires n < |w.nodes| && 2 <= k <= |checks|
  {
    var node := w.nodes[n];
    && (node.kind.Guardable() || node.kind.Join?)
    && ((node.kind.Guardable() && node.loopGuard == Some(checks[k - 2]))
      || AllInIteration(w, node.dependsOn, loopId, k))
  }

  /** The iteration structure the run ledger validates before a run starts. */
  predicate LoopDeclared(w: Workflow, l: NodeId)
    requires Declared(w) && l < |w.nodes| && w.nodes[l].kind.Loop?
  {
    var checks := w.nodes[l].kind.checks;
    && w.nodes[l].dependsOn == checks
    && (forall i | 0 <= i < |checks| ::
          && checks[i] < |w.nodes| && w.nodes[checks[i]].kind.LoopCheck?
          && w.nodes[checks[i]].kind.iteration == i + 1
          && AllInIteration(w, w.nodes[checks[i]].dependsOn, l, i + 1))
    && (forall n: nat, k: nat | n < |w.nodes| && 2 <= k <= |checks| && InIteration(w, n, l, k) ::
          InstanceDeclared(w, n, checks, l, k))
  }

  predicate Begun(n: NodeState) {
    n.status.Running? || n.status.Succeeded? || n.status.Failed?
  }

  /** A node of iteration k + 1 runs only after check k said to continue. */
  lemma {:induction false} BodyNeedsContinue(w: Workflow, s: RunState, rank: seq<nat>, l: NodeId, n: NodeId, k: nat)
    requires WellFormed(w) && Ranks(w, rank) && Sound(w, s)
    requires l < |w.nodes| && w.nodes[l].kind.Loop? && LoopDeclared(w, l)
    requires 2 <= k <= |w.nodes[l].kind.checks| && InIteration(w, n, l, k) && Begun(s.nodes[n])
    ensures s.nodes[w.nodes[l].kind.checks[k - 2]].control == LoopDecided(false)
    decreases rank[n]
  {
    var checks := w.nodes[l].kind.checks;
    var node := w.nodes[n];
    assert InstanceDeclared(w, n, checks, l, k) && NodeSound(w, s, n) && Justified(w, s, n);
    if !(node.kind.Guardable() && node.loopGuard == Some(checks[k - 2])) {
      assert AllInIteration(w, node.dependsOn, l, k);
      var i: nat := 0;
      if node.kind.Join? {
        assert JoinTook(w, s, n);
        i :| 0 <= i < |node.dependsOn| && s.nodes[node.dependsOn[i]].status.Succeeded?;
      }
      assert s.nodes[node.dependsOn[i]].status.Succeeded?;
      BodyNeedsContinue(w, s, rank, l, node.dependsOn[i], k);
    }
  }

  /** Check k + 1 decides only after check k said to continue. */
  lemma DecisionNeedsContinue(w: Workflow, s: RunState, l: NodeId, k: nat)
    requires WellFormed(w) && Sound(w, s)
    requires l < |w.nodes| && w.nodes[l].kind.Loop? && LoopDeclared(w, l)
    requires 2 <= k <= |w.nodes[l].kind.checks|
    requires s.nodes[w.nodes[l].kind.checks[k - 1]].control.LoopDecided?
    ensures s.nodes[w.nodes[l].kind.checks[k - 2]].control == LoopDecided(false)
  {
    var check := w.nodes[l].kind.checks[k - 1];
    assert NodeSound(w, s, check);
    assert DependenciesSucceeded(w, s, check);
    var rank :| Ranks(w, rank);
    assert AllInIteration(w, w.nodes[check].dependsOn, l, k);
    assert InIteration(w, w.nodes[check].dependsOn[0], l, k);
    BodyNeedsContinue(w, s, rank, l, w.nodes[check].dependsOn[0], k);
  }

  predicate Decides(s: RunState, check: NodeId) {
    check < |s.nodes| && s.nodes[check].control.LoopDecided?
  }

  predicate Continued(s: RunState, check: NodeId) {
    check < |s.nodes| && s.nodes[check].control == LoopDecided(false)
  }

  /** No check has decided before every earlier one said to continue. */
  predicate InOrder(s: RunState, checks: seq<NodeId>) {
    forall i, j | 0 <= i < j < |checks| && Decides(s, checks[j]) :: Continued(s, checks[i])
  }

  lemma {:induction false} EarlierContinued(s: RunState, checks: seq<NodeId>, i: nat, j: nat)
    requires forall k | 0 < k < |checks| && Decides(s, checks[k]) :: Continued(s, checks[k - 1])
    requires i < j < |checks| && Decides(s, checks[j])
    ensures Continued(s, checks[i])
    decreases j
  {
    assert Continued(s, checks[j - 1]);
    if i < j - 1 {
      EarlierContinued(s, checks, i, j - 1);
    }
  }

  /** When any check has decided, every earlier one said to continue. */
  lemma ChecksInOrder(w: Workflow, s: RunState, l: NodeId)
    requires WellFormed(w) && Sound(w, s)
    requires l < |w.nodes| && w.nodes[l].kind.Loop? && LoopDeclared(w, l)
    ensures InOrder(s, w.nodes[l].kind.checks)
  {
    var checks := w.nodes[l].kind.checks;
    forall k | 0 < k < |checks| && Decides(s, checks[k])
      ensures Continued(s, checks[k - 1])
    {
      DecisionNeedsContinue(w, s, l, k + 1);
    }
    forall i, j | 0 <= i < j < |checks| && Decides(s, checks[j])
      ensures Continued(s, checks[i])
    {
      EarlierContinued(s, checks, i, j);
    }
  }

  lemma EnteredByContinue(w: Workflow, s: RunState, l: NodeId, n: NodeId, k: nat)
    requires WellFormed(w) && Sound(w, s)
    requires l < |w.nodes| && w.nodes[l].kind.Loop? && LoopDeclared(w, l)
    requires 2 <= k <= |w.nodes[l].kind.checks| && InIteration(w, n, l, k) && Begun(s.nodes[n])
    ensures Continued(s, w.nodes[l].kind.checks[k - 2])
  {
    var rank :| Ranks(w, rank);
    BodyNeedsContinue(w, s, rank, l, n, k);
  }

  /** Safety of the unrolling: the body of iteration k runs only if checks 1 to k - 1
      all said to continue. */
  lemma IterationsInOrder(w: Workflow, s: RunState, l: NodeId, n: NodeId, k: nat, i: nat)
    requires WellFormed(w) && Sound(w, s)
    requires l < |w.nodes| && w.nodes[l].kind.Loop? && LoopDeclared(w, l)
    requires 2 <= k <= |w.nodes[l].kind.checks| && InIteration(w, n, l, k) && Begun(s.nodes[n])
    requires i < k - 1
    ensures Continued(s, w.nodes[l].kind.checks[i])
  {
    EnteredByContinue(w, s, l, n, k);
    ContinuedBefore(w, s, l, i, k - 2);
  }

  lemma ContinuedBefore(w: Workflow, s: RunState, l: NodeId, i: nat, j: nat)
    requires WellFormed(w) && Sound(w, s)
    requires l < |w.nodes| && w.nodes[l].kind.Loop? && LoopDeclared(w, l)
    requires i <= j < |w.nodes[l].kind.checks| && Continued(s, w.nodes[l].kind.checks[j])
    ensures Continued(s, w.nodes[l].kind.checks[i])
  {
    ChecksInOrder(w, s, l);
    assert Decides(s, w.nodes[l].kind.checks[j]);
  }

  /** At most one check of a loop ever says to stop. */
  lemma OneStop(w: Workflow, s: RunState, l: NodeId, i: nat, j: nat)
    requires WellFormed(w) && Sound(w, s)
    requires l < |w.nodes| && w.nodes[l].kind.Loop? && LoopDeclared(w, l)
    requires i < |w.nodes[l].kind.checks| && j < |w.nodes[l].kind.checks|
    requires s.nodes[w.nodes[l].kind.checks[i]].control == LoopDecided(true)
    requires s.nodes[w.nodes[l].kind.checks[j]].control == LoopDecided(true)
    ensures i == j
  {
    ChecksInOrder(w, s, l);
    var checks := w.nodes[l].kind.checks;
    assert Decides(s, checks[i]) && Decides(s, checks[j]) && !Continued(s, checks[i]) && !Continued(s, checks[j]);
  }

  // ---------------------------------------------------------------------
  // The loop as one do-until
  // ---------------------------------------------------------------------

  datatype Outcome = Finished(iterations: nat) | LimitReached

  /** A do-until bounded by its own list of stop tests: it ends with the first
      iteration whose test holds, or at the limit. */
  function DoUntil(tests: seq<bool>): Outcome {
    if |tests| == 0 then LimitReached
    else if tests[0] then Finished(1)
    else match DoUntil(tests[1..])
      case Finished(k) => Finished(k + 1)
      case LimitReached => LimitReached
  }

  /** The tests a run has made: the decided prefix of the checks. */
  function Tests(s: RunState, checks: seq<NodeId>): seq<bool> {
    if |checks| == 0 || checks[0] >= |s.nodes| || !s.nodes[checks[0]].control.LoopDecided? then []
    else [s.nodes[checks[0]].control.stop] + Tests(s, checks[1..])
  }

  function Recorded(outcome: Outcome, l: NodeId, checks: seq<NodeId>): Event
    requires outcome.Finished? ==> 0 < outcome.iterations <= |checks|
  {
    match outcome
    case Finished(k) => LoopCompleted(l, k, checks[k - 1])
    case LimitReached => ControlFailed(l)
  }

  lemma {:induction false} FirstStopIsDoUntil(s: RunState, checks: seq<NodeId>)
    requires InOrder(s, checks)
    ensures DoUntil(Tests(s, checks)) ==
            match FirstStop(s, checks) case Some(i) => Finished(i + 1) case None => LimitReached
    ensures FirstStop(s, checks).Some? ==> |Tests(s, checks)| == FirstStop(s, checks).value + 1
  {
    if |checks| > 0 {
      var rest := checks[1..];
      assert forall i | 0 <= i < |rest| :: rest[i] == checks[i + 1];
      FirstStopIsDoUntil(s, rest);
    }
  }

  lemma {:induction false} AllDecided(s: RunState, checks: seq<NodeId>)
    requires forall i | 0 <= i < |checks| :: Continued(s, checks[i])
    ensures |Tests(s, checks)| == |checks|
  {
    if |checks| > 0 {
      assert forall i | 0 <= i < |checks[1..]| :: checks[1..][i] == checks[i + 1];
      AllDecided(s, checks[1..]);
    }
  }

  lemma LimitHasNoOmission(w: Workflow, s: RunState, l: NodeId)
    requires Declared(w) && Matches(w, s) && l < |w.nodes| && w.nodes[l].kind.Loop?
    requires Ready(w, s, l) == Some(CompleteLoop(l)) && FirstStop(s, w.nodes[l].kind.checks).None?
    ensures OmittedAmong(s, w.nodes[l].dependsOn) == []
  {
  }

  /** When the controller completes without a stop, every check said to continue. */
  lemma LimitMeansContinued(w: Workflow, s: RunState, l: NodeId)
    requires WellFormed(w) && Sound(w, s) && l < |w.nodes| && w.nodes[l].kind.Loop?
    requires Ready(w, s, l) == Some(CompleteLoop(l)) && FirstStop(s, w.nodes[l].kind.checks).None?
    ensures forall i | 0 <= i < |w.nodes[l].kind.checks| :: Continued(s, w.nodes[l].kind.checks[i])
  {
    var checks := w.nodes[l].kind.checks;
    assert KindDeclared(w, w.nodes[l]) && RefsInRange(w, w.nodes[l]);
    LimitHasNoOmission(w, s, l);
    NoneOmitted(w, s, l);
    forall i | 0 <= i < |checks|
      ensures Continued(s, checks[i])
    {
      assert w.nodes[checks[i]].kind.LoopCheck? && NodeSound(w, s, checks[i]);
      assert s.nodes[w.nodes[l].dependsOn[i]].status.Succeeded?;
    }
  }

  /** The record a completing controller makes is the outcome of the do-until over the
      tests its run made; a stop is the last test made, and the limit failure means
      that every check said to continue. */
  lemma ControllerRefinesDoUntil(w: Workflow, s: RunState, l: NodeId)
    requires WellFormed(w) && Sound(w, s)
    requires l < |w.nodes| && w.nodes[l].kind.Loop? && LoopDeclared(w, l)
    requires Ready(w, s, l) == Some(CompleteLoop(l))
    ensures var checks := w.nodes[l].kind.checks;
            var outcome := DoUntil(Tests(s, checks));
            && (outcome.Finished? ==> 0 < outcome.iterations <= |checks| && outcome.iterations == |Tests(s, checks)|)
            && ControlEvent(w, s, CompleteLoop(l)) == Some(Recorded(outcome, l, checks))
            && (outcome.LimitReached? <==> forall i | 0 <= i < |checks| :: Continued(s, checks[i]))
  {
    var checks := w.nodes[l].kind.checks;
    ChecksInOrder(w, s, l);
    FirstStopIsDoUntil(s, checks);
    match FirstStop(s, checks)
    case None => LimitMeansContinued(w, s, l);
    case Some(i) => assert !Continued(s, checks[i]);
  }

  lemma CompletionAccepted(w: Workflow, s: RunState, l: NodeId)
    requires Declared(w) && Matches(w, s) && ControlStep(s) && !SomeStatus(s, Failed)
    requires l < |w.nodes| && w.nodes[l].kind.Loop? && DependenciesSettled(w, s, l)
    requires s.nodes[l].status.Pending? && s.nodes[l].attempt == 0
    requires match FirstStop(s, w.nodes[l].kind.checks)
             case None => forall i | 0 <= i < |w.nodes[l].kind.checks| :: Continued(s, w.nodes[l].kind.checks[i])
             case Some(i) =>
               var check := w.nodes[l].kind.checks[i];
               check < |w.nodes| && w.nodes[check].kind.LoopCheck? && w.nodes[check].kind.iteration == i + 1
    ensures ControlEvent(w, s, CompleteLoop(l)).Some? && Accepts(w, s, ControlEvent(w, s, CompleteLoop(l)).value)
  {
    var e := ControlEvent(w, s, CompleteLoop(l)).value;
    assert e.LoopCompleted? || e.ControlFailed?;
    assert AcceptsControl(w, s, e);
  }

  /** The reducer accepts that record, so the loop is settled by its own outcome. */
  lemma OutcomeIsAccepted(w: Workflow, s: RunState, l: NodeId)
    requires WellFormed(w) && Sound(w, s) && ControlStep(s) && !SomeStatus(s, Failed)
    requires l < |w.nodes| && w.nodes[l].kind.Loop?
    requires Ready(w, s, l) == Some(CompleteLoop(l))
    ensures ControlEvent(w, s, CompleteLoop(l)).Some? && Accepts(w, s, ControlEvent(w, s, CompleteLoop(l)).value)
  {
    var checks := w.nodes[l].kind.checks;
    assert NodeSound(w, s, l) && KindDeclared(w, w.nodes[l]);
    if FirstStop(s, checks).None? {
      LimitMeansContinued(w, s, l);
    }
    CompletionAccepted(w, s, l);
  }
}
