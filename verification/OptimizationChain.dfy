/** The unrolled candidates of an optimization: each is guarded by the check of the
    one before it, so a run tries them in order until a check stops. */
module OptimizationChain {
  import opened Standard
  import opened WorkflowGraph
  import opened RunReducer
  import opened Scheduler
  import opened RunSafety
  import opened SchedulerProgress

  /** The candidate that a check evaluates. */
  function Candidate(w: Workflow, check: NodeId): NodeId
    requires check < |w.nodes| && |w.nodes[check].dependsOn| == 1
  {
    w.nodes[check].dependsOn[0]
  }

  predicate CandidateDeclared(w: Workflow, checks: seq<NodeId>, i: nat)
    requires Declared(w) && i < |checks|
  {
    && checks[i] < |w.nodes| && w.nodes[checks[i]].kind.OptimizationCheck? && |w.nodes[checks[i]].dependsOn| == 1
    && Candidate(w, checks[i]) < |w.nodes|
    && (var check, candidate := w.nodes[checks[i]], w.nodes[Candidate(w, checks[i])];
        && candidate.kind.Child? && candidate.when.None? && candidate.loopGuard.None?
        && check.optimizationGuard == candidate.optimizationGuard
        && (if i == 0 then candidate.optimizationGuard.None?
            else candidate.optimizationGuard == Some(checks[i - 1]) && candidate.dependsOn == [checks[i - 1]]))
  }

  /** What the compiler expands an optimization to. */
  predicate OptimizationDeclared(w: Workflow, o: NodeId)
    requires Declared(w) && o < |w.nodes| && w.nodes[o].kind.Optimization?
  {
    var checks := w.nodes[o].kind.checks;
    |checks| > 0 && w.nodes[o].dependsOn == checks && forall i: nat | i < |checks| :: CandidateDeclared(w, checks, i)
  }

  predicate OptimizationsDeclared(w: Workflow) {
    Declared(w) && forall o | 0 <= o < |w.nodes| && w.nodes[o].kind.Optimization? :: OptimizationDeclared(w, o)
  }

  predicate CheckDecides(s: RunState, check: NodeId) {
    check < |s.nodes| && s.nodes[check].status.Succeeded? && s.nodes[check].control.OptimizationDecided?
  }

  predicate GoesOn(s: RunState, check: NodeId) {
    CheckDecides(s, check) && !s.nodes[check].control.stop
  }

  predicate Stops(s: RunState, check: NodeId) {
    CheckDecides(s, check) && s.nodes[check].control.stop
  }

  /** A candidate begins only after the check before it said to go on. */
  lemma CandidateNeedsGoAhead(w: Workflow, s: RunState, checks: seq<NodeId>, i: nat)
    requires Declared(w) && Sound(w, s) && 0 < i < |checks| && CandidateDeclared(w, checks, i)
    requires Engaged(s.nodes[Candidate(w, checks[i])])
    ensures GoesOn(s, checks[i - 1])
  {
    assert NodeSound(w, s, Candidate(w, checks[i]));
    assert Justified(w, s, Candidate(w, checks[i]));
  }

  lemma DecisionNeedsGoAhead(w: Workflow, s: RunState, checks: seq<NodeId>, i: nat)
    requires Declared(w) && Sound(w, s) && 0 < i < |checks| && CandidateDeclared(w, checks, i)
    requires CheckDecides(s, checks[i])
    ensures GoesOn(s, checks[i - 1])
  {
    assert NodeSound(w, s, checks[i]);
    assert s.nodes[w.nodes[checks[i]].dependsOn[0]].status.Succeeded?;
    CandidateNeedsGoAhead(w, s, checks, i);
  }

  /** Candidate k + 1 begins only after every check up to k decided to go on. */
  lemma {:induction false} CandidatesInOrder(w: Workflow, s: RunState, checks: seq<NodeId>, i: nat, j: nat)
    requires Declared(w) && Sound(w, s) && forall k: nat | k < |checks| :: CandidateDeclared(w, checks, k)
    requires j < i < |checks| && CandidateDeclared(w, checks, i) && Engaged(s.nodes[Candidate(w, checks[i])])
    ensures GoesOn(s, checks[j])
    decreases i
  {
    CandidateNeedsGoAhead(w, s, checks, i);
    if j < i - 1 {
      var check := checks[i - 1];
      assert CandidateDeclared(w, checks, i - 1) && NodeSound(w, s, check);
      assert s.nodes[w.nodes[check].dependsOn[0]].status.Succeeded?;
      CandidatesInOrder(w, s, checks, i - 1, j);
    }
  }

  /** A check is left out only because the one before it was, or said to stop. */
  lemma OmissionNeedsStop(w: Workflow, s: RunState, checks: seq<NodeId>, i: nat)
    requires Declared(w) && Sound(w, s) && 0 < i < |checks| && CandidateDeclared(w, checks, i)
    requires checks[i - 1] < |w.nodes| && w.nodes[checks[i - 1]].kind.OptimizationCheck?
    requires w.nodes[checks[i]].when.None? && w.nodes[checks[i]].loopGuard.None?
    requires HasStatus(s, checks[i], Omitted)
    ensures HasStatus(s, checks[i - 1], Omitted) || Stops(s, checks[i - 1])
  {
    assert NodeSound(w, s, checks[i]) && NodeSound(w, s, Candidate(w, checks[i])) && NodeSound(w, s, checks[i - 1]);
  }

  /** Settled checks of one optimization: decisions to go on, at most one to stop, then omissions. */
  predicate InSequence(s: RunState, checks: seq<NodeId>) {
    && (forall i | 0 <= i < |checks| :: CheckDecides(s, checks[i]) || HasStatus(s, checks[i], Omitted))
    && (forall i | 0 < i < |checks| && CheckDecides(s, checks[i]) :: GoesOn(s, checks[i - 1]))
    && (forall i | 0 < i < |checks| && HasStatus(s, checks[i], Omitted) ::
      HasStatus(s, checks[i - 1], Omitted) || Stops(s, checks[i - 1]))
  }

  lemma ChecksInSequence(w: Workflow, s: RunState, o: NodeId)
    requires WellFormed(w) && Sound(w, s) && o < |w.nodes| && w.nodes[o].kind.Optimization?
    requires OptimizationDeclared(w, o)
    requires DependenciesSettled(w, s, o)
    ensures InSequence(s, w.nodes[o].kind.checks)
  {
    var checks := w.nodes[o].kind.checks;
    forall i: nat | i < |checks|
      ensures CheckDecides(s, checks[i]) || HasStatus(s, checks[i], Omitted)
      ensures 0 < i && CheckDecides(s, checks[i]) ==> GoesOn(s, checks[i - 1])
      ensures 0 < i && HasStatus(s, checks[i], Omitted) ==>
              HasStatus(s, checks[i - 1], Omitted) || Stops(s, checks[i - 1])
    {
      CheckInSequence(w, s, o, i);
    }
  }

  lemma CheckInSequence(w: Workflow, s: RunState, o: NodeId, i: nat)
    requires WellFormed(w) && Sound(w, s) && o < |w.nodes| && w.nodes[o].kind.Optimization?
    requires OptimizationDeclared(w, o)
    requires DependenciesSettled(w, s, o) && i < |w.nodes[o].kind.checks|
    ensures var checks := w.nodes[o].kind.checks;
            && (CheckDecides(s, checks[i]) || HasStatus(s, checks[i], Omitted))
            && (0 < i && CheckDecides(s, checks[i]) ==> GoesOn(s, checks[i - 1]))
            && (0 < i && HasStatus(s, checks[i], Omitted) ==>
              HasStatus(s, checks[i - 1], Omitted) || Stops(s, checks[i - 1]))
  {
    var checks := w.nodes[o].kind.checks;
    assert CandidateDeclared(w, checks, i) && (0 < i ==> CandidateDeclared(w, checks, i - 1));
    assert NodeSound(w, s, checks[i]) && GuardsDeclared(w, w.nodes[checks[i]]);
    assert Settled(s.nodes[w.nodes[o].dependsOn[i]]);
    if 0 < i && CheckDecides(s, checks[i]) {
      DecisionNeedsGoAhead(w, s, checks, i);
    }
    if 0 < i && HasStatus(s, checks[i], Omitted) {
      OmissionNeedsStop(w, s, checks, i);
    }
  }

  // ---------------------------------------------------------------------
  // Completion
  // ---------------------------------------------------------------------

  lemma TailInSequence(s: RunState, checks: seq<NodeId>)
    requires InSequence(s, checks) && |checks| > 0
    ensures InSequence(s, checks[1..])
  {
    var rest := checks[1..];
    assert forall i | 0 <= i < |rest| :: rest[i] == checks[i + 1];
  }

  /** After an omitted check, or one that stopped, every check is omitted. */
  lemma {:induction false} NothingFollowsStop(s: RunState, checks: seq<NodeId>)
    requires InSequence(s, checks) && (|checks| > 0 ==> HasStatus(s, checks[0], Omitted))
    requires forall i | 0 <= i < |checks| :: checks[i] < |s.nodes|
    requires forall i | 0 <= i < |checks| :: s.nodes[checks[i]].status.Omitted? ==>
             !s.nodes[checks[i]].control.OptimizationDecided?
    ensures DecidedChecks(s, checks) == []
    ensures CompletedChecks(s, checks, true) == Some([])
    ensures |checks| > 0 ==> CompletedChecks(s, checks, false) == None
  {
    if |checks| > 0 {
      TailInSequence(s, checks);
      if |checks| > 1 {
        assert checks[1..][0] == checks[1];
        assert !CheckDecides(s, checks[0]);
      }
      NothingFollowsStop(s, checks[1..]);
    }
  }

  /** The checks the controller reports are those the reducer counts, and the last of
      them stopped unless every candidate was tried. */
  lemma {:induction false} ReportedAreCounted(s: RunState, checks: seq<NodeId>)
    requires InSequence(s, checks) && |checks| > 0 && CheckDecides(s, checks[0])
    requires forall i | 0 <= i < |checks| :: checks[i] < |s.nodes|
    requires forall i | 0 <= i < |checks| :: s.nodes[checks[i]].status.Omitted? ==>
             !s.nodes[checks[i]].control.OptimizationDecided?
    ensures var done := DecidedChecks(s, checks);
            && |done| > 0 && CompletedChecks(s, checks, false) == Some(done)
            && CheckDecides(s, done[|done| - 1])
            && (Stops(s, done[|done| - 1]) || |done| == |checks|)
  {
    var rest := checks[1..];
    TailInSequence(s, checks);
    if |rest| > 0 {
      assert rest[0] == checks[1];
      if Stops(s, checks[0]) {
        NothingFollowsStop(s, rest);
      } else {
        ReportedAreCounted(s, rest);
      }
    }
  }

  lemma CompletionFits(w: Workflow, s: RunState, o: NodeId)
    requires Declared(w) && Matches(w, s) && ControlStep(s) && !SomeStatus(s, Failed)
    requires o < |w.nodes| && w.nodes[o].kind.Optimization? && DependenciesSettled(w, s, o)
    requires s.nodes[o].status.Pending? && s.nodes[o].attempt == 0
    requires var done := DecidedChecks(s, w.nodes[o].kind.checks);
             && |done| > 0 && CompletedChecks(s, w.nodes[o].kind.checks, false) == Some(done)
             && CheckDecides(s, done[|done| - 1]) && (Stops(s, done[|done| - 1]) || |done| == |w.nodes[o].kind.checks|)
    ensures var e := ControlEvent(w, s, CompleteOptimization(o));
            e.Some? && e.value.OptimizationCompleted? && Accepts(w, s, e.value)
  {
    var e := ControlEvent(w, s, CompleteOptimization(o)).value;
    assert AcceptsControl(w, s, e);
  }

  /** A controller that is due has a completion to record exactly when its first
      candidate was evaluated; the reducer accepts it, and it names the check that
      stopped the search, or the last one. */
  lemma OptimizationCompletesExactly(w: Workflow, s: RunState, o: NodeId)
    requires WellFormed(w) && Sound(w, s) && ControlStep(s) && !SomeStatus(s, Failed)
    requires o < |w.nodes| && w.nodes[o].kind.Optimization? && OptimizationDeclared(w, o)
    requires Ready(w, s, o) == Some(CompleteOptimization(o))
    ensures var checks := w.nodes[o].kind.checks;
            var e := ControlEvent(w, s, CompleteOptimization(o));
            && checks[0] < |s.nodes|
            && (e.Some? <==> s.nodes[checks[0]].status.Succeeded?)
            && (e.Some? ==>
                  && Accepts(w, s, e.value) && e.value.OptimizationCompleted?
                  && e.value.candidates <= |checks| && checks[e.value.candidates - 1] == e.value.terminating
                  && (forall i | 0 <= i < e.value.candidates - 1 :: GoesOn(s, checks[i]))
                  && (Stops(s, e.value.terminating) || e.value.candidates == |checks|))
  {
    var checks := w.nodes[o].kind.checks;
    assert CandidateDeclared(w, checks, 0);
    DueChecks(w, s, o);
    if CheckDecides(s, checks[0]) {
      DecidedCompletes(w, s, o);
    } else {
      NothingFollowsStop(s, checks);
    }
  }

  lemma DueChecks(w: Workflow, s: RunState, o: NodeId)
    requires WellFormed(w) && Sound(w, s) && o < |w.nodes| && w.nodes[o].kind.Optimization?
    requires OptimizationDeclared(w, o)
    requires DependenciesSettled(w, s, o)
    ensures InSequence(s, w.nodes[o].kind.checks)
    ensures forall i | 0 <= i < |w.nodes[o].kind.checks| :: w.nodes[o].kind.checks[i] < |s.nodes|
    ensures forall i | 0 <= i < |w.nodes[o].kind.checks| ::
              var check := s.nodes[w.nodes[o].kind.checks[i]];
              check.status.Omitted? ==> !check.control.OptimizationDecided?
  {
    ChecksInSequence(w, s, o);
    OmittedUndecided(w, s, w.nodes[o].kind.checks);
  }

  lemma DecidedCompletes(w: Workflow, s: RunState, o: NodeId)
    requires WellFormed(w) && Sound(w, s) && ControlStep(s) && !SomeStatus(s, Failed)
    requires o < |w.nodes| && w.nodes[o].kind.Optimization? && OptimizationDeclared(w, o)
    requires Ready(w, s, o) == Some(CompleteOptimization(o)) && CheckDecides(s, w.nodes[o].kind.checks[0])
    ensures var checks := w.nodes[o].kind.checks;
            var e := ControlEvent(w, s, CompleteOptimization(o));
            && e.Some? && Accepts(w, s, e.value) && e.value.OptimizationCompleted?
            && 0 < e.value.candidates <= |checks| && checks[e.value.candidates - 1] == e.value.terminating
            && (forall i | 0 <= i < e.value.candidates - 1 :: GoesOn(s, checks[i]))
            && (Stops(s, e.value.terminating) || e.value.candidates == |checks|)
  {
    var checks := w.nodes[o].kind.checks;
    DueChecks(w, s, o);
    ReportedAreCounted(s, checks);
    CountedIsPrefix(s, checks);
    CompletionReports(w, s, o);
    assert NodeSound(w, s, o);
    CompletionFits(w, s, o);
  }

  lemma OmittedUndecided(w: Workflow, s: RunState, checks: seq<NodeId>)
    requires Declared(w) && Sound(w, s) && forall i: nat | i < |checks| :: CandidateDeclared(w, checks, i)
    ensures forall i | 0 <= i < |checks| :: checks[i] < |s.nodes|
    ensures forall i | 0 <= i < |checks| ::
              s.nodes[checks[i]].status.Omitted? ==> !s.nodes[checks[i]].control.OptimizationDecided?
  {
    forall i | 0 <= i < |checks|
      ensures checks[i] < |s.nodes|
      ensures s.nodes[checks[i]].status.Omitted? ==> !s.nodes[checks[i]].control.OptimizationDecided?
    {
      assert CandidateDeclared(w, checks, i) && NodeSound(w, s, checks[i]);
    }
  }

  /** The completion names as many checks as decided, and the last of them. */
  lemma CompletionReports(w: Workflow, s: RunState, o: NodeId)
    requires Declared(w) && Matches(w, s) && o < |w.nodes| && w.nodes[o].kind.Optimization?
    requires |DecidedChecks(s, w.nodes[o].kind.checks)| > 0
    ensures var done := DecidedChecks(s, w.nodes[o].kind.checks);
            ControlEvent(w, s, CompleteOptimization(o)) == Some(OptimizationCompleted(o, |done|, done[|done| - 1]))
  {
  }

  lemma PrefixGrows(s: RunState, checks: seq<NodeId>, k: nat)
    requires 0 < |checks| && k <= |checks| - 1 && GoesOn(s, checks[0])
    requires forall i | 0 <= i < k - 1 :: GoesOn(s, checks[1..][i])
    ensures [checks[0]] + checks[1..][..k] == checks[..k + 1]
    ensures forall i | 0 <= i < k :: GoesOn(s, checks[i])
  {
    forall i | 0 < i < k
      ensures GoesOn(s, checks[i])
    {
      assert checks[1..][i - 1] == checks[i];
    }
  }

  /** The counted checks come first in the declared order. */
  lemma {:induction false} CountedIsPrefix(s: RunState, checks: seq<NodeId>)
    requires InSequence(s, checks) && |checks| > 0 && CheckDecides(s, checks[0])
    requires forall i | 0 <= i < |checks| :: checks[i] < |s.nodes|
    requires forall i | 0 <= i < |checks| :: s.nodes[checks[i]].status.Omitted? ==>
             !s.nodes[checks[i]].control.OptimizationDecided?
    ensures var done := DecidedChecks(s, checks);
            0 < |done| <= |checks| && done == checks[..|done|] && forall i | 0 <= i < |done| - 1 :: GoesOn(s, checks[i])
  {
    var rest := checks[1..];
    TailInSequence(s, checks);
    assert DecidedChecks(s, checks) == [checks[0]] + DecidedChecks(s, rest);
    if Stops(s, checks[0]) || rest == [] {
      if rest != [] {
        assert rest[0] == checks[1];
      }
      NothingFollowsStop(s, rest);
    } else {
      assert rest[0] == checks[1];
      CountedIsPrefix(s, rest);
      PrefixGrows(s, checks, |DecidedChecks(s, rest)|);
    }
  }
}
