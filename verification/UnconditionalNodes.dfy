/** Nodes outside every case of every condition are never left out, and so the first
    candidate of an optimization is always tried. */
module UnconditionalNodes {
  import opened Standard
  import opened WorkflowGraph
  import opened RunReducer
  import opened Scheduler
  import opened RecoveredHistory
  import opened RunSafety
  import opened LoopUnrolling
  import opened OptimizationChain
  import opened Steering
  import opened CompilerRules
  import opened RegionGraph

  predicate LeftOut(s: RunState, n: NodeId) {
    HasStatus(s, n, Omitted)
  }

  /** A state of an accepted history of a compiled workflow. */
  ghost predicate Reachable(w: Workflow, s: RunState) {
    Compiles(w) && Sound(w, s) && Steered(w, s)
  }

  // ---------------------------------------------------------------------
  // Why a node outside every case may be left out
  // ---------------------------------------------------------------------

  /** A node outside every case is left out for a dependency, or for the check that
      guards it. */
  lemma ReasonLeft(w: Workflow, s: RunState, n: NodeId)
    requires Reachable(w, s) && n < |w.nodes| && Free(w, n) && LeftOut(s, n)
    ensures || DependencyLeft(w, s, n)
            || (w.nodes[n].loopGuard.Some? && HasControl(s, w.nodes[n].loopGuard.value, LoopDecided(true)))
            || w.nodes[n].optimizationGuard.Some?
  {
    FreeUnguarded(w, n);
    assert NodeSound(w, s, n) && OmissionJustified(w, s, n) && RefsInRange(w, w.nodes[n]);
    if i :| 0 <= i < |w.nodes[n].dependsOn| && s.nodes[w.nodes[n].dependsOn[i]].status.Omitted? {
      assert w.nodes[n].dependsOn[i] in w.nodes[n].dependsOn && LeftOut(s, w.nodes[n].dependsOn[i]);
    }
  }

  predicate DependencyLeft(w: Workflow, s: RunState, n: NodeId)
    requires n < |w.nodes|
  {
    exists d :: d in w.nodes[n].dependsOn && d < |w.nodes| && LeftOut(s, d)
  }

  predicate HasControl(s: RunState, n: NodeId, control: Control) {
    n < |s.nodes| && s.nodes[n].control == control
  }

  /** A join outside every case is left out only with its condition, which is outside too. */
  lemma JoinLeft(w: Workflow, s: RunState, n: NodeId)
    requires Reachable(w, s) && n < |w.nodes| && Free(w, n) && LeftOut(s, n) && w.nodes[n].kind.Join?
    ensures var c := w.nodes[n].kind.conditionId;
            && c < |w.nodes| && Free(w, c) && LeftOut(s, c) && w.nodes[c].kind.Condition?
            && w.nodes[c].instance == w.nodes[n].instance && (exists d :: d in w.nodes[n].dependsOn && Above(w, c, d))
  {
    FreeCondition(w, n);
    assert NodeSteered(w, s, n) && KindDeclared(w, w.nodes[n]) && UnrollingRules(w, n);
  }

  lemma ConditionRank(w: Workflow, rank: seq<nat>, n: NodeId)
    requires Declared(w) && Ranks(w, rank) && n < |w.nodes| && w.nodes[n].kind.Join?
    requires w.nodes[n].kind.conditionId < |w.nodes|
    requires exists d :: d in w.nodes[n].dependsOn && Above(w, w.nodes[n].kind.conditionId, d)
    ensures rank[w.nodes[n].kind.conditionId] < rank[n]
  {
    assert RefsInRange(w, w.nodes[n]);
    var d :| d in w.nodes[n].dependsOn && Above(w, w.nodes[n].kind.conditionId, d);
    var i :| 0 <= i < |w.nodes[n].dependsOn| && w.nodes[n].dependsOn[i] == d;
    AboveRank(w, rank, w.nodes[n].kind.conditionId, d);
  }

  // ---------------------------------------------------------------------
  // Later iterations
  // ---------------------------------------------------------------------

  /** The node is part of iteration k of a loop, its check included. */
  predicate PartOf(w: Workflow, l: NodeId, k: nat, n: NodeId)
    requires Declared(w) && l < |w.nodes| && w.nodes[l].kind.Loop?
  {
    && n < |w.nodes| && 0 < k <= |w.nodes[l].kind.checks|
    && (InIteration(w, n, l, k) || n == w.nodes[l].kind.checks[k - 1])
  }

  /** An earlier check of the loop was left out, or said to stop. */
  predicate StoppedBefore(s: RunState, checks: seq<NodeId>, k: nat) {
    exists i :: 0 <= i < k && i < |checks| && (LeftOut(s, checks[i]) || HasControl(s, checks[i], LoopDecided(true)))
  }

  lemma LoopOf(w: Workflow, l: NodeId)
    requires Compiles(w) && l < |w.nodes| && w.nodes[l].kind.Loop?
    ensures LoopDeclared(w, l) && |w.nodes[l].kind.checks| > 0
  {
    assert UnrollingRules(w, l);
  }

  lemma BodyRules(w: Workflow, n: NodeId)
    requires Compiles(w) && n < |w.nodes| && w.nodes[n].instance.Some?
    ensures InstanceRules(w, n)
  {
    assert UnrollingRules(w, n);
  }

  lemma CheckAt(w: Workflow, l: NodeId, k: nat)
    requires Declared(w) && l < |w.nodes| && w.nodes[l].kind.Loop? && LoopDeclared(w, l)
    requires 0 < k <= |w.nodes[l].kind.checks|
    ensures var n := w.nodes[l].kind.checks[k - 1];
            n < |w.nodes| && w.nodes[n].kind.LoopCheck? && AllInIteration(w, w.nodes[n].dependsOn, l, k)
  {
  }

  lemma CheckUnguarded(w: Workflow, n: NodeId)
    requires WellFormed(w) && n < |w.nodes| && w.nodes[n].kind.LoopCheck?
    ensures w.nodes[n].loopGuard.None? && w.nodes[n].optimizationGuard.None?
  {
    assert GuardsDeclared(w, w.nodes[n]);
  }

  lemma AllMeansEach(w: Workflow, ids: seq<NodeId>, l: NodeId, k: nat, d: NodeId)
    requires AllInIteration(w, ids, l, k) && d in ids
    ensures InIteration(w, d, l, k)
  {
    var i :| 0 <= i < |ids| && ids[i] == d;
  }

  lemma BodyDependsOn(w: Workflow, l: NodeId, k: nat, n: NodeId, d: NodeId)
    requires InIteration(w, n, l, k) && InstanceRules(w, n) && k > 1 && d in w.nodes[n].dependsOn
    ensures l < |w.nodes| && w.nodes[l].kind.Loop? && k <= |w.nodes[l].kind.checks|
    ensures InIteration(w, d, l, k) || d == w.nodes[l].kind.checks[k - 2]
  {
    if w.nodes[n].loopGuard.None? {
      AllMeansEach(w, w.nodes[n].dependsOn, l, k, d);
    }
  }

  /** What a part of a later iteration depends on is part of it, or the check before it. */
  lemma PartDependsOnPart(w: Workflow, l: NodeId, k: nat, n: NodeId, d: NodeId)
    requires Compiles(w) && l < |w.nodes| && w.nodes[l].kind.Loop? && PartOf(w, l, k, n) && k > 1
    requires d in w.nodes[n].dependsOn && d < |w.nodes|
    ensures PartOf(w, l, k, d) || d == w.nodes[l].kind.checks[k - 2]
  {
    if InIteration(w, n, l, k) {
      BodyRules(w, n);
      BodyDependsOn(w, l, k, n, d);
    } else {
      LoopOf(w, l);
      CheckAt(w, l, k);
      AllMeansEach(w, w.nodes[n].dependsOn, l, k, d);
    }
  }

  lemma PartGuards(w: Workflow, l: NodeId, k: nat, n: NodeId)
    requires Compiles(w) && l < |w.nodes| && w.nodes[l].kind.Loop? && PartOf(w, l, k, n) && k > 1
    ensures w.nodes[n].optimizationGuard.None?
    ensures w.nodes[n].loopGuard.Some? ==> w.nodes[n].loopGuard.value == w.nodes[l].kind.checks[k - 2]
  {
    if InIteration(w, n, l, k) {
      BodyRules(w, n);
    } else {
      LoopOf(w, l);
      CheckAt(w, l, k);
      CheckUnguarded(w, n);
    }
  }

  /** Another part of the iteration is left out, and comes before this one. */
  ghost predicate PartLeft(w: Workflow, s: RunState, rank: seq<nat>, l: NodeId, k: nat, n: NodeId, d: NodeId)
    requires Reachable(w, s) && |rank| == |w.nodes| && l < |w.nodes| && w.nodes[l].kind.Loop? && n < |w.nodes|
  {
    PartOf(w, l, k, d) && Free(w, d) && LeftOut(s, d) && rank[d] < rank[n]
  }

  lemma JoinPartLeft(w: Workflow, s: RunState, rank: seq<nat>, l: NodeId, k: nat, n: NodeId)
    requires Reachable(w, s) && Ranks(w, rank) && l < |w.nodes| && w.nodes[l].kind.Loop?
    requires PartOf(w, l, k, n) && Free(w, n) && LeftOut(s, n) && w.nodes[n].kind.Join?
    ensures PartLeft(w, s, rank, l, k, n, w.nodes[n].kind.conditionId)
  {
    JoinLeft(w, s, n);
    ConditionRank(w, rank, n);
    JoinIsInBody(w, l, k, n);
  }

  lemma DependencyPartLeft(w: Workflow, s: RunState, rank: seq<nat>, l: NodeId, k: nat, n: NodeId, d: NodeId)
    requires Reachable(w, s) && Ranks(w, rank) && l < |w.nodes| && w.nodes[l].kind.Loop?
    requires PartOf(w, l, k, n) && k > 1 && Free(w, n) && !w.nodes[n].kind.Join?
    requires d in w.nodes[n].dependsOn && d < |w.nodes| && LeftOut(s, d)
    ensures StoppedBefore(s, w.nodes[l].kind.checks, k - 1) || PartLeft(w, s, rank, l, k, n, d)
  {
    PartDependsOnPart(w, l, k, n, d);
    DependencyRank(w, rank, n, d);
    FreeDependency(w, n, d);
  }

  lemma GuardStopped(w: Workflow, s: RunState, l: NodeId, k: nat, n: NodeId)
    requires Reachable(w, s) && l < |w.nodes| && w.nodes[l].kind.Loop? && PartOf(w, l, k, n) && k > 1
    requires Free(w, n) && LeftOut(s, n) && !DependencyLeft(w, s, n)
    ensures StoppedBefore(s, w.nodes[l].kind.checks, k - 1)
  {
    ReasonLeft(w, s, n);
    PartGuards(w, l, k, n);
    assert HasControl(s, w.nodes[l].kind.checks[k - 2], LoopDecided(true));
  }

  /** For what other part a part of a later iteration is left out, if no check before
      stopped it. */
  lemma LaterReason(w: Workflow, s: RunState, rank: seq<nat>, l: NodeId, k: nat, n: NodeId) returns (d: NodeId)
    requires Reachable(w, s) && Ranks(w, rank) && l < |w.nodes| && w.nodes[l].kind.Loop?
    requires PartOf(w, l, k, n) && k > 1 && Free(w, n) && LeftOut(s, n)
    ensures StoppedBefore(s, w.nodes[l].kind.checks, k - 1) || PartLeft(w, s, rank, l, k, n, d)
  {
    d := n;
    if w.nodes[n].kind.Join? {
      d := w.nodes[n].kind.conditionId;
      JoinPartLeft(w, s, rank, l, k, n);
    } else if DependencyLeft(w, s, n) {
      d :| d in w.nodes[n].dependsOn && d < |w.nodes| && LeftOut(s, d);
      DependencyPartLeft(w, s, rank, l, k, n, d);
    } else {
      GuardStopped(w, s, l, k, n);
    }
  }

  /** A part of a later iteration, outside every case, is left out only after an earlier
      check was left out or said to stop. */
  lemma {:induction false} LaterLeft(w: Workflow, s: RunState, rank: seq<nat>, l: NodeId, k: nat, n: NodeId)
    requires Reachable(w, s) && Ranks(w, rank) && l < |w.nodes| && w.nodes[l].kind.Loop?
    requires PartOf(w, l, k, n) && k > 1 && Free(w, n) && LeftOut(s, n)
    ensures StoppedBefore(s, w.nodes[l].kind.checks, k - 1)
    decreases rank[n]
  {
    var d := LaterReason(w, s, rank, l, k, n);
    if !StoppedBefore(s, w.nodes[l].kind.checks, k - 1) {
      LaterLeft(w, s, rank, l, k, d);
    }
  }

  lemma JoinIsInBody(w: Workflow, l: NodeId, k: nat, n: NodeId)
    requires Compiles(w) && l < |w.nodes| && w.nodes[l].kind.Loop? && PartOf(w, l, k, n) && w.nodes[n].kind.Join?
    requires w.nodes[n].kind.conditionId < |w.nodes|
    requires w.nodes[w.nodes[n].kind.conditionId].instance == w.nodes[n].instance
    ensures PartOf(w, l, k, w.nodes[n].kind.conditionId)
  {
    LoopOf(w, l);
    assert w.nodes[w.nodes[l].kind.checks[k - 1]].kind.LoopCheck?;
  }

  /** A loop none of whose checks stopped leaves out no check, if it does not leave out the first. */
  lemma {:induction false} ChecksKept(w: Workflow, s: RunState, rank: seq<nat>, l: NodeId, i: nat)
    requires Reachable(w, s) && Ranks(w, rank) && l < |w.nodes| && w.nodes[l].kind.Loop? && Free(w, l)
    requires i < |w.nodes[l].kind.checks| && !LeftOut(s, w.nodes[l].kind.checks[0])
    requires forall j | 0 <= j < |w.nodes[l].kind.checks| ::
             !HasControl(s, w.nodes[l].kind.checks[j], LoopDecided(true))
    ensures !LeftOut(s, w.nodes[l].kind.checks[i])
    decreases i
  {
    var checks := w.nodes[l].kind.checks;
    LoopOf(w, l);
    if i > 0 && LeftOut(s, checks[i]) {
      assert w.nodes[l].dependsOn[i] == checks[i];
      FreeDependency(w, l, checks[i]);
      LaterLeft(w, s, rank, l, i + 1, checks[i]);
      var j :| 0 <= j < i && j < |checks| && (LeftOut(s, checks[j]) || HasControl(s, checks[j], LoopDecided(true)));
      ChecksKept(w, s, rank, l, j);
    }
  }

  // ---------------------------------------------------------------------
  // No node outside every case is left out
  // ---------------------------------------------------------------------

  lemma EarlyUnguarded(w: Workflow, n: NodeId)
    requires Compiles(w) && n < |w.nodes| && !Late(w.nodes[n])
    ensures w.nodes[n].loopGuard.None? && w.nodes[n].optimizationGuard.None?
  {
    if w.nodes[n].loopGuard.Some? {
      EntryIsLate(w, n);
    }
  }

  /** A loop guard is on the entry of a later iteration. */
  lemma EntryIsLate(w: Workflow, n: NodeId)
    requires Compiles(w) && n < |w.nodes| && w.nodes[n].loopGuard.Some?
    ensures Late(w.nodes[n])
  {
    assert GuardsDeclared(w, w.nodes[n]) && RefsInRange(w, w.nodes[n]);
    assert UnrollingRules(w, w.nodes[n].loopGuard.value);
  }

  lemma EarlyDependency(w: Workflow, n: NodeId, d: NodeId)
    requires Compiles(w) && n < |w.nodes| && !Late(w.nodes[n]) && d in w.nodes[n].dependsOn && d < |w.nodes|
    requires !w.nodes[n].kind.Loop? && !w.nodes[n].kind.Optimization?
    ensures !Late(w.nodes[d])
  {
    assert UnrollingRules(w, n);
  }

  lemma FirstCheckEarly(w: Workflow, l: NodeId)
    requires Compiles(w) && l < |w.nodes| && w.nodes[l].kind.Loop?
    ensures |w.nodes[l].kind.checks| > 0 && w.nodes[l].kind.checks[0] < |w.nodes|
    ensures w.nodes[l].kind.checks[0] in w.nodes[l].dependsOn
    ensures !Late(w.nodes[w.nodes[l].kind.checks[0]])
  {
    LoopOf(w, l);
    FirstCheckDeclared(w, l);
    CheckUnguarded(w, w.nodes[l].kind.checks[0]);
    CheckIsPlain(w, w.nodes[l].kind.checks[0]);
  }

  lemma FirstCheckDeclared(w: Workflow, l: NodeId)
    requires Declared(w) && l < |w.nodes| && w.nodes[l].kind.Loop? && LoopDeclared(w, l) && |w.nodes[l].kind.checks| > 0
    ensures var check := w.nodes[l].kind.checks[0];
            && check < |w.nodes| && check in w.nodes[l].dependsOn
            && w.nodes[check].kind.LoopCheck? && w.nodes[check].kind.iteration == 1
  {
    assert w.nodes[l].dependsOn[0] == w.nodes[l].kind.checks[0];
  }

  lemma ConditionEarly(w: Workflow, n: NodeId)
    requires Compiles(w) && n < |w.nodes| && w.nodes[n].kind.Join? && !Late(w.nodes[n])
    requires w.nodes[n].kind.conditionId < |w.nodes| && w.nodes[w.nodes[n].kind.conditionId].kind.Condition?
    requires w.nodes[w.nodes[n].kind.conditionId].instance == w.nodes[n].instance
    ensures !Late(w.nodes[w.nodes[n].kind.conditionId])
  {
    assert GuardsDeclared(w, w.nodes[w.nodes[n].kind.conditionId]);
  }

  /** A node outside every case and every later part of an unrolling is never left out. */
  lemma {:induction false} NeverLeft(w: Workflow, s: RunState, rank: seq<nat>, n: NodeId)
    requires Reachable(w, s) && Ranks(w, rank) && n < |w.nodes| && Free(w, n) && !Late(w.nodes[n])
    ensures !LeftOut(s, n)
    decreases rank[n]
  {
    if LeftOut(s, n) {
      if w.nodes[n].kind.Join? {
        JoinLeft(w, s, n);
        ConditionRank(w, rank, n);
        ConditionEarly(w, n);
        NeverLeft(w, s, rank, w.nodes[n].kind.conditionId);
      } else if w.nodes[n].kind.Loop? {
        FirstCheckEarly(w, n);
        var check := w.nodes[n].kind.checks[0];
        DependencyRank(w, rank, n, check);
        FreeDependency(w, n, check);
        NeverLeft(w, s, rank, check);
        LoopKept(w, s, rank, n);
      } else {
        ReasonLeft(w, s, n);
        EarlyUnguarded(w, n);
        OptimizationKept(w, s, n);
        var d :| d in w.nodes[n].dependsOn && d < |w.nodes| && LeftOut(s, d);
        DependencyRank(w, rank, n, d);
        FreeDependency(w, n, d);
        EarlyDependency(w, n, d);
        NeverLeft(w, s, rank, d);
      }
    }
  }

  lemma OptimizationKept(w: Workflow, s: RunState, n: NodeId)
    requires Declared(w) && Steered(w, s) && n < |w.nodes| && LeftOut(s, n)
    ensures !w.nodes[n].kind.Optimization?
  {
    assert NodeSteered(w, s, n);
  }

  lemma LoopKept(w: Workflow, s: RunState, rank: seq<nat>, l: NodeId)
    requires Reachable(w, s) && Ranks(w, rank) && l < |w.nodes| && w.nodes[l].kind.Loop? && Free(w, l)
    requires |w.nodes[l].kind.checks| > 0 && !LeftOut(s, w.nodes[l].kind.checks[0])
    ensures !LeftOut(s, l)
  {
    if LeftOut(s, l) {
      var i := CheckLeft(w, s, l);
      NoStopWhenLeft(w, s, l);
      ChecksKept(w, s, rank, l, i);
    }
  }

  /** A loop is left out only with one of its checks ... */
  lemma CheckLeft(w: Workflow, s: RunState, l: NodeId) returns (i: nat)
    requires Reachable(w, s) && l < |w.nodes| && w.nodes[l].kind.Loop? && Free(w, l) && LeftOut(s, l)
    ensures i < |w.nodes[l].kind.checks| && LeftOut(s, w.nodes[l].kind.checks[i])
  {
    ReasonLeft(w, s, l);
    LoopUnguarded(w, l);
    LoopOf(w, l);
    var d :| d in w.nodes[l].dependsOn && d < |w.nodes| && LeftOut(s, d);
    i :| 0 <= i < |w.nodes[l].kind.checks| && w.nodes[l].kind.checks[i] == d;
  }

  /** ... and only if none of them stopped it. */
  lemma NoStopWhenLeft(w: Workflow, s: RunState, l: NodeId)
    requires Declared(w) && Steered(w, s) && l < |w.nodes| && w.nodes[l].kind.Loop? && LeftOut(s, l)
    ensures forall j | 0 <= j < |w.nodes[l].kind.checks| :: !HasControl(s, w.nodes[l].kind.checks[j], LoopDecided(true))
  {
    assert NodeSteered(w, s, l);
  }

  lemma LoopUnguarded(w: Workflow, l: NodeId)
    requires WellFormed(w) && l < |w.nodes| && w.nodes[l].kind.Loop?
    ensures w.nodes[l].loopGuard.None? && w.nodes[l].optimizationGuard.None?
  {
    assert GuardsDeclared(w, w.nodes[l]);
  }

  // ---------------------------------------------------------------------
  // Optimizations
  // ---------------------------------------------------------------------

  /** The first candidate of an optimization, and its check, are never left out. */
  lemma FirstCheckKept(w: Workflow, s: RunState, o: NodeId)
    requires Reachable(w, s) && o < |w.nodes| && w.nodes[o].kind.Optimization?
    ensures OptimizationDeclared(w, o) && !LeftOut(s, w.nodes[o].kind.checks[0])
  {
    CandidateEarly(w, o);
    FirstCandidateFree(w, o);
    var rank :| Ranks(w, rank);
    NeverLeft(w, s, rank, Candidate(w, w.nodes[o].kind.checks[0]));
    CheckKept(w, s, w.nodes[o].kind.checks);
  }

  /** The first check is left out only with its candidate. */
  lemma CheckKept(w: Workflow, s: RunState, checks: seq<NodeId>)
    requires Declared(w) && Sound(w, s) && |checks| > 0 && CandidateDeclared(w, checks, 0)
    requires GuardsDeclared(w, w.nodes[checks[0]]) && !LeftOut(s, Candidate(w, checks[0]))
    ensures !LeftOut(s, checks[0])
  {
    assert NodeSound(w, s, checks[0]);
  }

  lemma CandidateEarly(w: Workflow, o: NodeId)
    requires Compiles(w) && o < |w.nodes| && w.nodes[o].kind.Optimization?
    ensures OptimizationDeclared(w, o) && CandidateDeclared(w, w.nodes[o].kind.checks, 0)
    ensures GuardsDeclared(w, w.nodes[w.nodes[o].kind.checks[0]])
    ensures !Late(w.nodes[Candidate(w, w.nodes[o].kind.checks[0])])
  {
    OptimizationOf(w, o);
    var check := w.nodes[o].kind.checks[0];
    CheckIsPlain(w, check);
    EarlyDependency(w, check, Candidate(w, check));
  }

  lemma OptimizationOf(w: Workflow, o: NodeId)
    requires Compiles(w) && o < |w.nodes| && w.nodes[o].kind.Optimization?
    ensures OptimizationDeclared(w, o) && CandidateDeclared(w, w.nodes[o].kind.checks, 0)
    ensures w.nodes[o].kind.checks[0] in w.nodes[o].dependsOn
  {
    assert UnrollingRules(w, o);
    assert CandidateDeclared(w, w.nodes[o].kind.checks, 0);
    assert w.nodes[o].dependsOn[0] == w.nodes[o].kind.checks[0];
  }

  /** A check is no part of a loop's body. */
  lemma CheckIsPlain(w: Workflow, check: NodeId)
    requires Compiles(w) && check < |w.nodes|
    requires (w.nodes[check].kind.OptimizationCheck? || w.nodes[check].kind.LoopCheck?)
    ensures w.nodes[check].instance.None?
  {
    if w.nodes[check].instance.Some? {
      BodyRules(w, check);
    }
  }

  lemma FirstCheckSettled(w: Workflow, s: RunState, o: NodeId)
    requires Declared(w) && Matches(w, s) && o < |w.nodes| && w.nodes[o].kind.Optimization?
    requires OptimizationDeclared(w, o)
    requires DependenciesSettled(w, s, o)
    ensures w.nodes[o].kind.checks[0] < |s.nodes| && Settled(s.nodes[w.nodes[o].kind.checks[0]])
  {
    assert CandidateDeclared(w, w.nodes[o].kind.checks, 0);
    assert w.nodes[o].dependsOn[0] == w.nodes[o].kind.checks[0];
  }

  lemma DueControllerCompletes(w: Workflow, s: RunState, o: NodeId)
    requires Reachable(w, s) && o < |w.nodes| && w.nodes[o].kind.Optimization?
    requires ControlStep(s) && !SomeStatus(s, Failed) && Ready(w, s, o) == Some(CompleteOptimization(o))
    ensures var e := ControlEvent(w, s, CompleteOptimization(o)); e.Some? && Accepts(w, s, e.value)
  {
    FirstCheckKept(w, s, o);
    FirstCheckSettled(w, s, o);
    OptimizationCompletesExactly(w, s, o);
  }

  lemma OptimizationsCompiled(w: Workflow)
    requires Compiles(w)
    ensures OptimizationsDeclared(w)
  {
    forall o | 0 <= o < |w.nodes| && w.nodes[o].kind.Optimization?
      ensures OptimizationDeclared(w, o)
    {
      OptimizationOf(w, o);
    }
  }

  /** In every accepted history of a compiled workflow, braided or not, a controller that
      is due has its completion, and the reducer accepts it. */
  lemma OptimizationAlwaysCompletes(w: Workflow, ledger: seq<Event>, o: NodeId)
    requires Compiles(w) && Replayed(w, ledger).Some? && o < |w.nodes| && w.nodes[o].kind.Optimization?
    requires var s := Replayed(w, ledger).value.state;
             ControlStep(s) && !SomeStatus(s, Failed) && Ready(w, s, o) == Some(CompleteOptimization(o))
    ensures var s := Replayed(w, ledger).value.state;
            var e := ControlEvent(w, s, CompleteOptimization(o));
            e.Some? && Accepts(w, s, e.value)
  {
    var s := Replayed(w, ledger).value.state;
    AcceptedHistoryIsSound(w, ledger);
    HistoryIsSteered(w, ledger);
    DueControllerCompletes(w, s, o);
  }
}
