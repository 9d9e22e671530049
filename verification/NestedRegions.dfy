/** Workflows whose conditional regions nest: a static labelling of the nodes, checked
    before a run, under which no join is ever orphaned or refused. */
module NestedRegions {
  import opened Standard
  import opened WorkflowGraph
  import opened RunReducer
  import opened Scheduler
  import opened RecoveredHistory
  import opened RunSafety
  import opened SchedulerProgress
  import opened BraidedJoins
  import opened OptimizationChain
  import opened Steering
  import opened CompilerRules
  import opened UnconditionalNodes
  import opened LiveRun
  import opened LiveHistory
  import opened DriverAcceptance

  /** The innermost region a node belongs to: the whole workflow, one case of a
      condition, or what follows a loop or optimization check that said to go on. */
  datatype Home = Everywhere | InCase(guard: Guard) | After(check: NodeId)

  function Decider(h: Home): Option<NodeId> {
    match h
    case Everywhere => None
    case InCase(guard) => Some(guard.conditionId)
    case After(check) => Some(check)
  }

  /** The run has entered the region. */
  predicate Entered(s: RunState, h: Home) {
    match h
    case Everywhere => true
    case InCase(guard) =>
      HasStatus(s, guard.conditionId, Succeeded)
        && s.nodes[guard.conditionId].control == ConditionDecided(guard.selects)
    case After(check) =>
      && HasStatus(s, check, Succeeded)
      && (s.nodes[check].control == LoopDecided(false) || s.nodes[check].control == OptimizationDecided(false))
  }

  // ---------------------------------------------------------------------
  // The labelling
  // ---------------------------------------------------------------------

  /** The region around a region, this many levels out. */
  function Around(homes: seq<Home>, h: Home, levels: nat): Home
    decreases levels
  {
    if levels == 0 then h
    else match Decider(h)
      case None => Everywhere
      case Some(d) => if d < |homes| then Around(homes, homes[d], levels - 1) else Everywhere
  }

  predicate Encloses(homes: seq<Home>, outer: Home, inner: Home) {
    exists levels :: 0 <= levels <= |homes| && Around(homes, inner, levels) == outer
  }

  /** The checks of one loop or optimization each open the region of the next. */
  predicate ChecksNest(homes: seq<Home>, h: Home, checks: seq<NodeId>)
    requires forall i | 0 <= i < |checks| :: checks[i] < |homes|
  {
    |checks| > 0 && homes[checks[0]] == h && forall i | 0 < i < |checks| :: homes[checks[i]] == After(checks[i - 1])
  }

  /** A node enters its region by its own guard, or by a dependency of the same region,
      and depends on no region that does not enclose its own. */
  predicate PlainNests(w: Workflow, homes: seq<Home>, n: NodeId)
    requires Declared(w) && |homes| == |w.nodes| && n < |w.nodes|
  {
    var node, h := w.nodes[n], homes[n];
    && (node.when.Some? ==> h == InCase(node.when.value))
    && (node.loopGuard.Some? ==> h == After(node.loopGuard.value))
    && (node.optimizationGuard.Some? ==> h == After(node.optimizationGuard.value))
    && (forall i | 0 <= i < |node.dependsOn| :: Encloses(homes, homes[node.dependsOn[i]], h))
    && (node.when.None? && node.loopGuard.None? && (node.optimizationGuard.None? || !node.kind.Child?) ==>
          h.Everywhere? || exists i :: 0 <= i < |node.dependsOn| && homes[node.dependsOn[i]] == h)
  }

  predicate NodeNests(w: Workflow, homes: seq<Home>, n: NodeId)
    requires Declared(w) && |homes| == |w.nodes| && n < |w.nodes|
  {
    assert RefsInRange(w, w.nodes[n]);
    match w.nodes[n].kind
    case Join(c, branches) =>
      homes[n] == homes[c] && forall i | 0 <= i < |branches| ::
        homes[branches[i].nodeId] == InCase(Guard(c, branches[i].selects))
    case Loop(checks) => ChecksNest(homes, homes[n], checks)
    case Optimization(checks) => ChecksNest(homes, homes[n], checks)
    case _ => PlainNests(w, homes, n)
  }

  /** The regions nest.  A rank orders the nodes so that a node comes after what it
      depends on and after what opens its region. */
  ghost predicate Nests(w: Workflow, homes: seq<Home>, rank: seq<nat>) {
    && Declared(w) && Ranks(w, rank) && |homes| == |w.nodes|
    && (forall n | 0 <= n < |w.nodes| && Decider(homes[n]).Some? ::
          Decider(homes[n]).value < |w.nodes| && rank[Decider(homes[n]).value] < rank[n])
    && (forall n | 0 <= n < |w.nodes| && w.nodes[n].kind.Join? :: rank[w.nodes[n].kind.conditionId] < rank[n])
    && forall n | 0 <= n < |w.nodes| :: NodeNests(w, homes, n)
  }

  // ---------------------------------------------------------------------
  // Settled nodes tell their region
  // ---------------------------------------------------------------------

  /** A settled node succeeded exactly if the run entered its region. */
  predicate Agrees(s: RunState, homes: seq<Home>, n: NodeId)
    requires |homes| == |s.nodes| && n < |homes|
  {
    Settled(s.nodes[n]) ==> (s.nodes[n].status.Succeeded? <==> Entered(s, homes[n]))
  }

  ghost predicate AgreeBelow(s: RunState, homes: seq<Home>, rank: seq<nat>, bound: nat) {
    |homes| == |s.nodes| == |rank| && forall m | 0 <= m < |homes| && rank[m] < bound :: Agrees(s, homes, m)
  }

  predicate OpenedBelow(homes: seq<Home>, rank: seq<nat>, h: Home, bound: nat)
    requires |homes| == |rank|
  {
    Decider(h).Some? ==> Decider(h).value < |homes| && rank[Decider(h).value] < bound
  }

  /** A region is entered only inside the regions around it. */
  lemma {:induction false} EnteredOutside(w: Workflow, s: RunState, homes: seq<Home>, rank: seq<nat>, h: Home,
                                          levels: nat, bound: nat)
    requires Nests(w, homes, rank) && AgreeBelow(s, homes, rank, bound) && OpenedBelow(homes, rank, h, bound)
    requires Entered(s, h)
    ensures Entered(s, Around(homes, h, levels))
    decreases levels
  {
    if levels > 0 && Decider(h).Some? {
      var d := Decider(h).value;
      assert Agrees(s, homes, d);
      EnteredOutside(w, s, homes, rank, homes[d], levels - 1, bound);
    }
  }

  lemma PlainAgrees(w: Workflow, s: RunState, homes: seq<Home>, rank: seq<nat>, n: NodeId)
    requires WellFormed(w) && Sound(w, s) && Nests(w, homes, rank) && n < |w.nodes|
    requires AgreeBelow(s, homes, rank, rank[n])
    requires !w.nodes[n].kind.Join? && !w.nodes[n].kind.Loop? && !w.nodes[n].kind.Optimization?
    ensures Agrees(s, homes, n)
  {
    assert NodeSound(w, s, n) && NodeNests(w, homes, n) && PlainNests(w, homes, n);
    if s.nodes[n].status.Succeeded? {
      PlainSucceeds(w, s, homes, rank, n);
    } else if s.nodes[n].status.Omitted? && Entered(s, homes[n]) {
      PlainOmits(w, s, homes, rank, n);
    }
  }

  lemma PlainSucceeds(w: Workflow, s: RunState, homes: seq<Home>, rank: seq<nat>, n: NodeId)
    requires Nests(w, homes, rank) && Matches(w, s) && n < |w.nodes| && AgreeBelow(s, homes, rank, rank[n])
    requires PlainNests(w, homes, n) && DependenciesSucceeded(w, s, n)
    requires (w.nodes[n].kind.Guardable() ==> Selected(w, s, n))
    requires GuardsDeclared(w, w.nodes[n])
    ensures Entered(s, homes[n])
  {
    var node, h := w.nodes[n], homes[n];
    if node.when.None? && node.loopGuard.None? && (node.optimizationGuard.None? || !node.kind.Child?)
      && !h.Everywhere? {
      var i :| 0 <= i < |node.dependsOn| && homes[node.dependsOn[i]] == h;
      assert s.nodes[node.dependsOn[i]].status.Succeeded? && Agrees(s, homes, node.dependsOn[i]);
    }
  }

  lemma PlainOmits(w: Workflow, s: RunState, homes: seq<Home>, rank: seq<nat>, n: NodeId)
    requires Nests(w, homes, rank) && Matches(w, s) && n < |w.nodes| && AgreeBelow(s, homes, rank, rank[n])
    requires PlainNests(w, homes, n) && Entered(s, homes[n])
    ensures !OmissionJustified(w, s, n)
  {
    var node, h := w.nodes[n], homes[n];
    forall i | 0 <= i < |node.dependsOn|
      ensures !s.nodes[node.dependsOn[i]].status.Omitted?
    {
      var levels :| 0 <= levels <= |homes| && Around(homes, h, levels) == homes[node.dependsOn[i]];
      EnteredOutside(w, s, homes, rank, h, levels, rank[n]);
      assert Agrees(s, homes, node.dependsOn[i]);
    }
  }

  lemma JoinAgrees(w: Workflow, s: RunState, homes: seq<Home>, rank: seq<nat>, n: NodeId)
    requires WellFormed(w) && Sound(w, s) && Steered(w, s) && Nests(w, homes, rank) && n < |w.nodes|
    requires w.nodes[n].kind.Join?
    requires AgreeBelow(s, homes, rank, rank[n])
    ensures Agrees(s, homes, n)
  {
    var kind := w.nodes[n].kind;
    assert NodeSound(w, s, n) && NodeSteered(w, s, n) && NodeNests(w, homes, n) && KindDeclared(w, w.nodes[n]);
    assert Agrees(s, homes, kind.conditionId);
    if s.nodes[n].status.Succeeded? {
      var i :| 0 <= i < |w.nodes[n].dependsOn| && s.nodes[w.nodes[n].dependsOn[i]].status.Succeeded?;
      assert kind.branches[i].nodeId == w.nodes[n].dependsOn[i];
      assert Agrees(s, homes, kind.branches[i].nodeId);
    }
  }

  /** If any check of a controller succeeded, the run entered the controller's region. */
  lemma {:induction false} ChecksEntered(w: Workflow, s: RunState, homes: seq<Home>, rank: seq<nat>, h: Home,
                                         checks: seq<NodeId>, i: nat, bound: nat)
    requires Nests(w, homes, rank) && AgreeBelow(s, homes, rank, bound)
    requires forall j | 0 <= j < |checks| :: checks[j] < |homes| && rank[checks[j]] < bound
    requires ChecksNest(homes, h, checks) && i < |checks| && s.nodes[checks[i]].status.Succeeded?
    ensures Entered(s, h)
  {
    assert Agrees(s, homes, checks[i]);
    if i > 0 {
      ChecksEntered(w, s, homes, rank, h, checks, i - 1, bound);
    }
  }

  /** Where the run entered the region of settled checks none of which stopped, each succeeded. */
  lemma {:induction false} ChecksGoOn(w: Workflow, s: RunState, homes: seq<Home>, rank: seq<nat>, h: Home,
                                      checks: seq<NodeId>, i: nat, bound: nat)
    requires Nests(w, homes, rank) && AgreeBelow(s, homes, rank, bound)
    requires forall j | 0 <= j < |checks| ::
             checks[j] < |homes| && rank[checks[j]] < bound && Settled(s.nodes[checks[j]])
    requires forall j | 0 <= j < |checks| && s.nodes[checks[j]].status.Succeeded? ::
             s.nodes[checks[j]].control == LoopDecided(false)
    requires ChecksNest(homes, h, checks) && i < |checks| && Entered(s, h)
    ensures s.nodes[checks[i]].status.Succeeded?
  {
    assert Agrees(s, homes, checks[i]);
    if i > 0 {
      ChecksGoOn(w, s, homes, rank, h, checks, i - 1, bound);
    }
  }

  lemma CheckRanks(w: Workflow, rank: seq<nat>, n: NodeId, checks: seq<NodeId>)
    requires Declared(w) && Ranks(w, rank) && n < |w.nodes| && w.nodes[n].dependsOn == checks
    ensures forall j | 0 <= j < |checks| :: checks[j] < |rank| && rank[checks[j]] < rank[n]
  {
    assert RefsInRange(w, w.nodes[n]);
    forall j | 0 <= j < |checks|
      ensures checks[j] < |rank| && rank[checks[j]] < rank[n]
    {
      assert w.nodes[n].dependsOn[j] == checks[j];
    }
  }

  lemma ChecksDecide(w: Workflow, s: RunState, n: NodeId)
    requires WellFormed(w) && Sound(w, s) && n < |w.nodes| && w.nodes[n].kind.Loop?
    ensures forall i | 0 <= i < |w.nodes[n].kind.checks| :: w.nodes[n].kind.checks[i] < |s.nodes|
    ensures forall i | 0 <= i < |w.nodes[n].kind.checks| ::
              var check := s.nodes[w.nodes[n].kind.checks[i]]; check.status.Succeeded? <==> check.control.LoopDecided?
  {
    var checks := w.nodes[n].kind.checks;
    assert KindDeclared(w, w.nodes[n]) && RefsInRange(w, w.nodes[n]);
    forall i | 0 <= i < |checks|
      ensures s.nodes[checks[i]].status.Succeeded? <==> s.nodes[checks[i]].control.LoopDecided?
    {
      assert NodeSound(w, s, checks[i]);
    }
  }

  /** A loop that was left out has settled checks, one of them left out. */
  lemma LoopLeft(w: Workflow, s: RunState, n: NodeId) returns (i: nat)
    requires WellFormed(w) && Sound(w, s) && n < |w.nodes| && w.nodes[n].kind.Loop? && s.nodes[n].status.Omitted?
    ensures w.nodes[n].dependsOn == w.nodes[n].kind.checks && i < |w.nodes[n].kind.checks|
    ensures forall j | 0 <= j < |w.nodes[n].kind.checks| ::
              w.nodes[n].kind.checks[j] < |s.nodes| && Settled(s.nodes[w.nodes[n].kind.checks[j]])
    ensures s.nodes[w.nodes[n].kind.checks[i]].status.Omitted?
  {
    assert NodeSound(w, s, n) && KindDeclared(w, w.nodes[n]) && GuardsDeclared(w, w.nodes[n]);
    i :| 0 <= i < |w.nodes[n].dependsOn| && s.nodes[w.nodes[n].dependsOn[i]].status.Omitted?;
    forall j | 0 <= j < |w.nodes[n].dependsOn|
      ensures Settled(s.nodes[w.nodes[n].dependsOn[j]])
    {
    }
  }

  lemma LoopOmits(w: Workflow, s: RunState, homes: seq<Home>, rank: seq<nat>, n: NodeId)
    requires WellFormed(w) && Sound(w, s) && Nests(w, homes, rank) && n < |w.nodes| && w.nodes[n].kind.Loop?
    requires AgreeBelow(s, homes, rank, rank[n]) && NodeSteered(w, s, n) && s.nodes[n].status.Omitted?
    ensures !Entered(s, homes[n])
  {
    var checks := w.nodes[n].kind.checks;
    assert NodeNests(w, homes, n);
    var i := LoopLeft(w, s, n);
    CheckRanks(w, rank, n, checks);
    ChecksDecide(w, s, n);
    if Entered(s, homes[n]) {
      ChecksGoOn(w, s, homes, rank, homes[n], checks, i, rank[n]);
    }
  }

  lemma LoopAgrees(w: Workflow, s: RunState, homes: seq<Home>, rank: seq<nat>, n: NodeId)
    requires WellFormed(w) && Sound(w, s) && Steered(w, s) && Nests(w, homes, rank) && n < |w.nodes|
    requires w.nodes[n].kind.Loop?
    requires AgreeBelow(s, homes, rank, rank[n])
    ensures Agrees(s, homes, n)
  {
    var checks := w.nodes[n].kind.checks;
    assert NodeSteered(w, s, n) && NodeNests(w, homes, n) && KindDeclared(w, w.nodes[n]);
    if s.nodes[n].status.Succeeded? {
      CheckRanks(w, rank, n, checks);
      ChecksDecide(w, s, n);
      var i :| 0 <= i < |checks| && s.nodes[checks[i]].control == LoopDecided(true);
      ChecksEntered(w, s, homes, rank, homes[n], checks, i, rank[n]);
    } else if s.nodes[n].status.Omitted? {
      LoopOmits(w, s, homes, rank, n);
    }
  }

  lemma OptimizationAgrees(w: Workflow, s: RunState, homes: seq<Home>, rank: seq<nat>, n: NodeId)
    requires WellFormed(w) && Sound(w, s) && Steered(w, s) && Nests(w, homes, rank) && n < |w.nodes|
    requires w.nodes[n].kind.Optimization?
    requires AgreeBelow(s, homes, rank, rank[n])
    ensures Agrees(s, homes, n)
  {
    var checks := w.nodes[n].kind.checks;
    assert NodeSteered(w, s, n) && NodeNests(w, homes, n) && KindDeclared(w, w.nodes[n]);
    CheckRanks(w, rank, n, checks);
    if s.nodes[n].status.Succeeded? {
      var i :| 0 <= i < |checks| && CheckDecides(s, checks[i]);
      ChecksEntered(w, s, homes, rank, homes[n], checks, i, rank[n]);
    }
  }

  lemma {:induction false} AgreementClimbs(w: Workflow, s: RunState, homes: seq<Home>, rank: seq<nat>, bound: nat)
    requires WellFormed(w) && Sound(w, s) && Steered(w, s) && Nests(w, homes, rank)
    ensures AgreeBelow(s, homes, rank, bound)
  {
    if bound > 0 {
      AgreementClimbs(w, s, homes, rank, bound - 1);
      forall n | 0 <= n < |homes| && rank[n] == bound - 1
        ensures Agrees(s, homes, n)
      {
        if w.nodes[n].kind.Join? {
          JoinAgrees(w, s, homes, rank, n);
        } else if w.nodes[n].kind.Loop? {
          LoopAgrees(w, s, homes, rank, n);
        } else if w.nodes[n].kind.Optimization? {
          OptimizationAgrees(w, s, homes, rank, n);
        } else {
          PlainAgrees(w, s, homes, rank, n);
        }
      }
    }
  }

  /** In every accepted history of a nested workflow, a settled node succeeded exactly
      if the run entered its region. */
  lemma RegionsDecide(w: Workflow, homes: seq<Home>, rank: seq<nat>, ledger: seq<Event>, n: NodeId)
    requires WellFormed(w) && Nests(w, homes, rank) && Replayed(w, ledger).Some? && n < |w.nodes|
    ensures Agrees(Replayed(w, ledger).value.state, homes, n)
  {
    var s := Replayed(w, ledger).value.state;
    AcceptedHistoryIsSound(w, ledger);
    HistoryIsSteered(w, ledger);
    AgreementClimbs(w, s, homes, rank, rank[n] + 1);
  }

  // ---------------------------------------------------------------------
  // Nothing is orphaned and nothing refused
  // ---------------------------------------------------------------------

  ghost predicate AllAgree(s: RunState, homes: seq<Home>) {
    |homes| == |s.nodes| && forall n | 0 <= n < |homes| :: Agrees(s, homes, n)
  }

  lemma NestedHistoryAgrees(w: Workflow, homes: seq<Home>, rank: seq<nat>, ledger: seq<Event>)
    requires WellFormed(w) && Nests(w, homes, rank) && Replayed(w, ledger).Some?
    ensures AllAgree(Replayed(w, ledger).value.state, homes)
  {
    forall n | 0 <= n < |w.nodes|
      ensures Agrees(Replayed(w, ledger).value.state, homes, n)
    {
      RegionsDecide(w, homes, rank, ledger, n);
    }
  }

  /** No join of a nested workflow is ever orphaned: once its branches are settled, they
      were left out if its condition was. */
  lemma NoOrphans(w: Workflow, homes: seq<Home>, rank: seq<nat>, s: RunState, n: NodeId)
    requires WellFormed(w) && Nests(w, homes, rank) && Matches(w, s) && AllAgree(s, homes) && n < |w.nodes|
    requires w.nodes[n].kind.Join?
    requires DependenciesSettled(w, s, n) && HasStatus(s, w.nodes[n].kind.conditionId, Omitted)
    ensures !DependenciesSucceeded(w, s, n)
  {
    var kind := w.nodes[n].kind;
    assert NodeNests(w, homes, n) && KindDeclared(w, w.nodes[n]);
    var condition := w.nodes[kind.conditionId].kind;
    assert condition.otherwise in PossibleCases(condition.cases, condition.otherwise);
    var i :| 0 <= i < |kind.branches| && kind.branches[i].selects == condition.otherwise;
    assert w.nodes[n].dependsOn[i] == kind.branches[i].nodeId;
    assert Settled(s.nodes[w.nodes[n].dependsOn[i]]) && Agrees(s, homes, kind.branches[i].nodeId);
  }

  /** Every join the scheduler chooses has its record, and the reducer accepts it. */
  lemma NestedJoinAccepted(w: Workflow, homes: seq<Home>, rank: seq<nat>, s: RunState, n: NodeId)
    requires WellFormed(w) && Nests(w, homes, rank) && Sound(w, s) && AllAgree(s, homes)
    requires ControlStep(s) && !SomeStatus(s, Failed) && n < |w.nodes| && w.nodes[n].kind.Join?
    requires Ready(w, s, n) == Some(TakeJoin(n))
    ensures ControlEvent(w, s, TakeJoin(n)).Some? && Accepts(w, s, ControlEvent(w, s, TakeJoin(n)).value)
  {
    var kind := w.nodes[n].kind;
    ChosenJoinAcceptedExactly(w, s, n);
    assert NodeNests(w, homes, n) && KindDeclared(w, w.nodes[n]) && NodeSound(w, s, kind.conditionId);
    forall i | 0 <= i < |kind.branches|
      ensures HasStatus(s, kind.branches[i].nodeId,
                if kind.branches[i].selects == ConditionDecision(s, kind.conditionId).value then Succeeded else Omitted)
    {
      assert w.nodes[n].dependsOn[i] == kind.branches[i].nodeId;
      assert Settled(s.nodes[w.nodes[n].dependsOn[i]]);
      assert Agrees(s, homes, kind.branches[i].nodeId);
    }
  }

  /** What the scheduler chooses can be recorded, and the reducer takes the record. */
  lemma ChoiceIsRecorded(w: Workflow, homes: seq<Home>, rank: seq<nat>, s: RunState, t: Transition)
    requires Compiles(w) && Nests(w, homes, rank)
    requires Sound(w, s) && Steered(w, s) && AllAgree(s, homes) && AskerIsNext(w, s) && AtChoice(w, s, t)
    requires SelectNext(w, s) == Some(t)
    requires !t.Execute? && !t.EvaluateOptimization? && !(t.RequestApproval? && s.nodes[t.node].awaiting)
    ensures ControlEvent(w, s, t).Some? && Accepts(w, s, ControlEvent(w, s, t).value)
  {
    ReadyFits(w, s, t.node);
    if Omits(t) {
      OmissionAccepted(w, s, t);
    } else if t.EvaluateCondition? || t.PublishResult? || t.EvaluateLoop? {
      EvaluationAccepted(w, s, t);
    } else if t.RequestApproval? {
      RequestAccepted(w, s, t);
    } else if t.CompleteOptimization? {
      DueControllerCompletes(w, s, t.node);
    } else if t.TakeJoin? {
      NestedJoinAccepted(w, homes, rank, s, t.node);
    } else {
      LoopAccepted(w, s, t);
    }
  }

  /** A run of a compiled nested workflow never throws: while a quiet run is unfinished the
      scheduler finds a transition, the record of every control transition exists, and
      whatever the driver is about to write is accepted.  Outside are a decision on the
      wrong node and an attempt that may not be interrupted. */
  lemma NestedRunGoesOn(w: Workflow, homes: seq<Home>, rank: seq<nat>, steps: seq<Step>)
    requires Compiles(w) && Nests(w, homes, rank)
    requires Ran(w, steps).Some?
    ensures var p := Ran(w, steps).value;
            && (Quiet(p.state) && !AllSettled(p.state) ==> SelectNext(w, p.state).Some?)
            && (p.phase == Admit([]) && p.state.status.Active? && SelectNext(w, p.state).Some? ==>
                  var t := SelectNext(w, p.state).value;
                  t.Execute? || t.EvaluateOptimization? || (t.RequestApproval? && p.state.nodes[t.node].awaiting)
                  || ControlEvent(w, p.state, t).Some?)
            && forall e, next | Proposes(w, p.phase, p.state, e, next) && !p.phase.Idle? && !e.NodeInterrupted? ::
                 Ran(w, steps + [Record(e, next)]).Some?
  {
    var p := Ran(w, steps).value;
    LiveHistoryIsAccepted(w, steps);
    RunsAreOrderly(w, steps);
    HistoryIsSteered(w, p.ledger);
    NestedHistoryAgrees(w, homes, rank, p.ledger);
    if Quiet(p.state) && !AllSettled(p.state) {
      forall n | 0 <= n < |w.nodes|
        ensures !Orphan(w, p.state, n)
      {
        if Orphan(w, p.state, n) {
          assert DependenciesSettled(w, p.state, n);
          NoOrphans(w, homes, rank, p.state, n);
        }
      }
      Progress(w, p.ledger);
    }
    if p.phase == Admit([]) && p.state.status.Active? && SelectNext(w, p.state).Some? {
      NestedChoice(w, homes, rank, p.phase, p.state);
    }
    forall e, next | Proposes(w, p.phase, p.state, e, next) && !p.phase.Idle? && !e.NodeInterrupted?
      ensures Ran(w, steps + [Record(e, next)]).Some?
    {
      NestedProposal(w, homes, rank, steps, e, next);
    }
  }

  lemma NestedChoice(w: Workflow, homes: seq<Home>, rank: seq<nat>, phase: Phase, s: RunState)
    requires Compiles(w) && Nests(w, homes, rank)
    requires Sound(w, s) && Steered(w, s) && AllAgree(s, homes) && Orderly(w, phase, s) && PhaseHolds(w, phase, s)
    requires phase == Admit([]) && s.status.Active? && SelectNext(w, s).Some?
    ensures var t := SelectNext(w, s).value;
            t.Execute? || t.EvaluateOptimization? || (t.RequestApproval? && s.nodes[t.node].awaiting)
            || (ControlEvent(w, s, t).Some? && Accepts(w, s, ControlEvent(w, s, t).value))
  {
    var t := SelectNext(w, s).value;
    if !t.Execute? && !t.EvaluateOptimization? && !(t.RequestApproval? && s.nodes[t.node].awaiting) {
      assert AtChoice(w, s, t);
      ChoiceIsRecorded(w, homes, rank, s, t);
    }
  }

  lemma NestedProposal(w: Workflow, homes: seq<Home>, rank: seq<nat>, steps: seq<Step>, e: Event, next: Phase)
    requires Compiles(w) && Nests(w, homes, rank)
    requires Ran(w, steps).Some?
    requires var p := Ran(w, steps).value;
             Proposes(w, p.phase, p.state, e, next) && !p.phase.Idle? && !e.NodeInterrupted?
    ensures Ran(w, steps + [Record(e, next)]).Some?
  {
    if e.NodeJoined? {
      NestedJoinAccepts(w, homes, rank, steps, e, next);
      RecordTaken(w, steps, e, next);
    } else {
      OptimizationsCompiled(w);
      DriverIsNeverRefused(w, steps, e, next);
    }
  }

  lemma NestedJoinAccepts(w: Workflow, homes: seq<Home>, rank: seq<nat>, steps: seq<Step>, e: Event, next: Phase)
    requires Compiles(w) && Nests(w, homes, rank)
    requires Ran(w, steps).Some? && e.NodeJoined?
    requires var p := Ran(w, steps).value; Proposes(w, p.phase, p.state, e, next)
    ensures Accepts(w, Ran(w, steps).value.state, e)
  {
    var p := Ran(w, steps).value;
    LiveHistoryIsAccepted(w, steps);
    RunsAreOrderly(w, steps);
    HistoryIsSteered(w, p.ledger);
    NestedHistoryAgrees(w, homes, rank, p.ledger);
    JoinProposal(w, p.phase, p.state, e, next);
    NestedChoice(w, homes, rank, p.phase, p.state);
  }

  lemma JoinProposal(w: Workflow, phase: Phase, s: RunState, e: Event, next: Phase)
    requires Declared(w) && Sound(w, s) && Proposes(w, phase, s, e, next) && e.NodeJoined? && AskerIsNext(w, s)
    requires WaitsForAsker(w, s)
    requires s.status.RunDone? ==> phase.Idle?
    ensures phase == Admit([]) && s.status.Active? && SelectNext(w, s).Some?
    ensures SelectNext(w, s).value.TakeJoin? && ControlEvent(w, s, SelectNext(w, s).value) == Some(e)
  {
    ProposedIsAdmitted(w, phase, s, e, next);
    if s.status.Waiting? {
      WaitingProposesNothing(w, s, [], e, next);
    }
  }
}
