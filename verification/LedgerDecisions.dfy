/** Why each control record of an accepted ledger is there: what the records before it
    show of the nodes it reads. */
module LedgerDecisions {
  import opened WorkflowGraph
  import opened RunReducer
  import opened RecoveredHistory
  import opened RunSafety
  import opened RunAccounting
  import opened LedgerReading

  // ---------------------------------------------------------------------
  // What the reducer checks of a control record
  // ---------------------------------------------------------------------

  lemma ConditionReads(w: Workflow, s: RunState, e: Event)
    requires Declared(w) && Matches(w, s) && Accepts(w, s, e) && e.ConditionEvaluated?
    ensures e.node < |w.nodes| && w.nodes[e.node].kind.Condition?
    ensures var kind := w.nodes[e.node].kind;
            var seen := Source(s, kind.source);
            seen.Some? && !seen.value.truncated && FirstMatch(kind.cases, kind.otherwise, seen.value.value, e.selected)
  {
    var kind := w.nodes[e.node].kind;
    SelectedCaseExactly(kind.cases, kind.otherwise, Source(s, kind.source).value.value, e.selected);
  }

  lemma ReaderReads(w: Workflow, s: RunState, e: Event)
    requires Declared(w) && Matches(w, s) && Accepts(w, s, e) && (e.ResultPublished? || e.LoopChecked?)
    ensures e.node < |w.nodes| && (if e.ResultPublished? then w.nodes[e.node].kind.Result?
            else w.nodes[e.node].kind.LoopCheck?)
    ensures var kind := w.nodes[e.node].kind;
            var seen := Source(s, kind.source);
            && seen.Some? && !seen.value.truncated
            && if e.ResultPublished? then seen.value.value in kind.admits
               else e.stop <==> seen.value.value == kind.stopsOn
  {
  }

  lemma ApprovalReads(w: Workflow, s: RunState, e: Event)
    requires Declared(w) && Matches(w, s) && Accepts(w, s, e) && e.WorkflowApprovalRequested?
    ensures e.node < |w.nodes| && w.nodes[e.node].kind.Approval?
    ensures forall k | 0 <= k < |w.nodes[e.node].kind.observes| ::
              var seen := Source(s, w.nodes[e.node].kind.observes[k]);
              seen.Some? && !seen.value.truncated
  {
    var sources := w.nodes[e.node].kind.observes;
    assert AllReadable(s, sources) && !AnyTruncated(s, sources);
  }

  predicate TruncatedAt(s: RunState, n: NodeId) {
    Source(s, n).Some? && Source(s, n).value.truncated
  }

  predicate RefusedAt(s: RunState, n: NodeId, admits: set<Text>) {
    Source(s, n).Some? && !Source(s, n).value.truncated && Source(s, n).value.value !in admits
  }

  lemma FailureReads(w: Workflow, s: RunState, n: NodeId)
    requires Declared(w) && Matches(w, s) && Accepts(w, s, ControlFailed(n))
    ensures n < |w.nodes|
    ensures var kind := w.nodes[n].kind;
            && (kind.Condition? || kind.LoopCheck? || kind.Result? || kind.Approval? || kind.Loop?
                || kind.OptimizationCheck?)
            && (kind.Condition? || kind.LoopCheck? ==> TruncatedAt(s, kind.source))
            && (kind.Result? ==> TruncatedAt(s, kind.source) || RefusedAt(s, kind.source, kind.admits))
            && (kind.Approval? ==> exists k :: 0 <= k < |kind.observes| && TruncatedAt(s, kind.observes[k]))
            && (kind.Loop? ==> forall k | 0 <= k < |kind.checks| ::
                  kind.checks[k] < |s.nodes| && s.nodes[kind.checks[k]].control == LoopDecided(false))
  {
    assert RefsInRange(w, w.nodes[n]);
    var kind := w.nodes[n].kind;
    if kind.Approval? {
      assert AnyTruncated(s, kind.observes);
      var k :| 0 <= k < |kind.observes| && Source(s, kind.observes[k]).Some?
               && Source(s, kind.observes[k]).value.truncated;
      assert TruncatedAt(s, kind.observes[k]);
    }
  }

  // ---------------------------------------------------------------------
  // The same, off the ledger
  // ---------------------------------------------------------------------

  /** The first i records show this of the node, whole, and show nothing else of it. */
  ghost predicate Known(w: Workflow, ledger: seq<Event>, i: nat, n: NodeId, value: Text)
    requires i <= |ledger|
  {
    && Shown(w, ledger, i, n, Evidence(value, false))
    && forall seen | Shown(w, ledger, i, n, seen) :: seen == Evidence(value, false)
  }

  ghost predicate KnownWhole(w: Workflow, ledger: seq<Event>, i: nat, n: NodeId)
    requires i <= |ledger|
  {
    exists value :: Known(w, ledger, i, n, value)
  }

  ghost predicate KnownTruncated(w: Workflow, ledger: seq<Event>, i: nat, n: NodeId)
    requires i <= |ledger|
  {
    exists seen :: Shown(w, ledger, i, n, seen) && seen.truncated
  }

  lemma SourceIsKnown(w: Workflow, ledger: seq<Event>, i: nat, n: NodeId)
    requires Declared(w) && i <= |ledger| && Replayed(w, ledger).Some? && n < |w.nodes|
    ensures Replayed(w, ledger[..i]).Some?
    ensures var seen := Source(StateAt(w, ledger, i), n);
            && (seen.Some? && !seen.value.truncated ==> Known(w, ledger, i, n, seen.value.value))
            && (seen.Some? && seen.value.truncated ==> KnownTruncated(w, ledger, i, n))
  {
    PrefixesReplay(w, ledger, i);
    var source := Source(StateAt(w, ledger, i), n);
    if source.Some? {
      SourceIsShown(w, ledger, i, n, source.value);
      forall seen | Shown(w, ledger, i, n, seen)
        ensures seen == source.value
      {
        ShownOnce(w, ledger, i, n, seen, source.value);
      }
    }
  }

  /** A condition takes the case of the first test that its source's recorded value
      meets, or the default where it meets none. */
  lemma ConditionsTakeTheFirstMatch(w: Workflow, ledger: seq<Event>, i: nat) returns (value: Text)
    requires Declared(w) && Replayed(w, ledger).Some? && i < |ledger| && ledger[i].ConditionEvaluated?
    ensures ledger[i].node < |w.nodes| && w.nodes[ledger[i].node].kind.Condition?
    ensures var kind := w.nodes[ledger[i].node].kind;
            Known(w, ledger, i, kind.source, value) &&
            (|| (exists k :: 0 <= k < |kind.cases| && kind.cases[k].equals == value &&
                   (forall j | 0 <= j < k :: kind.cases[j].equals != value) && ledger[i].selected == kind.cases[k].id)
             || ((forall j | 0 <= j < |kind.cases| :: kind.cases[j].equals != value) &&
                   ledger[i].selected == kind.otherwise))
  {
    AcceptedAt(w, ledger, i);
    var s, n := StateAt(w, ledger, i), ledger[i].node;
    ConditionReads(w, s, ledger[i]);
    assert RefsInRange(w, w.nodes[n]);
    SourceIsKnown(w, ledger, i, w.nodes[n].kind.source);
    value := Source(s, w.nodes[n].kind.source).value.value;
  }

  /** A result publishes only a whole value that its schema admits; a loop's check stops
      exactly on the value it is to stop on. */
  lemma ReadersReadWholeValues(w: Workflow, ledger: seq<Event>, i: nat) returns (value: Text)
    requires Declared(w) && Replayed(w, ledger).Some? && i < |ledger|
    requires ledger[i].ResultPublished? || ledger[i].LoopChecked?
    ensures ledger[i].node < |w.nodes|
    ensures var kind := w.nodes[ledger[i].node].kind;
            if ledger[i].ResultPublished? then
              kind.Result? && Known(w, ledger, i, kind.source, value) && value in kind.admits
            else
              && kind.LoopCheck? && Known(w, ledger, i, kind.source, value)
              && (ledger[i].stop <==> value == kind.stopsOn)
  {
    AcceptedAt(w, ledger, i);
    var s, n := StateAt(w, ledger, i), ledger[i].node;
    ReaderReads(w, s, ledger[i]);
    assert RefsInRange(w, w.nodes[n]);
    SourceIsKnown(w, ledger, i, w.nodes[n].kind.source);
    value := Source(s, w.nodes[n].kind.source).value.value;
  }

  /** An approval is asked for only once everything it observes is recorded whole. */
  lemma ApprovalsSeeWholeValues(w: Workflow, ledger: seq<Event>, i: nat)
    requires Declared(w) && Replayed(w, ledger).Some? && i < |ledger| && ledger[i].WorkflowApprovalRequested?
    ensures ledger[i].node < |w.nodes| && w.nodes[ledger[i].node].kind.Approval?
    ensures var observes := w.nodes[ledger[i].node].kind.observes;
            forall k | 0 <= k < |observes| :: KnownWhole(w, ledger, i, observes[k])
  {
    AcceptedAt(w, ledger, i);
    var s, n := StateAt(w, ledger, i), ledger[i].node;
    ApprovalReads(w, s, ledger[i]);
    assert RefsInRange(w, w.nodes[n]);
    var observes := w.nodes[n].kind.observes;
    forall k | 0 <= k < |observes|
      ensures KnownWhole(w, ledger, i, observes[k])
    {
      SourceIsKnown(w, ledger, i, observes[k]);
      assert Known(w, ledger, i, observes[k], Source(s, observes[k]).value.value);
    }
  }

  ghost predicate KnownRefused(w: Workflow, ledger: seq<Event>, i: nat, n: NodeId, admits: set<Text>)
    requires i <= |ledger|
  {
    exists value :: Known(w, ledger, i, n, value) && value !in admits
  }

  /** What the first i records must show for a node of this kind to fail. */
  ghost predicate Caused(w: Workflow, ledger: seq<Event>, i: nat, kind: Kind)
    requires i <= |ledger|
  {
    match kind
    case Condition(source, _, _) => KnownTruncated(w, ledger, i, source)
    case LoopCheck(_, _, source, _) => KnownTruncated(w, ledger, i, source)
    case Result(source, admits) => KnownTruncated(w, ledger, i, source) || KnownRefused(w, ledger, i, source, admits)
    case Approval(observes) => exists k :: 0 <= k < |observes| && KnownTruncated(w, ledger, i, observes[k])
    case Loop(checks) => forall k | 0 <= k < |checks| :: DecidedBy(ledger[..i], checks[k], LoopDecided(false))
    case OptimizationCheck => true
    case _ => false
  }

  /** A control node fails only for cause: what it reads was recorded incomplete, a
      result's value is not admitted, or every check of a loop said to go on.  Why an
      optimization's check fails is not recorded. */
  lemma ControlFailsForCause(w: Workflow, ledger: seq<Event>, i: nat)
    requires Declared(w) && Replayed(w, ledger).Some? && i < |ledger| && ledger[i].ControlFailed?
    ensures ledger[i].node < |w.nodes| && Caused(w, ledger, i, w.nodes[ledger[i].node].kind)
  {
    AcceptedAt(w, ledger, i);
    var s, n := StateAt(w, ledger, i), ledger[i].node;
    FailureReads(w, s, n);
    assert RefsInRange(w, w.nodes[n]);
    var kind := w.nodes[n].kind;
    if kind.Condition? || kind.LoopCheck? || kind.Result? {
      SourceIsKnown(w, ledger, i, kind.source);
    } else if kind.Approval? {
      var k :| 0 <= k < |kind.observes| && TruncatedAt(s, kind.observes[k]);
      SourceIsKnown(w, ledger, i, kind.observes[k]);
    } else if kind.Loop? {
      forall k | 0 <= k < |kind.checks|
        ensures DecidedBy(ledger[..i], kind.checks[k], LoopDecided(false))
      {
        DecisionIsRead(w, ledger[..i], kind.checks[k], LoopDecided(false));
      }
    }
  }

  // ---------------------------------------------------------------------
  // Lists in declaration order
  // ---------------------------------------------------------------------

  /** How many of the first k are marked. */
  function MarkedBefore(marks: seq<bool>, k: nat): nat
    requires k <= |marks|
  {
    if k == 0 then 0 else MarkedBefore(marks, k - 1) + if marks[k - 1] then 1 else 0
  }

  /** These are exactly the marked elements, in order. */
  predicate Picks(all: seq<NodeId>, marks: seq<bool>, picked: seq<NodeId>) {
    && |marks| == |all| && |picked| == MarkedBefore(marks, |marks|)
    && forall k | 0 <= k < |all| && marks[k] ::
         MarkedBefore(marks, k) < |picked| && picked[MarkedBefore(marks, k)] == all[k]
  }

  lemma {:induction false} MarkedAfterFirst(marks: seq<bool>, k: nat)
    requires 0 < |marks| && 1 <= k <= |marks|
    ensures MarkedBefore(marks, k) == (if marks[0] then 1 else 0) + MarkedBefore(marks[1..], k - 1)
  {
    if k > 1 {
      MarkedAfterFirst(marks, k - 1);
    }
  }

  lemma PickedInFront(all: seq<NodeId>, marks: seq<bool>, picked: seq<NodeId>)
    requires |all| > 0 && |marks| == |all| && Picks(all[1..], marks[1..], picked)
    ensures Picks(all, marks, (if marks[0] then [all[0]] else []) + picked)
  {
    MarkedAfterFirst(marks, |marks|);
    forall k | 0 < k < |all| && marks[k]
      ensures MarkedBefore(marks, k) == (if marks[0] then 1 else 0) + MarkedBefore(marks[1..], k - 1)
      ensures marks[1..][k - 1] && all[1..][k - 1] == all[k]
    {
      MarkedAfterFirst(marks, k);
    }
  }

  function OmittedMarks(s: RunState, ids: seq<NodeId>): seq<bool> {
    seq(|ids|, k requires 0 <= k < |ids| => HasStatus(s, ids[k], Omitted))
  }

  /** The omitted nodes among these are listed in their order. */
  lemma {:induction false} OmittedInOrder(s: RunState, ids: seq<NodeId>)
    requires forall i | 0 <= i < |ids| :: ids[i] < |s.nodes|
    ensures Picks(ids, OmittedMarks(s, ids), OmittedAmong(s, ids))
  {
    if |ids| > 0 {
      OmittedInOrder(s, ids[1..]);
      assert OmittedMarks(s, ids)[1..] == OmittedMarks(s, ids[1..]);
      PickedInFront(ids, OmittedMarks(s, ids), OmittedAmong(s, ids[1..]));
    }
  }

  function BranchNodes(branches: seq<Branch>): seq<NodeId> {
    seq(|branches|, k requires 0 <= k < |branches| => branches[k].nodeId)
  }

  function UnselectedMarks(branches: seq<Branch>, selected: Case): seq<bool> {
    seq(|branches|, k requires 0 <= k < |branches| => branches[k].selects != selected)
  }

  /** So are the branches that a case does not select. */
  lemma {:induction false} UnselectedInOrder(branches: seq<Branch>, selected: Case)
    ensures Picks(BranchNodes(branches), UnselectedMarks(branches, selected), Unselected(branches, selected))
  {
    if |branches| > 0 {
      var rest := branches[1..];
      UnselectedInOrder(rest, selected);
      assert UnselectedMarks(branches, selected)[1..] == UnselectedMarks(rest, selected);
      assert BranchNodes(branches)[1..] == BranchNodes(rest);
      PickedInFront(BranchNodes(branches), UnselectedMarks(branches, selected), Unselected(rest, selected));
    }
  }

  // ---------------------------------------------------------------------
  // Omissions, joins and completions
  // ---------------------------------------------------------------------

  function StatusMarks(ledger: seq<Event>, ids: seq<NodeId>, status: Status): seq<bool> {
    seq(|ids|, k requires 0 <= k < |ids| => StatusRead(ledger, ids[k]) == status)
  }

  /** Whatever the records before it must show for a node to be omitted for this reason. */
  predicate Warrants(ledger: seq<Event>, node: Node, reason: Omission) {
    match reason
    case ConditionNotSelected(selected) =>
      && node.when.Some? && selected != node.when.value.selects
      && DecidedBy(ledger, node.when.value.conditionId, ConditionDecided(selected))
    case LoopNotContinued => node.loopGuard.Some? && DecidedBy(ledger, node.loopGuard.value, LoopDecided(true))
    case OptimizationStopped =>
      node.optimizationGuard.Some? && DecidedBy(ledger, node.optimizationGuard.value, OptimizationDecided(true))
    case DependencyOmitted(omitted) =>
      && |omitted| > 0 && Picks(node.dependsOn, StatusMarks(ledger, node.dependsOn, Omitted), omitted)
      && (node.when.Some? ==>
            || StatusRead(ledger, node.when.value.conditionId) == Omitted
            || DecidedBy(ledger, node.when.value.conditionId, ConditionDecided(node.when.value.selects)))
  }

  lemma OmissionAccepted(w: Workflow, s: RunState, n: NodeId, reason: Omission)
    requires Declared(w) && Matches(w, s) && Accepts(w, s, NodeOmitted(n, reason))
    ensures n < |w.nodes| && DependenciesSettled(w, s, n) && AcceptsOmission(w, s, n, reason)
  {
  }

  lemma StatusesMark(w: Workflow, ledger: seq<Event>, ids: seq<NodeId>)
    requires Declared(w) && Replayed(w, ledger).Some? && forall k | 0 <= k < |ids| :: ids[k] < |w.nodes|
    ensures OmittedMarks(FinalState(w, ledger), ids) == StatusMarks(ledger, ids, Omitted)
  {
    forall k | 0 <= k < |ids|
      ensures OmittedMarks(FinalState(w, ledger), ids)[k] == StatusMarks(ledger, ids, Omitted)[k]
    {
      StandingIsRead(w, ledger, ids[k]);
    }
  }

  /** A node is omitted once its dependencies are settled, and for a reason that the
      records warrant: a decision against it, or the omitted dependencies it lists. */
  lemma OmissionsAreWarranted(w: Workflow, ledger: seq<Event>, i: nat)
    requires Declared(w) && Replayed(w, ledger).Some? && i < |ledger| && ledger[i].NodeOmitted?
    ensures var n, before := ledger[i].node, ledger[..i];
            && n < |w.nodes| && Warrants(before, w.nodes[n], ledger[i].reason)
            && forall k | 0 <= k < |w.nodes[n].dependsOn| ::
                 var status := StatusRead(before, w.nodes[n].dependsOn[k]);
                 status.Succeeded? || status.Omitted?
  {
    AcceptedAt(w, ledger, i);
    var s, n, before := StateAt(w, ledger, i), ledger[i].node, ledger[..i];
    OmissionAccepted(w, s, n, ledger[i].reason);
    var node := w.nodes[n];
    assert RefsInRange(w, node);
    forall k | 0 <= k < |node.dependsOn|
      ensures StatusRead(before, node.dependsOn[k]) == s.nodes[node.dependsOn[k]].status
    {
      StandingIsRead(w, before, node.dependsOn[k]);
    }
    match ledger[i].reason
    case ConditionNotSelected(selected) =>
      DecisionIsRead(w, before, node.when.value.conditionId, ConditionDecided(selected));
    case LoopNotContinued => DecisionIsRead(w, before, node.loopGuard.value, LoopDecided(true));
    case OptimizationStopped => DecisionIsRead(w, before, node.optimizationGuard.value, OptimizationDecided(true));
    case DependencyOmitted(omitted) =>
      OmittedInOrder(s, node.dependsOn);
      StatusesMark(w, before, node.dependsOn);
      if node.when.Some? {
        StandingIsRead(w, before, node.when.value.conditionId);
        DecisionIsRead(w, before, node.when.value.conditionId, ConditionDecided(node.when.value.selects));
      }
  }

  lemma JoinAccepted(w: Workflow, s: RunState, n: NodeId, selected: Case, completed: NodeId, unselected: seq<NodeId>)
    requires Declared(w) && Matches(w, s) && Accepts(w, s, NodeJoined(n, selected, completed, unselected))
    ensures n < |w.nodes| && w.nodes[n].kind.Join? && AcceptsJoin(w, s, n, selected, completed, unselected)
  {
  }

  /** A join takes the branch of the case its condition decided, which has succeeded, and
      lists all the others in order, each of them omitted. */
  lemma JoinsFollowTheirCondition(w: Workflow, ledger: seq<Event>, i: nat)
    requires Declared(w) && Replayed(w, ledger).Some? && i < |ledger| && ledger[i].NodeJoined?
    ensures var e, before := ledger[i], ledger[..i];
            && e.node < |w.nodes| && w.nodes[e.node].kind.Join?
            && var kind := w.nodes[e.node].kind;
            && DecidedBy(before, kind.conditionId, ConditionDecided(e.selected))
            && Branch(e.selected, e.completed) in kind.branches && StatusRead(before, e.completed) == Succeeded
            && Picks(BranchNodes(kind.branches), UnselectedMarks(kind.branches, e.selected), e.unselected)
            && forall k | 0 <= k < |e.unselected| :: StatusRead(before, e.unselected[k]) == Omitted
  {
    AcceptedAt(w, ledger, i);
    var s, e, before := StateAt(w, ledger, i), ledger[i], ledger[..i];
    JoinAccepted(w, s, e.node, e.selected, e.completed, e.unselected);
    var kind := w.nodes[e.node].kind;
    assert RefsInRange(w, w.nodes[e.node]);
    DecisionIsRead(w, before, kind.conditionId, ConditionDecided(e.selected));
    StandingIsRead(w, before, e.completed);
    UnselectedInOrder(kind.branches, e.selected);
    forall k | 0 <= k < |e.unselected|
      ensures StatusRead(before, e.unselected[k]) == Omitted
    {
      assert HasStatus(s, e.unselected[k], Omitted);
      StandingIsRead(w, before, e.unselected[k]);
    }
  }

  lemma LoopAccepted(w: Workflow, s: RunState, n: NodeId, iterations: nat, terminating: NodeId)
    requires WellFormed(w) && Matches(w, s) && Accepts(w, s, LoopCompleted(n, iterations, terminating))
    ensures n < |w.nodes| && w.nodes[n].kind.Loop?
    ensures var checks := w.nodes[n].kind.checks;
            && 1 <= iterations <= |checks| && checks[iterations - 1] == terminating && terminating < |w.nodes|
            && s.nodes[terminating].control == LoopDecided(true)
            && forall k | 0 <= k < iterations - 1 ::
                 checks[k] < |w.nodes| && s.nodes[checks[k]].control != LoopDecided(true)
  {
    assert RefsInRange(w, w.nodes[n]) && KindDeclared(w, w.nodes[n]);
  }

  /** A loop completes with its first check that was recorded to stop, counted from one. */
  lemma LoopsEndAtTheFirstStop(w: Workflow, ledger: seq<Event>, i: nat)
    requires WellFormed(w) && Replayed(w, ledger).Some? && i < |ledger| && ledger[i].LoopCompleted?
    ensures var e, before := ledger[i], ledger[..i];
            && e.node < |w.nodes| && w.nodes[e.node].kind.Loop?
            && var checks := w.nodes[e.node].kind.checks;
            && 1 <= e.iterations <= |checks| && checks[e.iterations - 1] == e.terminating
            && DecidedBy(before, e.terminating, LoopDecided(true))
            && forall k | 0 <= k < e.iterations - 1 :: !DecidedBy(before, checks[k], LoopDecided(true))
  {
    AcceptedAt(w, ledger, i);
    var e, before := ledger[i], ledger[..i];
    LoopAccepted(w, StateAt(w, ledger, i), e.node, e.iterations, e.terminating);
    var checks := w.nodes[e.node].kind.checks;
    DecisionIsRead(w, before, e.terminating, LoopDecided(true));
    forall k | 0 <= k < e.iterations - 1
      ensures !DecidedBy(before, checks[k], LoopDecided(true))
    {
      DecisionIsRead(w, before, checks[k], LoopDecided(true));
    }
  }

  /** The first of these checks were decided, each but the last to go on; the others were
      omitted; and the last decided to stop, or there are no others. */
  ghost predicate DecidedInOrder(ledger: seq<Event>, checks: seq<NodeId>, count: nat) {
    && 1 <= count <= |checks|
    && (forall k | 0 <= k < count - 1 :: DecidedBy(ledger, checks[k], OptimizationDecided(false)))
    && (forall k | count <= k < |checks| :: StatusRead(ledger, checks[k]) == Omitted)
    && (|| DecidedBy(ledger, checks[count - 1], OptimizationDecided(true))
        || (count == |checks| && DecidedBy(ledger, checks[count - 1], OptimizationDecided(false))))
  }

  /** What the reducer's walk over an optimization's checks gives: a first part of them,
      all succeeded, of which only the last may have said to stop, and did if more follow. */
  lemma {:induction false} CompletedExactly(s: RunState, checks: seq<NodeId>, stopped: bool)
    requires forall i | 0 <= i < |checks| :: checks[i] < |s.nodes|
    requires CompletedChecks(s, checks, stopped).Some?
    ensures var done := CompletedChecks(s, checks, stopped).value;
            && done <= checks && (stopped ==> done == [])
            && (forall k | 0 <= k < |done| ::
                  s.nodes[checks[k]].status.Succeeded? && s.nodes[checks[k]].control.OptimizationDecided?)
            && (forall k | 0 <= k < |done| - 1 :: s.nodes[checks[k]].control == OptimizationDecided(false))
            && (forall k | |done| <= k < |checks| :: s.nodes[checks[k]].status.Omitted?)
            && (|done| < |checks| && !stopped ==>
                  |done| > 0 && s.nodes[checks[|done| - 1]].control == OptimizationDecided(true))
  {
    if |checks| > 0 {
      var check := s.nodes[checks[0]];
      var stops := if check.status.Omitted? then true else check.control.stop;
      CompletedExactly(s, checks[1..], stops);
      var rest := CompletedChecks(s, checks[1..], stops).value;
      var done := CompletedChecks(s, checks, stopped).value;
      assert forall k | 1 <= k < |checks| :: checks[1..][k - 1] == checks[k];
    }
  }

  lemma OptimizationAccepted(w: Workflow, s: RunState, n: NodeId, candidates: nat, terminating: NodeId)
    requires Declared(w) && Matches(w, s) && Accepts(w, s, OptimizationCompleted(n, candidates, terminating))
    ensures n < |w.nodes| && w.nodes[n].kind.Optimization?
    ensures forall k | 0 <= k < |w.nodes[n].kind.checks| :: w.nodes[n].kind.checks[k] < |s.nodes|
    ensures var checks := w.nodes[n].kind.checks;
            var done := CompletedChecks(s, checks, false);
            && done.Some? && |done.value| > 0 && candidates == |done.value|
            && terminating == done.value[candidates - 1] && terminating < |s.nodes|
            && (s.nodes[terminating].control == OptimizationDecided(true) || candidates == |checks|)
  {
    assert RefsInRange(w, w.nodes[n]);
  }

  /** An optimization completes with the last of its checks that was decided. */
  lemma OptimizationsEndInOrder(w: Workflow, ledger: seq<Event>, i: nat)
    requires Declared(w) && Replayed(w, ledger).Some? && i < |ledger| && ledger[i].OptimizationCompleted?
    ensures var e, before := ledger[i], ledger[..i];
            && e.node < |w.nodes| && w.nodes[e.node].kind.Optimization?
            && var checks := w.nodes[e.node].kind.checks;
            DecidedInOrder(before, checks, e.candidates) && checks[e.candidates - 1] == e.terminating
  {
    AcceptedAt(w, ledger, i);
    var s, e, before := StateAt(w, ledger, i), ledger[i], ledger[..i];
    OptimizationAccepted(w, s, e.node, e.candidates, e.terminating);
    var checks := w.nodes[e.node].kind.checks;
    CompletedExactly(s, checks, false);
    forall k | 0 <= k < |checks|
      ensures StatusRead(before, checks[k]) == s.nodes[checks[k]].status
      ensures DecidedBy(before, checks[k], OptimizationDecided(true)) <==>
              s.nodes[checks[k]].control == OptimizationDecided(true)
      ensures DecidedBy(before, checks[k], OptimizationDecided(false)) <==>
              s.nodes[checks[k]].control == OptimizationDecided(false)
    {
      StandingIsRead(w, before, checks[k]);
      DecisionIsRead(w, before, checks[k], OptimizationDecided(true));
      DecisionIsRead(w, before, checks[k], OptimizationDecided(false));
    }
  }
}
