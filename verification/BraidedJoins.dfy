/** Runs the scheduler cannot finish.  A join of one condition may settle a case of
    another from a branch outside it; the outer join is then either rejected by the
    reducer or never ready at all. */
module BraidedJoins {
  import opened Standard
  import opened WorkflowGraph
  import opened RunReducer
  import opened Scheduler
  import opened RecoveredHistory
  import opened RunSafety
  import opened SchedulerProgress

  const SEEN := Evidence(0, false)

  // ---------------------------------------------------------------------
  // Runs that settle their nodes in declaration order
  // ---------------------------------------------------------------------

  function Done(): NodeState { FRESH.(status := Succeeded, attempt := 1, evidence := Some(SEEN)) }
  function Chose(c: Case): NodeState { FRESH.(status := Succeeded, attempt := 1, control := ConditionDecided(c)) }
  function Joined(): NodeState { FRESH.(status := Succeeded, attempt := 1) }
  function Left(): NodeState { FRESH.(status := Omitted) }

  /** The run after its first k nodes settled as given and no other has begun. */
  function Upto(outcome: seq<NodeState>, k: nat): RunState
    requires k <= |outcome|
  {
    RunState(Active, seq(|outcome|, i requires 0 <= i < |outcome| => if i < k then outcome[i] else FRESH),
             NOTHING.(nodeStarts := Starts(outcome, k)))
  }

  function Starts(outcome: seq<NodeState>, k: nat): nat
    requires k <= |outcome|
  {
    if k == 0 then 0 else Starts(outcome, k - 1) + if outcome[k - 1].evidence.Some? then 1 else 0
  }

  /** Some accepted ledger leads to this state. */
  ghost predicate Reached(w: Workflow, s: RunState)
    requires Declared(w)
  {
    exists ledger :: Replayed(w, ledger) == Some(Replay(s, false))
  }

  predicate Plain(node: Node) {
    node.loopGuard.None? && node.optimizationGuard.None?
  }

  /** The k-th node is about to settle: everything before it has, and its dependencies
      are among them. */
  predicate At(w: Workflow, outcome: seq<NodeState>, k: nat) {
    && Declared(w) && |outcome| == |w.nodes| && k < |outcome| && Plain(w.nodes[k])
    && (forall i | 0 <= i < k :: Settled(outcome[i]))
    && (forall i | 0 <= i < |w.nodes[k].dependsOn| :: w.nodes[k].dependsOn[i] < k)
  }

  lemma Records(w: Workflow, s: RunState, e: Event)
    requires Declared(w) && Reached(w, s) && !e.RunResumed? && !e.NodeInterrupted?
    requires GraphAdmits(w, s, e) && Accepts(w, s, e)
    ensures Reached(w, Effect(w, s, e))
  {
    var ledger :| Replayed(w, ledger) == Some(Replay(s, false));
    AppendReplays(w, ledger, e);
    assert Replayed(w, ledger + [e]) == Some(Replay(Effect(w, s, e), false));
  }

  /** Settled nodes are never chosen, so the first unsettled one is, once ready. */
  lemma {:induction false} ChoiceAt(w: Workflow, outcome: seq<NodeState>, k: nat, n: nat)
    requires At(w, outcome, k) && n <= k && Ready(w, Upto(outcome, k), k).Some?
    ensures SelectFrom(w, Upto(outcome, k), n) == Ready(w, Upto(outcome, k), k)
    decreases k - n
  {
    if n < k {
      assert !Upto(outcome, k).nodes[n].status.Pending?;
      assert Ready(w, Upto(outcome, k), n).None?;
      ChoiceAt(w, outcome, k, n + 1);
    }
  }

  lemma SettlesTo(w: Workflow, outcome: seq<NodeState>, k: nat, e: Event)
    requires At(w, outcome, k) && outcome[k].evidence.None? && Target(e) == Some(k)
    requires ControlRecord(e) && !e.WorkflowApprovalRequested?
    requires Accepts(w, Upto(outcome, k), e) && NodeAfter(w, Upto(outcome, k), e) == outcome[k]
    ensures Effect(w, Upto(outcome, k), e) == Upto(outcome, k + 1)
  {
    assert Effect(w, Upto(outcome, k), e).nodes == Upto(outcome, k + 1).nodes;
  }

  /** One control node settles as its record says. */
  lemma Decides(w: Workflow, outcome: seq<NodeState>, k: nat, t: Transition, e: Event)
    requires At(w, outcome, k) && Reached(w, Upto(outcome, k)) && outcome[k].evidence.None? && Target(e) == Some(k)
    requires ControlRecord(e) && !e.WorkflowApprovalRequested?
    requires Ready(w, Upto(outcome, k), k) == Some(t) && MatchesTransition(e, Some(t))
    requires Accepts(w, Upto(outcome, k), e) && NodeAfter(w, Upto(outcome, k), e) == outcome[k]
    ensures Reached(w, Upto(outcome, k + 1))
  {
    ChoiceAt(w, outcome, k, 0);
    SettlesTo(w, outcome, k, e);
    Records(w, Upto(outcome, k), e);
  }

  predicate GuardMet(outcome: seq<NodeState>, node: Node, k: nat)
    requires k <= |outcome|
  {
    node.when.Some? ==>
      node.when.value.conditionId < k && outcome[node.when.value.conditionId] == Chose(node.when.value.selects)
  }

  lemma FirstIsMember(ids: seq<NodeId>)
    ensures |ids| > 0 ==> ids[0] in ids
  {
  }

  lemma NoneLeft(w: Workflow, outcome: seq<NodeState>, k: nat)
    requires At(w, outcome, k)
    requires forall i | 0 <= i < |w.nodes[k].dependsOn| :: outcome[w.nodes[k].dependsOn[i]].status.Succeeded?
    ensures DependenciesSucceeded(w, Upto(outcome, k), k) && OmittedAmong(Upto(outcome, k), w.nodes[k].dependsOn) == []
  {
    var omitted := OmittedAmong(Upto(outcome, k), w.nodes[k].dependsOn);
    FirstIsMember(omitted);
  }

  /** The state while the k-th node runs. */
  function During(outcome: seq<NodeState>, k: nat): RunState
    requires k < |outcome|
  {
    Upto(outcome, k).(nodes := Upto(outcome, k).nodes[k := FRESH.(status := Running, attempt := 1)],
                      spent := NOTHING.(nodeStarts := Starts(outcome, k) + 1))
  }

  lemma StartLeads(w: Workflow, outcome: seq<NodeState>, k: nat)
    requires At(w, outcome, k) && w.maxNodes > 0 && w.limits == Limits(None, None, None, None, None)
    requires w.nodes[k].kind == Command(false)
    requires DependenciesSucceeded(w, Upto(outcome, k), k) && Selected(w, Upto(outcome, k), k)
    ensures Accepts(w, Upto(outcome, k), NodeStarted(k, 1))
    ensures Effect(w, Upto(outcome, k), NodeStarted(k, 1)) == During(outcome, k)
  {
    var s := Upto(outcome, k);
    assert WithStatus(s, Running) == {} && !SomeStatus(s, Failed);
  }

  lemma FinishLeads(w: Workflow, outcome: seq<NodeState>, k: nat)
    requires At(w, outcome, k) && outcome[k] == Done()
    ensures var e := NodeSucceeded(k, 1, SEEN, NOTHING);
            Accepts(w, During(outcome, k), e) && Effect(w, During(outcome, k), e) == Upto(outcome, k + 1)
  {
    var s, e := During(outcome, k), NodeSucceeded(k, 1, SEEN, NOTHING);
    assert !SomeStatus(s, Failed);
    assert s.nodes[k].status.Running? && forall i | 0 <= i < k :: !s.nodes[i].status.Running?;
    assert FirstWith(s, Running) == Some(k);
    assert Effect(w, s, e).nodes == Upto(outcome, k + 1).nodes;
  }

  lemma ExecuteReady(w: Workflow, outcome: seq<NodeState>, k: nat)
    requires At(w, outcome, k) && w.nodes[k].kind == Command(false) && GuardMet(outcome, w.nodes[k], k)
    requires DependenciesSucceeded(w, Upto(outcome, k), k) && OmittedAmong(Upto(outcome, k), w.nodes[k].dependsOn) == []
    ensures Ready(w, Upto(outcome, k), k) == Some(Execute(k)) && Selected(w, Upto(outcome, k), k)
  {
  }

  lemma Executes(w: Workflow, outcome: seq<NodeState>, k: nat)
    requires At(w, outcome, k) && Reached(w, Upto(outcome, k)) && outcome[k] == Done()
    requires w.maxNodes > 0 && w.limits == Limits(None, None, None, None, None)
    requires w.nodes[k].kind == Command(false) && GuardMet(outcome, w.nodes[k], k)
    requires forall i | 0 <= i < |w.nodes[k].dependsOn| :: outcome[w.nodes[k].dependsOn[i]].status.Succeeded?
    ensures Reached(w, Upto(outcome, k + 1))
  {
    NoneLeft(w, outcome, k);
    ExecuteReady(w, outcome, k);
    ChoiceAt(w, outcome, k, 0);
    StartLeads(w, outcome, k);
    FinishLeads(w, outcome, k);
    Records(w, Upto(outcome, k), NodeStarted(k, 1));
    Records(w, During(outcome, k), NodeSucceeded(k, 1, SEEN, NOTHING));
  }

  lemma Evaluates(w: Workflow, outcome: seq<NodeState>, k: nat, selected: Case)
    requires At(w, outcome, k) && Reached(w, Upto(outcome, k)) && outcome[k] == Chose(selected)
    requires w.nodes[k].kind.Condition? && GuardMet(outcome, w.nodes[k], k)
    requires var kind := w.nodes[k].kind;
             kind.source < k && outcome[kind.source] == Done()
               && selected == SelectedCase(kind.cases, kind.otherwise, SEEN.value)
    requires forall i | 0 <= i < |w.nodes[k].dependsOn| :: outcome[w.nodes[k].dependsOn[i]].status.Succeeded?
    ensures Reached(w, Upto(outcome, k + 1))
  {
    var s := Upto(outcome, k);
    NoneLeft(w, outcome, k);
    assert !SomeStatus(s, Failed) && ControlStep(s);
    Decides(w, outcome, k, EvaluateCondition(k), ConditionEvaluated(k, selected));
  }

  lemma OmitsUnselected(w: Workflow, outcome: seq<NodeState>, k: nat, selected: Case)
    requires At(w, outcome, k) && Reached(w, Upto(outcome, k)) && outcome[k] == Left()
    requires w.nodes[k].kind.Guardable() && w.nodes[k].when.Some? && w.nodes[k].when.value.selects != selected
    requires w.nodes[k].when.value.conditionId < k && outcome[w.nodes[k].when.value.conditionId] == Chose(selected)
    ensures Reached(w, Upto(outcome, k + 1))
  {
    var s := Upto(outcome, k);
    assert !SomeStatus(s, Failed) && ControlStep(s);
    Decides(w, outcome, k, OmitCondition(k, selected), NodeOmitted(k, ConditionNotSelected(selected)));
  }

  lemma LeftAmong(w: Workflow, outcome: seq<NodeState>, k: nat)
    requires At(w, outcome, k)
    requires exists i :: 0 <= i < |w.nodes[k].dependsOn| && outcome[w.nodes[k].dependsOn[i]] == Left()
    ensures |OmittedAmong(Upto(outcome, k), w.nodes[k].dependsOn)| > 0
  {
    var i :| 0 <= i < |w.nodes[k].dependsOn| && outcome[w.nodes[k].dependsOn[i]] == Left();
    assert w.nodes[k].dependsOn[i] in OmittedAmong(Upto(outcome, k), w.nodes[k].dependsOn);
  }

  lemma OmissionReady(w: Workflow, outcome: seq<NodeState>, k: nat, omitted: seq<NodeId>)
    requires At(w, outcome, k) && w.nodes[k].kind.Guardable() && w.nodes[k].when.Some?
    requires w.nodes[k].when.value.conditionId < k
    requires GuardMet(outcome, w.nodes[k], k) || outcome[w.nodes[k].when.value.conditionId] == Left()
    requires omitted == OmittedAmong(Upto(outcome, k), w.nodes[k].dependsOn) && |omitted| > 0
    ensures Ready(w, Upto(outcome, k), k) == Some(OmitDependency(k, omitted))
  {
  }

  lemma OmissionLeads(w: Workflow, outcome: seq<NodeState>, k: nat, omitted: seq<NodeId>)
    requires At(w, outcome, k) && w.nodes[k].kind.Guardable() && w.nodes[k].when.Some?
    requires w.nodes[k].when.value.conditionId < k
    requires GuardMet(outcome, w.nodes[k], k) || outcome[w.nodes[k].when.value.conditionId] == Left()
    requires omitted == OmittedAmong(Upto(outcome, k), w.nodes[k].dependsOn) && |omitted| > 0
    ensures Accepts(w, Upto(outcome, k), NodeOmitted(k, DependencyOmitted(omitted)))
  {
    var s := Upto(outcome, k);
    assert !SomeStatus(s, Failed) && ControlStep(s);
  }

  lemma OmitsDependent(w: Workflow, outcome: seq<NodeState>, k: nat)
    requires At(w, outcome, k) && Reached(w, Upto(outcome, k)) && outcome[k] == Left() && w.nodes[k].kind.Guardable()
    requires w.nodes[k].when.Some?
    requires w.nodes[k].when.value.conditionId < k
    requires GuardMet(outcome, w.nodes[k], k) || outcome[w.nodes[k].when.value.conditionId] == Left()
    requires exists i :: 0 <= i < |w.nodes[k].dependsOn| && outcome[w.nodes[k].dependsOn[i]] == Left()
    ensures Reached(w, Upto(outcome, k + 1))
  {
    var omitted := OmittedAmong(Upto(outcome, k), w.nodes[k].dependsOn);
    LeftAmong(w, outcome, k);
    OmissionReady(w, outcome, k, omitted);
    OmissionLeads(w, outcome, k, omitted);
    Decides(w, outcome, k, OmitDependency(k, omitted), NodeOmitted(k, DependencyOmitted(omitted)));
  }

  lemma TwoBranches(taken: Branch, other: Branch, first: bool)
    requires taken.selects != other.selects
    ensures var branches := if first then [taken, other] else [other, taken];
            BranchFor(branches, taken.selects) == Some(taken) && Unselected(branches, taken.selects) == [other.nodeId]
  {
    var branches := if first then [taken, other] else [other, taken];
    var rest := branches[1..];
    assert rest == (if first then [other] else [taken]) && rest[1..] == [];
    assert Unselected(rest, taken.selects) == if first then [other.nodeId] else [];
  }

  lemma JoinAccepted(w: Workflow, s: RunState, k: NodeId, taken: Branch, other: Branch)
    requires Declared(w) && Matches(w, s) && k < |w.nodes| && w.nodes[k].kind.Join?
    requires ControlStep(s) && !SomeStatus(s, Failed) && s.nodes[k] == FRESH && DependenciesSettled(w, s, k)
    requires HasStatus(s, w.nodes[k].kind.conditionId, Succeeded)
    requires s.nodes[w.nodes[k].kind.conditionId].control == ConditionDecided(taken.selects)
    requires BranchFor(w.nodes[k].kind.branches, taken.selects) == Some(taken) && HasStatus(s, taken.nodeId, Succeeded)
    requires Unselected(w.nodes[k].kind.branches, taken.selects) == [other.nodeId]
    requires HasStatus(s, other.nodeId, Omitted)
    ensures Accepts(w, s, NodeJoined(k, taken.selects, taken.nodeId, [other.nodeId]))
  {
  }

  lemma JoinReady(w: Workflow, outcome: seq<NodeState>, k: nat, taken: Branch)
    requires At(w, outcome, k) && w.nodes[k].kind.Join?
    requires w.nodes[k].kind.conditionId < k && outcome[w.nodes[k].kind.conditionId] == Chose(taken.selects)
    ensures Ready(w, Upto(outcome, k), k) == Some(TakeJoin(k)) && DependenciesSettled(w, Upto(outcome, k), k)
  {
  }

  lemma JoinDue(w: Workflow, outcome: seq<NodeState>, k: nat, taken: Branch, other: Branch, first: bool)
    requires At(w, outcome, k) && w.nodes[k].kind.Join?
    requires w.nodes[k].kind.branches == if first then [taken, other] else [other, taken]
    requires taken.selects != other.selects && taken.nodeId < k && other.nodeId < k
    requires outcome[taken.nodeId].status.Succeeded? && outcome[other.nodeId] == Left()
    requires w.nodes[k].kind.conditionId < k && outcome[w.nodes[k].kind.conditionId] == Chose(taken.selects)
    ensures Ready(w, Upto(outcome, k), k) == Some(TakeJoin(k))
    ensures Accepts(w, Upto(outcome, k), NodeJoined(k, taken.selects, taken.nodeId, [other.nodeId]))
  {
    var s := Upto(outcome, k);
    TwoBranches(taken, other, first);
    JoinReady(w, outcome, k, taken);
    assert !SomeStatus(s, Failed) && ControlStep(s);
    JoinAccepted(w, s, k, taken, other);
  }

  lemma Joins(w: Workflow, outcome: seq<NodeState>, k: nat, taken: Branch, other: Branch, first: bool)
    requires At(w, outcome, k) && Reached(w, Upto(outcome, k)) && outcome[k] == Joined() && w.nodes[k].kind.Join?
    requires w.nodes[k].kind.branches == if first then [taken, other] else [other, taken]
    requires taken.selects != other.selects && taken.nodeId < k && other.nodeId < k
    requires outcome[taken.nodeId].status.Succeeded? && outcome[other.nodeId] == Left()
    requires w.nodes[k].kind.conditionId < k && outcome[w.nodes[k].kind.conditionId] == Chose(taken.selects)
    ensures Reached(w, Upto(outcome, k + 1))
  {
    JoinDue(w, outcome, k, taken, other, first);
    Decides(w, outcome, k, TakeJoin(k), NodeJoined(k, taken.selects, taken.nodeId, [other.nodeId]));
  }

  // ---------------------------------------------------------------------
  // The braided workflow
  // ---------------------------------------------------------------------

  const CASE_P: Case := 1
  const CASE_Q: Case := 2
  const CASE_A: Case := 3
  const CASE_B: Case := 4
  const CASE_X: Case := 5
  const CASE_Y: Case := 6

  function Task(dependsOn: seq<NodeId>, when: Option<Guard>): Node {
    Node(Command(false), dependsOn, when, None, None, None)
  }

  /** A condition on the entry's output, whose first case applies to one value only. */
  function Choice(applies: Text, first: Case, otherwise: Case, dependsOn: seq<NodeId>, when: Option<Guard>): Node {
    Node(Condition(0, [CaseTest(first, applies)], otherwise), dependsOn, when, None, None, None)
  }

  function Meet(conditionId: NodeId, first: Branch, second: Branch): Node {
    Node(Join(conditionId, [first, second]), [first.nodeId, second.nodeId], None, None, None, None)
  }

  /** Case A of the second condition holds a join of the third, and case B a join of
      the fourth; neither of those conditions belongs to a case itself.  The values
      say which case each condition selects for what the entry outputs. */
  predicate Braided(w: Workflow, gate: Text, inner: Text, left: Text, right: Text) {
    && w.maxNodes == 1 && w.limits == Limits(None, None, None, None, None) && |w.nodes| == 17
    && w.nodes[0] == Task([], None)
    && w.nodes[1] == Choice(gate, CASE_P, CASE_Q, [0], None)
    && w.nodes[2] == Choice(inner, CASE_A, CASE_B, [0, 1], Some(Guard(1, CASE_P)))
    && w.nodes[3] == Choice(left, CASE_X, CASE_Y, [0], None)
    && w.nodes[4] == Choice(right, CASE_X, CASE_Y, [0], None)
    && w.nodes[5] == Task([2], Some(Guard(2, CASE_A)))
    && w.nodes[6] == Task([2], Some(Guard(2, CASE_B)))
    && w.nodes[7] == Task([5, 3], Some(Guard(3, CASE_X)))
    && w.nodes[8] == Task([3], Some(Guard(3, CASE_Y)))
    && w.nodes[9] == Meet(3, Branch(CASE_X, 7), Branch(CASE_Y, 8))
    && w.nodes[10] == Task([6, 4], Some(Guard(4, CASE_X)))
    && w.nodes[11] == Task([4], Some(Guard(4, CASE_Y)))
    && w.nodes[12] == Meet(4, Branch(CASE_X, 10), Branch(CASE_Y, 11))
    && w.nodes[13] == Task([1], Some(Guard(1, CASE_Q)))
    && w.nodes[14] == Meet(2, Branch(CASE_A, 9), Branch(CASE_B, 12))
    && w.nodes[15] == Meet(1, Branch(CASE_P, 14), Branch(CASE_Q, 13))
    && w.nodes[16] == Task([15], None)
  }

  lemma BraidedIsDeclared(w: Workflow, gate: Text, inner: Text, left: Text, right: Text)
    requires Braided(w, gate, inner, left, right)
    ensures Declared(w)
  {
  }

  /** A join's declaration is complete when a chain leads from one of its branches up
      to its condition. */
  lemma MeetIsDeclared(w: Workflow, n: NodeId, chain: seq<NodeId>)
    requires Declared(w) && n < |w.nodes| && IsChain(w, chain)
    requires w.nodes[n].kind.Join? && |w.nodes[n].kind.branches| == 2
    requires w.nodes[n].dependsOn == [w.nodes[n].kind.branches[0].nodeId, w.nodes[n].kind.branches[1].nodeId]
    requires chain[0] in w.nodes[n].dependsOn && chain[|chain| - 1] == w.nodes[n].kind.conditionId
    requires var kind := w.nodes[w.nodes[n].kind.conditionId].kind;
             && kind.Condition? && |kind.cases| == 1
             && w.nodes[n].kind.branches[0].selects == kind.cases[0].id != kind.otherwise ==
               w.nodes[n].kind.branches[1].selects
    ensures KindDeclared(w, w.nodes[n])
  {
    var kind := w.nodes[w.nodes[n].kind.conditionId].kind;
    assert PossibleCases(kind.cases, kind.otherwise) == {kind.cases[0].id, kind.otherwise};
    assert Above(w, w.nodes[n].kind.conditionId, chain[0]);
  }

  lemma BraidedIsAcyclic(w: Workflow, gate: Text, inner: Text, left: Text, right: Text)
    requires Braided(w, gate, inner, left, right)
    ensures Acyclic(w)
  {
    assert Ranks(w, seq(17, i requires 0 <= i < 17 => i));
  }

  lemma InnerMeetsAreDeclared(w: Workflow, gate: Text, inner: Text, left: Text, right: Text)
    requires Braided(w, gate, inner, left, right) && Declared(w)
    ensures KindDeclared(w, w.nodes[9]) && KindDeclared(w, w.nodes[12])
  {
    MeetIsDeclared(w, 9, [8, 3]);
    MeetIsDeclared(w, 12, [11, 4]);
  }

  lemma OuterMeetsAreDeclared(w: Workflow, gate: Text, inner: Text, left: Text, right: Text)
    requires Braided(w, gate, inner, left, right) && Declared(w)
    ensures KindDeclared(w, w.nodes[14]) && KindDeclared(w, w.nodes[15])
  {
    assert IsChain(w, [9, 7, 5, 2]);
    MeetIsDeclared(w, 14, [9, 7, 5, 2]);
    MeetIsDeclared(w, 15, [13, 1]);
  }

  lemma OthersAreDeclared(w: Workflow, gate: Text, inner: Text, left: Text, right: Text, n: NodeId)
    requires Braided(w, gate, inner, left, right) && Declared(w) && n < 17
    ensures GuardsDeclared(w, w.nodes[n])
    ensures n !in {9, 12, 14, 15} ==> KindDeclared(w, w.nodes[n])
  {
  }

  lemma BraidedIsWellFormed(w: Workflow, gate: Text, inner: Text, left: Text, right: Text)
    requires Braided(w, gate, inner, left, right)
    ensures WellFormed(w)
  {
    BraidedIsDeclared(w, gate, inner, left, right);
    BraidedIsAcyclic(w, gate, inner, left, right);
    forall n | 0 <= n < |w.nodes|
      ensures GuardsDeclared(w, w.nodes[n]) && KindDeclared(w, w.nodes[n])
    {
      OthersAreDeclared(w, gate, inner, left, right, n);
      if n in {9, 12} {
        InnerMeetsAreDeclared(w, gate, inner, left, right);
      } else if n in {14, 15} {
        OuterMeetsAreDeclared(w, gate, inner, left, right);
      }
    }
  }

  lemma BraidedStarts(w: Workflow, o: seq<NodeState>, gate: Text, inner: Text, left: Text, right: Text)
    requires Braided(w, gate, inner, left, right) && |o| == 17 && o[0] == Done()
    ensures Declared(w) && Reached(w, Upto(o, 1))
  {
    BraidedIsDeclared(w, gate, inner, left, right);
    assert Upto(o, 0) == Initial(w);
    assert Replayed(w, []) == Some(Replay(Upto(o, 0), false));
    Executes(w, o, 0);
  }

  /** The run in which the second condition is omitted with its case. */
  predicate Orphaned(o: seq<NodeState>) {
    && |o| == 17
    && o[0] == Done() && o[1] == Chose(CASE_Q) && o[2] == Left() && o[3] == Chose(CASE_Y) && o[4] == Chose(CASE_Y)
    && o[5] == Left() && o[6] == Left() && o[7] == Left() && o[8] == Done() && o[9] == Joined()
    && o[10] == Left() && o[11] == Done() && o[12] == Joined() && o[13] == Done() && o[14] == FRESH && o[15] == FRESH
      && o[16] == FRESH
  }

  lemma OrphanedConditions(w: Workflow, o: seq<NodeState>)
    requires Braided(w, 1, 1, 1, 1) && Orphaned(o)
    ensures Declared(w) && Reached(w, Upto(o, 5))
  {
    BraidedStarts(w, o, 1, 1, 1, 1);
    Evaluates(w, o, 1, CASE_Q);
    OmitsUnselected(w, o, 2, CASE_Q);
    Evaluates(w, o, 3, CASE_Y);
    Evaluates(w, o, 4, CASE_Y);
  }

  lemma OrphanedRoots(w: Workflow, o: seq<NodeState>)
    requires Braided(w, 1, 1, 1, 1) && Orphaned(o) && Declared(w) && Reached(w, Upto(o, 5))
    ensures Reached(w, Upto(o, 8))
  {
    assert o[w.nodes[5].dependsOn[0]] == Left() && o[w.nodes[6].dependsOn[0]] == Left();
    OmitsDependent(w, o, 5);
    OmitsDependent(w, o, 6);
    OmitsUnselected(w, o, 7, CASE_Y);
  }

  lemma OrphanedLeft(w: Workflow, o: seq<NodeState>)
    requires Braided(w, 1, 1, 1, 1) && Orphaned(o) && Declared(w) && Reached(w, Upto(o, 8))
    ensures Reached(w, Upto(o, 10))
  {
    Executes(w, o, 8);
    Joins(w, o, 9, Branch(CASE_Y, 8), Branch(CASE_X, 7), false);
  }

  lemma OrphanedRight(w: Workflow, o: seq<NodeState>)
    requires Braided(w, 1, 1, 1, 1) && Orphaned(o) && Declared(w) && Reached(w, Upto(o, 10))
    ensures Reached(w, Upto(o, 12))
  {
    OmitsUnselected(w, o, 10, CASE_Y);
    Executes(w, o, 11);
  }

  lemma OrphanedJoin(w: Workflow, o: seq<NodeState>)
    requires Braided(w, 1, 1, 1, 1) && Orphaned(o) && Declared(w) && Reached(w, Upto(o, 12))
    ensures Reached(w, Upto(o, 14))
  {
    Joins(w, o, 12, Branch(CASE_Y, 11), Branch(CASE_X, 10), false);
    Executes(w, o, 13);
  }

  lemma OrphanedRun(w: Workflow, o: seq<NodeState>)
    requires Braided(w, 1, 1, 1, 1) && Orphaned(o)
    ensures Declared(w) && Reached(w, Upto(o, 14))
  {
    OrphanedConditions(w, o);
    OrphanedRoots(w, o);
    OrphanedLeft(w, o);
    OrphanedRight(w, o);
    OrphanedJoin(w, o);
  }

  /** The "no ready node" error is reachable: a quiet run that is not finished, and
      that an accepted ledger leads to, with no transition left. */
  lemma NoReadyNodeIsReachable(w: Workflow, o: seq<NodeState>)
    requires Braided(w, 1, 1, 1, 1) && Orphaned(o)
    ensures Declared(w) && Reached(w, Upto(o, 14))
    ensures Quiet(Upto(o, 14)) && !AllSettled(Upto(o, 14)) && Orphan(w, Upto(o, 14), 14)
    ensures SelectNext(w, Upto(o, 14)).None?
  {
    OrphanedRun(w, o);
    NothingLeft(w, Upto(o, 14));
  }

  lemma NothingLeft(w: Workflow, s: RunState)
    requires Declared(w) && Matches(w, s) && |w.nodes| == 17
    requires w.nodes[14] == Meet(2, Branch(CASE_A, 9), Branch(CASE_B, 12)) && w.nodes[15].dependsOn == [14, 13]
    requires w.nodes[16].dependsOn == [15]
    requires s.nodes[14] == FRESH && s.nodes[15] == FRESH && s.nodes[2] == Left() && s.nodes[9] == Joined()
    requires s.nodes[12] == Joined()
    requires forall i | 0 <= i < 14 :: Settled(s.nodes[i])
    ensures Orphan(w, s, 14) && SelectNext(w, s).None?
  {
    assert [9, 12][1..] == [12] && [12][1..] == [];
    assert OmittedAmong(s, [12]) == [];
    assert OmittedAmong(s, [9, 12]) == [];
    assert !DependenciesSettled(w, s, 15) by { assert w.nodes[15].dependsOn[0] == 14; }
    assert !DependenciesSettled(w, s, 16) by { assert w.nodes[16].dependsOn[0] == 15; }
    assert forall n | 0 <= n < 17 :: Ready(w, s, n).None?;
  }

  /** The run in which case A is selected and case B's join completes all the same. */
  predicate Rejected(o: seq<NodeState>) {
    && |o| == 17
    && o[0] == Done() && o[1] == Chose(CASE_P) && o[2] == Chose(CASE_A) && o[3] == Chose(CASE_X)
      && o[4] == Chose(CASE_Y)
    && o[5] == Done() && o[6] == Left() && o[7] == Done() && o[8] == Left() && o[9] == Joined()
    && o[10] == Left() && o[11] == Done() && o[12] == Joined() && o[13] == Left() && o[14] == FRESH && o[15] == FRESH
      && o[16] == FRESH
  }

  lemma RejectedGate(w: Workflow, o: seq<NodeState>)
    requires Braided(w, 0, 0, 0, 1) && Rejected(o) && Declared(w) && Reached(w, Upto(o, 1))
    ensures Reached(w, Upto(o, 3))
  {
    Evaluates(w, o, 1, CASE_P);
    Evaluates(w, o, 2, CASE_A);
  }

  lemma RejectedInner(w: Workflow, o: seq<NodeState>)
    requires Braided(w, 0, 0, 0, 1) && Rejected(o) && Declared(w) && Reached(w, Upto(o, 3))
    ensures Reached(w, Upto(o, 5))
  {
    Evaluates(w, o, 3, CASE_X);
    Evaluates(w, o, 4, CASE_Y);
  }

  lemma RejectedRoots(w: Workflow, o: seq<NodeState>)
    requires Braided(w, 0, 0, 0, 1) && Rejected(o) && Declared(w) && Reached(w, Upto(o, 5))
    ensures Reached(w, Upto(o, 7))
  {
    Executes(w, o, 5);
    OmitsUnselected(w, o, 6, CASE_A);
  }

  lemma RejectedBranches(w: Workflow, o: seq<NodeState>)
    requires Braided(w, 0, 0, 0, 1) && Rejected(o) && Declared(w) && Reached(w, Upto(o, 7))
    ensures Reached(w, Upto(o, 9))
  {
    Executes(w, o, 7);
    OmitsUnselected(w, o, 8, CASE_X);
  }

  lemma RejectedLeft(w: Workflow, o: seq<NodeState>)
    requires Braided(w, 0, 0, 0, 1) && Rejected(o) && Declared(w) && Reached(w, Upto(o, 9))
    ensures Reached(w, Upto(o, 11))
  {
    Joins(w, o, 9, Branch(CASE_X, 7), Branch(CASE_Y, 8), true);
    OmitsUnselected(w, o, 10, CASE_Y);
  }

  lemma RejectedRight(w: Workflow, o: seq<NodeState>)
    requires Braided(w, 0, 0, 0, 1) && Rejected(o) && Declared(w) && Reached(w, Upto(o, 11))
    ensures Reached(w, Upto(o, 13))
  {
    Executes(w, o, 11);
    Joins(w, o, 12, Branch(CASE_Y, 11), Branch(CASE_X, 10), false);
  }

  lemma RejectedRun(w: Workflow, o: seq<NodeState>)
    requires Braided(w, 0, 0, 0, 1) && Rejected(o)
    ensures Declared(w) && Reached(w, Upto(o, 13))
  {
    BraidedStarts(w, o, 0, 0, 0, 1);
    RejectedGate(w, o);
    RejectedInner(w, o);
    RejectedRoots(w, o);
    RejectedBranches(w, o);
    RejectedLeft(w, o);
    RejectedRight(w, o);
  }

  /** A run whose next record the reducer rejects: the scheduler takes the outer join
      although an unselected branch succeeded. */
  lemma ChosenJoinIsRejected(w: Workflow, o: seq<NodeState>)
    requires Braided(w, 0, 0, 0, 1) && Rejected(o)
    ensures Declared(w) && Reached(w, Upto(o, 14)) && Quiet(Upto(o, 14))
    ensures SelectNext(w, Upto(o, 14)) == Some(TakeJoin(14))
    ensures ControlEvent(w, Upto(o, 14), TakeJoin(14)) == Some(NodeJoined(14, CASE_A, 9, [12]))
    ensures !Accepts(w, Upto(o, 14), NodeJoined(14, CASE_A, 9, [12]))
  {
    RejectedRun(w, o);
    OmitsUnselected(w, o, 13, CASE_P);
    RejectedChoice(w, o);
  }

  lemma RejectedIsQuiet(o: seq<NodeState>)
    requires Rejected(o)
    ensures Quiet(Upto(o, 14))
  {
    assert forall i | 0 <= i < 14 :: Settled(o[i]);
  }

  lemma RejectedAt(w: Workflow, o: seq<NodeState>)
    requires Braided(w, 0, 0, 0, 1) && Rejected(o) && Declared(w)
    ensures At(w, o, 14)
  {
    assert forall i | 0 <= i < 14 :: Settled(o[i]);
  }

  lemma RejectedChoice(w: Workflow, o: seq<NodeState>)
    requires Braided(w, 0, 0, 0, 1) && Rejected(o) && Declared(w)
    ensures Quiet(Upto(o, 14))
    ensures SelectNext(w, Upto(o, 14)) == Some(TakeJoin(14))
    ensures ControlEvent(w, Upto(o, 14), TakeJoin(14)) == Some(NodeJoined(14, CASE_A, 9, [12]))
    ensures !Accepts(w, Upto(o, 14), NodeJoined(14, CASE_A, 9, [12]))
  {
    RejectedIsQuiet(o);
    TwoBranches(Branch(CASE_A, 9), Branch(CASE_B, 12), true);
    BranchLeft(w, Upto(o, 14));
    RejectedAt(w, o);
    ChoiceAt(w, o, 14, 0);
  }

  lemma BranchLeft(w: Workflow, s: RunState)
    requires Declared(w) && Matches(w, s) && |w.nodes| == 17
    requires w.nodes[14] == Meet(2, Branch(CASE_A, 9), Branch(CASE_B, 12))
    requires BranchFor(w.nodes[14].kind.branches, CASE_A) == Some(Branch(CASE_A, 9))
    requires Unselected(w.nodes[14].kind.branches, CASE_A) == [12]
    requires s.nodes[14] == FRESH && s.nodes[2] == Chose(CASE_A) && s.nodes[9] == Joined() && s.nodes[12] == Joined()
    ensures Ready(w, s, 14) == Some(TakeJoin(14))
    ensures ControlEvent(w, s, TakeJoin(14)) == Some(NodeJoined(14, CASE_A, 9, [12]))
    ensures !Accepts(w, s, NodeJoined(14, CASE_A, 9, [12]))
  {
    assert !HasStatus(s, [12][0], Omitted);
  }

  // ---------------------------------------------------------------------
  // Exactly when a chosen join is accepted
  // ---------------------------------------------------------------------

  /** The record of a chosen join is accepted exactly when the branch of the selected
      case succeeded and every other branch was omitted. */
  lemma ChosenJoinAcceptedExactly(w: Workflow, s: RunState, n: NodeId)
    requires WellFormed(w) && Sound(w, s) && ControlStep(s) && !SomeStatus(s, Failed)
    requires n < |w.nodes| && w.nodes[n].kind.Join? && Ready(w, s, n) == Some(TakeJoin(n))
    ensures ConditionDecision(s, w.nodes[n].kind.conditionId).Some? && ControlEvent(w, s, TakeJoin(n)).Some?
    ensures Accepts(w, s, ControlEvent(w, s, TakeJoin(n)).value) <==>
            forall i | 0 <= i < |w.nodes[n].kind.branches| ::
              var branch := w.nodes[n].kind.branches[i];
              HasStatus(s, branch.nodeId,
                        if branch.selects == ConditionDecision(s, w.nodes[n].kind.conditionId).value then Succeeded
                          else Omitted)
  {
    var kind := w.nodes[n].kind;
    var c := ConditionDecision(s, kind.conditionId).value;
    assert NodeSound(w, s, n) && NodeSound(w, s, kind.conditionId);
    assert KindDeclared(w, w.nodes[n]);
    assert c in PossibleCases(w.nodes[kind.conditionId].kind.cases, w.nodes[kind.conditionId].kind.otherwise);
    JoinAcceptance(w, s, n, c);
  }

  lemma JoinAcceptance(w: Workflow, s: RunState, n: NodeId, c: Case)
    requires Declared(w) && Matches(w, s) && ControlStep(s) && !SomeStatus(s, Failed)
    requires n < |w.nodes| && w.nodes[n].kind.Join? && s.nodes[n].status.Pending? && s.nodes[n].attempt == 0
    requires DependenciesSettled(w, s, n)
    requires HasStatus(s, w.nodes[n].kind.conditionId, Succeeded)
    requires s.nodes[w.nodes[n].kind.conditionId].control == ConditionDecided(c)
    requires var branches := w.nodes[n].kind.branches;
             && (exists i :: 0 <= i < |branches| && branches[i].selects == c)
             && forall i, j | 0 <= i < j < |branches| :: branches[i].selects != branches[j].selects
    ensures ControlEvent(w, s, TakeJoin(n)).Some?
    ensures Accepts(w, s, ControlEvent(w, s, TakeJoin(n)).value) <==>
            forall i | 0 <= i < |w.nodes[n].kind.branches| ::
              var branch := w.nodes[n].kind.branches[i];
              HasStatus(s, branch.nodeId, if branch.selects == c then Succeeded else Omitted)
  {
    var branches := w.nodes[n].kind.branches;
    var taken := BranchFor(branches, c).value;
    var t :| 0 <= t < |branches| && branches[t] == taken;
    var unselected := Unselected(branches, c);
    var e := NodeJoined(n, c, taken.nodeId, unselected);
    assert ControlEvent(w, s, TakeJoin(n)) == Some(e);
    assert Accepts(w, s, e) <==> AcceptsJoin(w, s, n, c, taken.nodeId, unselected);
    if AcceptsJoin(w, s, n, c, taken.nodeId, unselected) {
      forall i | 0 <= i < |branches|
        ensures HasStatus(s, branches[i].nodeId, if branches[i].selects == c then Succeeded else Omitted)
      {
        if branches[i].selects != c {
          assert branches[i].nodeId in unselected;
        } else {
          assert i == t;
        }
      }
    } else if !HasStatus(s, taken.nodeId, Succeeded) {
      assert branches[t].selects == c;
    } else {
      var u :| 0 <= u < |unselected| && !HasStatus(s, unselected[u], Omitted);
      assert unselected[u] in unselected;
      var i :| 0 <= i < |branches| && branches[i].selects != c && branches[i].nodeId == unselected[u];
    }
  }
}
