/** The braided workflow is one the compiler accepts. */
module BraidedCompiles {
  import opened Standard
  import opened WorkflowGraph
  import opened CompilerRules
  import opened BraidedJoins
  import opened RunReducer
  import opened Scheduler
  import opened SchedulerProgress

  function OfCase(n: NodeId, first: set<NodeId>, a: Case, second: set<NodeId>, b: Case): Option<Case> {
    if n in first then Some(a) else if n in second then Some(b) else None
  }

  /** The nodes of either case of one of the four conditions. */
  function Labelling(first: set<NodeId>, a: Case, second: set<NodeId>, b: Case): seq<Option<Case>> {
    seq(17, n requires 0 <= n < 17 => OfCase(n, first, a, second, b))
  }

  const IN_P: set<NodeId> := {2, 5, 6, 7, 9, 10, 12, 14}
  const IN_A: set<NodeId> := {5, 7, 9}
  const IN_B: set<NodeId> := {6, 10, 12}

  lemma OuterMember(w: Workflow, gate: Text, inner: Text, left: Text, right: Text, n: NodeId)
    requires Braided(w, gate, inner, left, right) && (n in IN_P || n == 13)
    ensures LabelFits(w, 1, Labelling(IN_P, CASE_P, {13}, CASE_Q), n)
  {
    var member := Labelling(IN_P, CASE_P, {13}, CASE_Q);
    assert 2 in w.nodes[5].dependsOn && 2 in w.nodes[6].dependsOn && 5 in w.nodes[7].dependsOn;
    assert 6 in w.nodes[10].dependsOn && 7 in w.nodes[9].dependsOn && 10 in w.nodes[12].dependsOn
      && 9 in w.nodes[14].dependsOn;
    assert forall m | m in IN_P :: member[m] == Some(CASE_P);
  }

  lemma OuterLabels(w: Workflow, gate: Text, inner: Text, left: Text, right: Text)
    requires Braided(w, gate, inner, left, right)
    ensures Labels(w, 1, Labelling(IN_P, CASE_P, {13}, CASE_Q))
  {
    forall n | 0 <= n < 17
      ensures LabelFits(w, 1, Labelling(IN_P, CASE_P, {13}, CASE_Q), n)
    {
      if n in IN_P || n == 13 {
        OuterMember(w, gate, inner, left, right, n);
      }
    }
  }

  lemma InnerMember(w: Workflow, gate: Text, inner: Text, left: Text, right: Text, n: NodeId)
    requires Braided(w, gate, inner, left, right) && (n in IN_A || n in IN_B)
    ensures LabelFits(w, 2, Labelling(IN_A, CASE_A, IN_B, CASE_B), n)
  {
    var member := Labelling(IN_A, CASE_A, IN_B, CASE_B);
    assert 5 in w.nodes[7].dependsOn && 6 in w.nodes[10].dependsOn && 7 in w.nodes[9].dependsOn
      && 10 in w.nodes[12].dependsOn;
    assert forall m | m in IN_A :: member[m] == Some(CASE_A);
    assert forall m | m in IN_B :: member[m] == Some(CASE_B);
  }

  lemma InnerLabels(w: Workflow, gate: Text, inner: Text, left: Text, right: Text)
    requires Braided(w, gate, inner, left, right)
    ensures Labels(w, 2, Labelling(IN_A, CASE_A, IN_B, CASE_B))
  {
    forall n | 0 <= n < 17
      ensures LabelFits(w, 2, Labelling(IN_A, CASE_A, IN_B, CASE_B), n)
    {
      if n in IN_A || n in IN_B {
        InnerMember(w, gate, inner, left, right, n);
      }
    }
  }

  lemma LeftLabels(w: Workflow, gate: Text, inner: Text, left: Text, right: Text)
    requires Braided(w, gate, inner, left, right)
    ensures Labels(w, 3, Labelling({7}, CASE_X, {8}, CASE_Y))
  {
    forall n | 0 <= n < 17
      ensures LabelFits(w, 3, Labelling({7}, CASE_X, {8}, CASE_Y), n)
    {
    }
  }

  lemma RightLabels(w: Workflow, gate: Text, inner: Text, left: Text, right: Text)
    requires Braided(w, gate, inner, left, right)
    ensures Labels(w, 4, Labelling({10}, CASE_X, {11}, CASE_Y))
  {
    forall n | 0 <= n < 17
      ensures LabelFits(w, 4, Labelling({10}, CASE_X, {11}, CASE_Y), n)
    {
    }
  }

  /** Every node of the cases of the second condition leads up from its branch, and so
      from the outer one. */
  lemma BranchesWait(w: Workflow, gate: Text, inner: Text, left: Text, right: Text)
    requires Braided(w, gate, inner, left, right)
    ensures Above(w, 5, 9) && Above(w, 7, 9) && Above(w, 6, 12) && Above(w, 10, 12) && Above(w, 2, 9)
  {
    AboveNext(w, 9, 7);
    AboveNext(w, 12, 10);
    AboveNext(w, 7, 5);
    AboveFurther(w, 9, 7, 5);
    AboveNext(w, 10, 6);
    AboveFurther(w, 12, 10, 6);
    AboveNext(w, 5, 2);
    AboveFurther(w, 7, 5, 2);
    AboveFurther(w, 9, 7, 2);
  }

  lemma OuterWaits(w: Workflow, gate: Text, inner: Text, left: Text, right: Text)
    requires Braided(w, gate, inner, left, right)
    ensures forall n | n in IN_P && n != 14 :: Above(w, n, 14)
  {
    BranchesWait(w, gate, inner, left, right);
    AboveNext(w, 14, 9);
    AboveNext(w, 14, 12);
    AboveFurther(w, 14, 9, 2);
    AboveFurther(w, 14, 9, 5);
    AboveFurther(w, 14, 9, 7);
    AboveFurther(w, 14, 12, 6);
    AboveFurther(w, 14, 12, 10);
  }

  lemma CaseEnds(w: Workflow, first: set<NodeId>, a: Case, second: set<NodeId>, b: Case, branch: Branch)
    requires a != b && first !! second && branch.nodeId < 17
    requires (branch.selects == a && branch.nodeId in first && forall n | n in first && n != branch.nodeId ::
             Above(w, n, branch.nodeId))
          || (branch.selects == b && branch.nodeId in second && forall n | n in second && n != branch.nodeId ::
            Above(w, n, branch.nodeId))
    ensures EndsCase(w, Labelling(first, a, second, b), branch)
  {
  }

  /** The rules of one condition, from its labelling. */
  lemma RulesOf(w: Workflow, c: NodeId, j: NodeId, member: seq<Option<Case>>, a: Branch, b: Branch, x: NodeId,
                y: NodeId)
    requires c < |w.nodes| && w.nodes[c].kind.Condition? && |w.nodes[c].kind.cases| == 1
    requires w.nodes[c].kind.cases[0].id == a.selects && w.nodes[c].kind.otherwise == b.selects
    requires x < |w.nodes| && w.nodes[x].when == Some(Guard(c, a.selects)) && y < |w.nodes|
    requires w.nodes[y].when == Some(Guard(c, b.selects))
    requires IsJoinOf(w, c, j) && w.nodes[j].kind.branches == [a, b] && forall m | 0 <= m < |w.nodes| && m != j ::
             !IsJoinOf(w, c, m)
    requires Labels(w, c, member) && EndsCase(w, member, a) && EndsCase(w, member, b)
    ensures ConditionRules(w, c)
  {
    var kind := w.nodes[c].kind;
    assert PossibleCases(kind.cases, kind.otherwise) == {a.selects, b.selects};
    forall i | 0 <= i < |w.nodes[j].kind.branches|
      ensures EndsCase(w, member, w.nodes[j].kind.branches[i])
    {
    }
    assert Regions(w, c, j, member);
  }

  lemma OuterConditionFits(w: Workflow, gate: Text, inner: Text, left: Text, right: Text)
    requires Braided(w, gate, inner, left, right)
    ensures ConditionRules(w, 1)
  {
    OuterLabels(w, gate, inner, left, right);
    OuterWaits(w, gate, inner, left, right);
    CaseEnds(w, IN_P, CASE_P, {13}, CASE_Q, Branch(CASE_P, 14));
    CaseEnds(w, IN_P, CASE_P, {13}, CASE_Q, Branch(CASE_Q, 13));
    RulesOf(w, 1, 15, Labelling(IN_P, CASE_P, {13}, CASE_Q), Branch(CASE_P, 14), Branch(CASE_Q, 13), 2, 13);
  }

  lemma InnerConditionFits(w: Workflow, gate: Text, inner: Text, left: Text, right: Text)
    requires Braided(w, gate, inner, left, right)
    ensures ConditionRules(w, 2)
  {
    InnerLabels(w, gate, inner, left, right);
    BranchesWait(w, gate, inner, left, right);
    CaseEnds(w, IN_A, CASE_A, IN_B, CASE_B, Branch(CASE_A, 9));
    CaseEnds(w, IN_A, CASE_A, IN_B, CASE_B, Branch(CASE_B, 12));
    RulesOf(w, 2, 14, Labelling(IN_A, CASE_A, IN_B, CASE_B), Branch(CASE_A, 9), Branch(CASE_B, 12), 5, 6);
  }

  lemma LeftConditionFits(w: Workflow, gate: Text, inner: Text, left: Text, right: Text)
    requires Braided(w, gate, inner, left, right)
    ensures ConditionRules(w, 3)
  {
    LeftLabels(w, gate, inner, left, right);
    CaseEnds(w, {7}, CASE_X, {8}, CASE_Y, Branch(CASE_X, 7));
    CaseEnds(w, {7}, CASE_X, {8}, CASE_Y, Branch(CASE_Y, 8));
    RulesOf(w, 3, 9, Labelling({7}, CASE_X, {8}, CASE_Y), Branch(CASE_X, 7), Branch(CASE_Y, 8), 7, 8);
  }

  lemma RightConditionFits(w: Workflow, gate: Text, inner: Text, left: Text, right: Text)
    requires Braided(w, gate, inner, left, right)
    ensures ConditionRules(w, 4)
  {
    RightLabels(w, gate, inner, left, right);
    CaseEnds(w, {10}, CASE_X, {11}, CASE_Y, Branch(CASE_X, 10));
    CaseEnds(w, {10}, CASE_X, {11}, CASE_Y, Branch(CASE_Y, 11));
    RulesOf(w, 4, 12, Labelling({10}, CASE_X, {11}, CASE_Y), Branch(CASE_X, 10), Branch(CASE_Y, 11), 10, 11);
  }

  lemma ChoiceCases(applies: Text, first: Case, otherwise: Case, dependsOn: seq<NodeId>, when: Option<Guard>)
    ensures var kind := Choice(applies, first, otherwise, dependsOn, when).kind;
            first in PossibleCases(kind.cases, kind.otherwise) && otherwise in PossibleCases(kind.cases, kind.otherwise)
  {
    var kind := Choice(applies, first, otherwise, dependsOn, when).kind;
    assert kind.cases[0].id == first;
  }

  lemma BraidedIsFlat(w: Workflow, gate: Text, inner: Text, left: Text, right: Text, n: NodeId)
    requires Braided(w, gate, inner, left, right) && n < 17
    ensures Flat(w.nodes[n])
  {
  }

  lemma BraidedNodeRules(w: Workflow, gate: Text, inner: Text, left: Text, right: Text, n: NodeId)
    requires Braided(w, gate, inner, left, right) && Declared(w) && n < 17
    ensures NodeRules(w, w.nodes[n])
  {
    ChoiceCases(gate, CASE_P, CASE_Q, [0], None);
    ChoiceCases(inner, CASE_A, CASE_B, [0, 1], Some(Guard(1, CASE_P)));
    ChoiceCases(left, CASE_X, CASE_Y, [0], None);
    ChoiceCases(right, CASE_X, CASE_Y, [0], None);
  }

  lemma Upon(w: Workflow, n: NodeId, m: NodeId, i: nat)
    requires m < |w.nodes| && i < |w.nodes[m].dependsOn| && w.nodes[m].dependsOn[i] == n
    ensures DependedUpon(w, n)
  {
  }

  lemma ControlsAreUsed(w: Workflow, gate: Text, inner: Text, left: Text, right: Text)
    requires Braided(w, gate, inner, left, right)
    ensures forall n | n in {1, 2, 3, 4, 9, 12, 14, 15} :: DependedUpon(w, n)
  {
    Upon(w, 1, 2, 1);
    Upon(w, 2, 5, 0);
    Upon(w, 3, 8, 0);
    Upon(w, 4, 11, 0);
    Upon(w, 9, 14, 0);
    Upon(w, 12, 14, 1);
    Upon(w, 14, 15, 0);
    Upon(w, 15, 16, 0);
  }

  lemma OneEntry(w: Workflow, gate: Text, inner: Text, left: Text, right: Text)
    requires Braided(w, gate, inner, left, right)
    ensures w.nodes[0].dependsOn == [] && forall n | 0 < n < 17 :: w.nodes[n].dependsOn != []
  {
  }

  lemma OthersMayEnd(w: Workflow, gate: Text, inner: Text, left: Text, right: Text, n: NodeId)
    requires Braided(w, gate, inner, left, right) && n < 17
    ensures n in {1, 2, 3, 4, 9, 12, 14, 15} || MayEnd(w.nodes[n].kind)
    ensures w.nodes[n].kind.Condition? ==> n in {1, 2, 3, 4}
  {
  }

  lemma BraidedEnds(w: Workflow, gate: Text, inner: Text, left: Text, right: Text)
    requires Braided(w, gate, inner, left, right)
    ensures EntryAndTerminals(w)
  {
    OneEntry(w, gate, inner, left, right);
    ControlsAreUsed(w, gate, inner, left, right);
    forall n | 0 <= n < |w.nodes| && !DependedUpon(w, n)
      ensures MayEnd(w.nodes[n].kind)
    {
      OthersMayEnd(w, gate, inner, left, right, n);
    }
  }

  lemma ConditionsFit(w: Workflow, gate: Text, inner: Text, left: Text, right: Text, c: NodeId)
    requires Braided(w, gate, inner, left, right) && c in {1, 2, 3, 4}
    ensures ConditionRules(w, c)
  {
    if c == 1 {
      OuterConditionFits(w, gate, inner, left, right);
    } else if c == 2 {
      InnerConditionFits(w, gate, inner, left, right);
    } else if c == 3 {
      LeftConditionFits(w, gate, inner, left, right);
    } else {
      RightConditionFits(w, gate, inner, left, right);
    }
  }

  /** The compiler accepts the braided workflow, whatever its conditions compare with. */
  lemma BraidedIsCompiled(w: Workflow, gate: Text, inner: Text, left: Text, right: Text)
    requires Braided(w, gate, inner, left, right)
    ensures Compiles(w)
  {
    BraidedIsWellFormed(w, gate, inner, left, right);
    BraidedEnds(w, gate, inner, left, right);
    forall n | 0 <= n < |w.nodes|
      ensures NodeRules(w, w.nodes[n]) && Flat(w.nodes[n])
    {
      BraidedNodeRules(w, gate, inner, left, right, n);
      BraidedIsFlat(w, gate, inner, left, right, n);
    }
    forall n | 0 <= n < |w.nodes|
      ensures UnrollingRules(w, n)
      ensures w.nodes[n].kind.Condition? ==> ConditionRules(w, n)
    {
      FlatUnrolls(w, n);
      OthersMayEnd(w, gate, inner, left, right, n);
      if w.nodes[n].kind.Condition? {
        ConditionsFit(w, gate, inner, left, right, n);
      }
    }
  }

  // ---------------------------------------------------------------------
  // Compiled workflows whose runs stop short
  // ---------------------------------------------------------------------

  function BraidedNodes(gate: Text, inner: Text, left: Text, right: Text): seq<Node> {
    [Task([], None), Choice(gate, CASE_P, CASE_Q, [0], None),
      Choice(inner, CASE_A, CASE_B, [0, 1], Some(Guard(1, CASE_P))),
     Choice(left, CASE_X, CASE_Y, [0], None), Choice(right, CASE_X, CASE_Y, [0], None),
     Task([2], Some(Guard(2, CASE_A))), Task([2], Some(Guard(2, CASE_B))),
     Task([5, 3], Some(Guard(3, CASE_X))), Task([3], Some(Guard(3, CASE_Y))),
       Meet(3, Branch(CASE_X, 7), Branch(CASE_Y, 8)),
     Task([6, 4], Some(Guard(4, CASE_X))), Task([4], Some(Guard(4, CASE_Y))),
       Meet(4, Branch(CASE_X, 10), Branch(CASE_Y, 11)),
     Task([1], Some(Guard(1, CASE_Q))), Meet(2, Branch(CASE_A, 9), Branch(CASE_B, 12)),
     Meet(1, Branch(CASE_P, 14), Branch(CASE_Q, 13)), Task([15], None)]
  }

  function BraidedWorkflow(gate: Text, inner: Text, left: Text, right: Text): (w: Workflow)
    ensures Braided(w, gate, inner, left, right)
  {
    Workflow(BraidedNodes(gate, inner, left, right), 1, Limits(None, None, None, None, None))
  }

  /** The compiler accepts a workflow one of whose runs reaches the "no ready node" error. */
  lemma CompiledYetStuck()
    ensures exists w: Workflow, s: RunState ::
              && Compiles(w) && Matches(w, s) && Reached(w, s)
              && Quiet(s) && !AllSettled(s) && SelectNext(w, s).None?
  {
    var w := BraidedWorkflow(1, 1, 1, 1);
    var o := [Done(), Chose(CASE_Q), Left(), Chose(CASE_Y), Chose(CASE_Y), Left(), Left(), Left(), Done(), Joined(),
              Left(), Done(), Joined(), Done(), FRESH, FRESH, FRESH];
    assert Orphaned(o);
    BraidedIsCompiled(w, 1, 1, 1, 1);
    NoReadyNodeIsReachable(w, o);
    assert Matches(w, Upto(o, 14));
  }

  /** The compiler accepts a workflow one of whose runs chooses a join that is refused. */
  lemma CompiledYetRefused()
    ensures exists w: Workflow, s: RunState, n: NodeId ::
              && Compiles(w) && Matches(w, s) && Reached(w, s) && Quiet(s) && n < |w.nodes|
                && SelectNext(w, s) == Some(TakeJoin(n))
              && ControlEvent(w, s, TakeJoin(n)).Some? && !Accepts(w, s, ControlEvent(w, s, TakeJoin(n)).value)
  {
    var w := BraidedWorkflow(0, 0, 0, 1);
    var o := [Done(), Chose(CASE_P), Chose(CASE_A), Chose(CASE_X), Chose(CASE_Y), Done(), Left(), Done(), Left(),
      Joined(),
              Left(), Done(), Joined(), Left(), FRESH, FRESH, FRESH];
    assert Rejected(o);
    BraidedIsCompiled(w, 0, 0, 0, 1);
    ChosenJoinIsRejected(w, o);
    assert Matches(w, Upto(o, 14)) && SelectNext(w, Upto(o, 14)) == Some(TakeJoin(14));
  }
}
