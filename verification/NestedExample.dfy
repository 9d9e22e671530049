/** A compiled workflow with one condition, whose regions nest. */
module NestedExample {
  import opened Standard
  import opened WorkflowGraph
  import opened CompilerRules
  import opened BraidedJoins
  import opened BraidedCompiles
  import opened NestedRegions

  /** An entry, a condition on its output, one node for each case, their join and an end. */
  predicate Diamond(w: Workflow) {
    && |w.nodes| == 6 && w.maxNodes > 0
    && w.nodes[0] == Task([], None)
    && w.nodes[1] == Choice(1, CASE_A, CASE_B, [0], None)
    && w.nodes[2] == Task([1], Some(Guard(1, CASE_A)))
    && w.nodes[3] == Task([1], Some(Guard(1, CASE_B)))
    && w.nodes[4] == Meet(1, Branch(CASE_A, 2), Branch(CASE_B, 3))
    && w.nodes[5] == Task([4], None)
  }

  function DiamondHomes(): seq<Home> {
    [Everywhere, Everywhere, InCase(Guard(1, CASE_A)), InCase(Guard(1, CASE_B)), Everywhere, Everywhere]
  }

  function DiamondRank(): seq<nat> {
    seq(6, i requires 0 <= i < 6 => i)
  }

  lemma DiamondRanks(w: Workflow)
    requires Diamond(w)
    ensures Declared(w) && Ranks(w, DiamondRank())
  {
  }

  lemma DiamondNode(w: Workflow, n: NodeId)
    requires Diamond(w) && Declared(w) && n < 6
    ensures NodeNests(w, DiamondHomes(), n)
  {
    var homes := DiamondHomes();
    assert Around(homes, homes[n], 0) == homes[n];
    assert Around(homes, InCase(Guard(1, CASE_A)), 1) == Everywhere
      && Around(homes, InCase(Guard(1, CASE_B)), 1) == Everywhere;
    assert n == 4 ==> w.nodes[n].kind.branches == [Branch(CASE_A, 2), Branch(CASE_B, 3)];
  }

  lemma DiamondNests(w: Workflow)
    requires Diamond(w)
    ensures Nests(w, DiamondHomes(), DiamondRank())
  {
    DiamondRanks(w);
    forall n | 0 <= n < |w.nodes|
      ensures NodeNests(w, DiamondHomes(), n)
    {
      DiamondNode(w, n);
    }
  }

  lemma DiamondNodeRules(w: Workflow, n: NodeId)
    requires Diamond(w) && Declared(w) && n < 6
    ensures GuardsDeclared(w, w.nodes[n]) && (n != 4 ==> KindDeclared(w, w.nodes[n]))
    ensures NodeRules(w, w.nodes[n]) && (w.nodes[n].kind.Condition? ==> n == 1) && Flat(w.nodes[n])
    ensures (n > 0 ==> w.nodes[n].dependsOn != []) && (n in {1, 4} || MayEnd(w.nodes[n].kind))
  {
    assert w.nodes[1].kind.cases[0].id == CASE_A;
    assert CASE_A in PossibleCases(w.nodes[1].kind.cases, w.nodes[1].kind.otherwise);
  }

  lemma DiamondJoin(w: Workflow)
    requires Diamond(w) && Declared(w)
    ensures KindDeclared(w, w.nodes[4])
  {
    assert IsChain(w, [2, 1]);
    MeetIsDeclared(w, 4, [2, 1]);
  }

  lemma DiamondIsWellFormed(w: Workflow)
    requires Diamond(w)
    ensures WellFormed(w)
  {
    DiamondRanks(w);
    DiamondJoin(w);
    forall n | 0 <= n < |w.nodes|
      ensures GuardsDeclared(w, w.nodes[n]) && KindDeclared(w, w.nodes[n])
    {
      DiamondNodeRules(w, n);
    }
  }

  lemma DiamondEnds(w: Workflow)
    requires Diamond(w) && Declared(w)
    ensures EntryAndTerminals(w)
  {
    assert 1 in w.nodes[2].dependsOn && 4 in w.nodes[5].dependsOn;
    assert DependedUpon(w, 1) && DependedUpon(w, 4);
    forall n | 0 <= n < |w.nodes|
      ensures (n > 0 ==> w.nodes[n].dependsOn != []) && (n in {1, 4} || MayEnd(w.nodes[n].kind))
    {
      DiamondNodeRules(w, n);
    }
    assert w.nodes[0].dependsOn == [];
  }

  function DiamondCases(): seq<Option<Case>> {
    [None, None, Some(CASE_A), Some(CASE_B), None, None]
  }

  lemma DiamondLabels(w: Workflow)
    requires Diamond(w)
    ensures Labels(w, 1, DiamondCases())
  {
    forall n | 0 <= n < |w.nodes|
      ensures LabelFits(w, 1, DiamondCases(), n)
    {
    }
  }

  lemma DiamondCaseEnds(w: Workflow)
    requires Diamond(w)
    ensures EndsCase(w, DiamondCases(), Branch(CASE_A, 2)) && EndsCase(w, DiamondCases(), Branch(CASE_B, 3))
  {
  }

  lemma DiamondCondition(w: Workflow)
    requires Diamond(w)
    ensures ConditionRules(w, 1)
  {
    DiamondLabels(w);
    DiamondCaseEnds(w);
    RulesOf(w, 1, 4, DiamondCases(), Branch(CASE_A, 2), Branch(CASE_B, 3), 2, 3);
  }

  /** The theorem about nested workflows has instances that the compiler accepts. */
  lemma DiamondFits(w: Workflow)
    requires Diamond(w)
    ensures Compiles(w) && Nests(w, DiamondHomes(), DiamondRank())
  {
    DiamondIsWellFormed(w);
    DiamondNests(w);
    DiamondEnds(w);
    DiamondCondition(w);
    forall n | 0 <= n < |w.nodes|
      ensures NodeRules(w, w.nodes[n]) && (w.nodes[n].kind.Condition? ==> n == 1) && Flat(w.nodes[n])
    {
      DiamondNodeRules(w, n);
    }
    forall n | 0 <= n < |w.nodes|
      ensures UnrollingRules(w, n)
    {
      FlatUnrolls(w, n);
    }
  }
}
