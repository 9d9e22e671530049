/** What the compiler's rules say of the cases of conditions: which nodes belong to none. */
module RegionGraph {
  import opened Standard
  import opened WorkflowGraph
  import opened OptimizationChain
  import opened CompilerRules

  // ---------------------------------------------------------------------
  // Chains
  // ---------------------------------------------------------------------

  lemma AboveItself(w: Workflow, n: NodeId)
    requires n < |w.nodes|
    ensures Above(w, n, n)
  {
    assert IsChain(w, [n]) && [n][0] == n;
  }

  /** What stands above a node is the node, or stands above a dependency. */
  lemma AboveThrough(w: Workflow, a: NodeId, n: NodeId) returns (d: NodeId)
    requires Above(w, a, n) && a != n
    ensures n < |w.nodes| && d in w.nodes[n].dependsOn && d < |w.nodes| && Above(w, a, d)
  {
    var chain :| IsChain(w, chain) && chain[0] == n && chain[|chain| - 1] == a;
    d := chain[1];
    var rest := chain[1..];
    assert forall i | 0 <= i < |rest| :: rest[i] == chain[i + 1];
    assert chain[0 + 1] in w.nodes[chain[0]].dependsOn;
    assert IsChain(w, rest) && rest[0] == d && rest[|rest| - 1] == a;
  }

  lemma DependencyRank(w: Workflow, rank: seq<nat>, n: NodeId, d: NodeId)
    requires Ranks(w, rank) && n < |w.nodes| && d in w.nodes[n].dependsOn && d < |w.nodes|
    ensures rank[d] < rank[n]
  {
    var i :| 0 <= i < |w.nodes[n].dependsOn| && w.nodes[n].dependsOn[i] == d;
  }

  lemma {:induction false} AboveRank(w: Workflow, rank: seq<nat>, a: NodeId, n: NodeId)
    requires Ranks(w, rank) && Above(w, a, n) && n < |w.nodes|
    ensures a < |w.nodes| && (a == n || rank[a] < rank[n])
    decreases rank[n]
  {
    if a != n {
      var d := AboveThrough(w, a, n);
      DependencyRank(w, rank, n, d);
      AboveRank(w, rank, a, d);
    }
  }

  lemma {:induction false} AboveOn(w: Workflow, rank: seq<nat>, a: NodeId, b: NodeId, n: NodeId)
    requires Ranks(w, rank) && Above(w, a, b) && Above(w, b, n) && n < |w.nodes|
    ensures Above(w, a, n)
    decreases rank[n]
  {
    if b != n {
      var d := AboveThrough(w, b, n);
      DependencyRank(w, rank, n, d);
      AboveOn(w, rank, a, b, d);
      AboveFurther(w, n, d, a);
    }
  }

  lemma NoCycle(w: Workflow, rank: seq<nat>, a: NodeId, b: NodeId)
    requires Ranks(w, rank) && a < |w.nodes| && b < |w.nodes| && Above(w, a, b) && Above(w, b, a)
    ensures a == b
  {
    AboveRank(w, rank, a, b);
    AboveRank(w, rank, b, a);
  }

  // ---------------------------------------------------------------------
  // Labels
  // ---------------------------------------------------------------------

  /** A node of a case stands below the condition. */
  lemma {:induction false} LabelBelow(w: Workflow, rank: seq<nat>, c: NodeId, member: seq<Option<Case>>, n: NodeId)
    requires WellFormed(w) && Ranks(w, rank) && Labels(w, c, member) && n < |w.nodes| && member[n].Some?
    ensures Above(w, c, n) && c != n
    decreases rank[n]
  {
    assert LabelFits(w, c, member, n) && RefsInRange(w, w.nodes[n]) && GuardsDeclared(w, w.nodes[n]);
    if w.nodes[n].when.Some? && w.nodes[n].when.value.conditionId == c {
      AboveNext(w, n, c);
    } else {
      var d :| d in w.nodes[n].dependsOn && d < |member| && member[d] == member[n];
      DependencyRank(w, rank, n, d);
      LabelBelow(w, rank, c, member, d);
      AboveFurther(w, n, d, c);
    }
  }

  /** The guarded node through which a node belongs to its case. */
  lemma {:induction false} LabelRoot(w: Workflow, rank: seq<nat>, c: NodeId, member: seq<Option<Case>>,
                                     n: NodeId) returns (g: NodeId)
    requires WellFormed(w) && Ranks(w, rank) && Labels(w, c, member) && n < |w.nodes| && member[n].Some?
    ensures g < |w.nodes| && w.nodes[g].when == Some(Guard(c, member[n].value)) && member[g] == member[n]
    ensures Above(w, g, n)
    decreases rank[n]
  {
    assert LabelFits(w, c, member, n);
    if w.nodes[n].when.Some? && w.nodes[n].when.value.conditionId == c {
      g := n;
      AboveItself(w, n);
    } else {
      var d :| d in w.nodes[n].dependsOn && d < |member| && member[d] == member[n];
      DependencyRank(w, rank, n, d);
      g := LabelRoot(w, rank, c, member, d);
      AboveFurther(w, n, d, g);
    }
  }

  /** Labels are determined by the graph. */
  lemma {:induction false} LabelsAgree(w: Workflow, rank: seq<nat>, c: NodeId, a: seq<Option<Case>>,
                                       b: seq<Option<Case>>, n: NodeId)
    requires Ranks(w, rank) && Labels(w, c, a) && Labels(w, c, b) && n < |w.nodes| && a[n].Some?
    ensures b[n] == a[n]
    decreases rank[n]
  {
    assert LabelFits(w, c, a, n) && LabelFits(w, c, b, n);
    if !(w.nodes[n].when.Some? && w.nodes[n].when.value.conditionId == c) {
      var d :| d in w.nodes[n].dependsOn && d < |a| && a[d] == a[n];
      DependencyRank(w, rank, n, d);
      LabelsAgree(w, rank, c, a, b, d);
    }
  }

  /** A case spreads to every node below its nodes, up to the condition's join. */
  lemma {:induction false} LabelSpreads(w: Workflow, rank: seq<nat>, c: NodeId, j: NodeId, member: seq<Option<Case>>,
                                        a: NodeId, n: NodeId)
    requires WellFormed(w) && Ranks(w, rank) && Regions(w, c, j, member) && n < |w.nodes|
    requires Above(w, a, n) && a < |w.nodes| && member[a].Some?
    ensures member[n] == member[a] || (Above(w, j, n) && Above(w, a, j))
    decreases rank[n]
  {
    if a != n {
      var d := AboveThrough(w, a, n);
      DependencyRank(w, rank, n, d);
      LabelSpreads(w, rank, c, j, member, a, d);
      if member[d] == member[a] {
        LabelReaches(w, rank, c, j, member, a, n, d);
      } else {
        AboveFurther(w, n, d, j);
      }
    }
  }

  lemma LabelReaches(w: Workflow, rank: seq<nat>, c: NodeId, j: NodeId, member: seq<Option<Case>>, a: NodeId,
                     n: NodeId, d: NodeId)
    requires WellFormed(w) && Ranks(w, rank) && Regions(w, c, j, member) && n < |w.nodes|
    requires d in w.nodes[n].dependsOn && d < |w.nodes| && Above(w, a, d) && a < |w.nodes| && member[a].Some?
    requires member[d] == member[a]
    ensures member[n] == member[a] || (n == j && Above(w, j, n) && Above(w, a, j))
  {
    assert LabelFits(w, c, member, n);
    AboveFurther(w, n, d, a);
    if n == c {
      LabelBelow(w, rank, c, member, d);
      DependencyRank(w, rank, n, d);
      AboveRank(w, rank, c, d);
    } else if IsJoinOf(w, c, n) {
      AboveItself(w, n);
    }
  }

  /** A join has a branch for each case its condition can select, at least two in all. */
  lemma BranchOf(w: Workflow, c: NodeId, j: NodeId, k: Case) returns (i: nat)
    requires Compiles(w) && c < |w.nodes| && IsJoinOf(w, c, j)
    ensures w.nodes[c].kind.Condition? && |w.nodes[j].kind.branches| > 1
    ensures w.nodes[j].kind.branches[0].selects != w.nodes[j].kind.branches[1].selects
    ensures k in PossibleCases(w.nodes[c].kind.cases, w.nodes[c].kind.otherwise) ==>
              i < |w.nodes[j].kind.branches| && w.nodes[j].kind.branches[i].selects == k
  {
    assert KindDeclared(w, w.nodes[j]) && NodeRules(w, w.nodes[j]) && NodeRules(w, w.nodes[c]);
    i := 0;
    if k in PossibleCases(w.nodes[c].kind.cases, w.nodes[c].kind.otherwise) {
      i :| 0 <= i < |w.nodes[j].kind.branches| && w.nodes[j].kind.branches[i].selects == k;
    }
  }

  lemma BranchEnters(w: Workflow, j: NodeId, i: nat)
    requires WellFormed(w) && j < |w.nodes| && w.nodes[j].kind.Join? && i < |w.nodes[j].kind.branches|
    ensures var b := w.nodes[j].kind.branches[i].nodeId;
            b < |w.nodes| && b in w.nodes[j].dependsOn && Above(w, b, j)
  {
    assert KindDeclared(w, w.nodes[j]) && RefsInRange(w, w.nodes[j]);
    var b := w.nodes[j].kind.branches[i].nodeId;
    assert w.nodes[j].dependsOn[i] == b;
    AboveNext(w, j, b);
  }

  /** A guard names a case its condition can select. */
  lemma RootCase(w: Workflow, c: NodeId, g: NodeId, k: Case)
    requires Compiles(w) && g < |w.nodes| && w.nodes[g].when == Some(Guard(c, k)) && c < |w.nodes|
    requires w.nodes[c].kind.Condition?
    ensures k in PossibleCases(w.nodes[c].kind.cases, w.nodes[c].kind.otherwise)
  {
    assert NodeRules(w, w.nodes[g]);
  }

  /** The branch of the case to which a node belongs: the node stands above it. */
  lemma CaseEndsAt(w: Workflow, rank: seq<nat>, c: NodeId, j: NodeId, member: seq<Option<Case>>,
                   n: NodeId) returns (branch: Branch)
    requires Compiles(w) && Ranks(w, rank) && c < |w.nodes| && w.nodes[c].kind.Condition? && Regions(w, c, j, member)
    requires n < |w.nodes| && member[n].Some?
    ensures branch in w.nodes[j].kind.branches && branch.selects == member[n].value
    ensures branch.nodeId < |w.nodes| && branch.nodeId in w.nodes[j].dependsOn
    ensures Above(w, n, branch.nodeId) && Above(w, branch.nodeId, j) && Above(w, n, j) && n != j
  {
    var g := LabelRoot(w, rank, c, member, n);
    RootCase(w, c, g, member[n].value);
    var i := BranchOf(w, c, j, member[n].value);
    BranchEnters(w, j, i);
    branch := w.nodes[j].kind.branches[i];
    NodeAboveBranch(w, c, j, member, n, branch);
    AboveFurther(w, j, branch.nodeId, n);
  }

  lemma NodeAboveBranch(w: Workflow, c: NodeId, j: NodeId, member: seq<Option<Case>>, n: NodeId, branch: Branch)
    requires n < |w.nodes| && Regions(w, c, j, member) && branch in w.nodes[j].kind.branches
    requires member[n] == Some(branch.selects)
    ensures branch.nodeId < |w.nodes| && Above(w, n, branch.nodeId) && n != j
  {
    assert EndsCase(w, member, branch) && LabelFits(w, c, member, j);
    AboveItself(w, branch.nodeId);
  }

  /** A condition has a case other than the given one, with a guarded node of its own. */
  lemma AnotherCase(w: Workflow, rank: seq<nat>, c: NodeId, j: NodeId, member: seq<Option<Case>>,
                    k: Case) returns (g: NodeId)
    requires Compiles(w) && Ranks(w, rank) && c < |w.nodes| && w.nodes[c].kind.Condition? && Regions(w, c, j, member)
    ensures g < |w.nodes| && w.nodes[g].when.Some? && w.nodes[g].when.value.conditionId == c
    ensures member[g] == Some(w.nodes[g].when.value.selects) && member[g] != Some(k)
  {
    var first := BranchOf(w, c, j, k);
    var branch := w.nodes[j].kind.branches[if w.nodes[j].kind.branches[0].selects == k then 1 else 0];
    assert EndsCase(w, member, branch);
    g := LabelRoot(w, rank, c, member, branch.nodeId);
  }

  // ---------------------------------------------------------------------
  // Nodes outside every case
  // ---------------------------------------------------------------------

  /** The node belongs to no case of any condition. */
  ghost predicate Free(w: Workflow, n: NodeId)
    requires n < |w.nodes|
  {
    forall c: NodeId, member: seq<Option<Case>> | 0 <= c < |w.nodes| && w.nodes[c].kind.Condition?
      && Labels(w, c, member) :: member[n].None?
  }

  lemma GuardDeclared(w: Workflow, n: NodeId)
    requires WellFormed(w) && n < |w.nodes| && w.nodes[n].when.Some?
    ensures var c := w.nodes[n].when.value.conditionId;
            c < |w.nodes| && w.nodes[c].kind.Condition? && c in w.nodes[n].dependsOn
    ensures !w.nodes[n].kind.Join?
  {
    assert GuardsDeclared(w, w.nodes[n]) && RefsInRange(w, w.nodes[n]);
  }

  lemma FreeUnguarded(w: Workflow, n: NodeId)
    requires Compiles(w) && n < |w.nodes| && Free(w, n)
    ensures w.nodes[n].when.None?
  {
    if w.nodes[n].when.Some? {
      GuardDeclared(w, n);
      var c := w.nodes[n].when.value.conditionId;
      var j, member := RegionsOf(w, c);
      var rank :| Ranks(w, rank);
      DependencyRank(w, rank, n, c);
      GuardLabels(w, c, member, n);
    }
  }

  lemma RegionsOf(w: Workflow, c: NodeId) returns (j: NodeId, member: seq<Option<Case>>)
    requires Compiles(w) && c < |w.nodes| && w.nodes[c].kind.Condition?
    ensures Regions(w, c, j, member)
  {
    assert ConditionRules(w, c);
    j, member :| Regions(w, c, j, member);
  }

  lemma GuardLabels(w: Workflow, c: NodeId, member: seq<Option<Case>>, n: NodeId)
    requires Labels(w, c, member) && n < |w.nodes| && n != c && w.nodes[n].when.Some?
    requires w.nodes[n].when.value.conditionId == c
    requires !w.nodes[n].kind.Join?
    ensures member[n].Some?
  {
    assert LabelFits(w, c, member, n);
  }

  /** What a node outside every case depends on is outside too, a join apart. */
  lemma FreeDependency(w: Workflow, n: NodeId, d: NodeId)
    requires Compiles(w) && n < |w.nodes| && Free(w, n) && !w.nodes[n].kind.Join? && d in w.nodes[n].dependsOn
    requires d < |w.nodes|
    ensures Free(w, d)
  {
    var rank :| Ranks(w, rank);
    forall c: NodeId, member: seq<Option<Case>> | 0 <= c < |w.nodes| && w.nodes[c].kind.Condition?
      && Labels(w, c, member)
      ensures member[d].None?
    {
      assert LabelFits(w, c, member, n);
      if member[d].Some? && n == c {
        LabelBelow(w, rank, c, member, d);
        DependencyRank(w, rank, n, d);
        AboveRank(w, rank, c, d);
      }
    }
  }

  /** The condition of a join outside every case is outside too: a case that held it would
      hold the join. */
  lemma FreeCondition(w: Workflow, n: NodeId)
    requires Compiles(w) && n < |w.nodes| && Free(w, n) && w.nodes[n].kind.Join?
    ensures w.nodes[n].kind.conditionId < |w.nodes| && Free(w, w.nodes[n].kind.conditionId)
  {
    var c := w.nodes[n].kind.conditionId;
    assert KindDeclared(w, w.nodes[n]) && RefsInRange(w, w.nodes[n]);
    var rank :| Ranks(w, rank);
    forall outer: NodeId, member: seq<Option<Case>> | 0 <= outer < |w.nodes| && w.nodes[outer].kind.Condition?
      && Labels(w, outer, member)
      ensures member[c].None?
    {
      if member[c].Some? {
        var j, own := RegionsOf(w, outer);
        LabelsAgree(w, rank, outer, member, own, c);
        var join, inner := RegionsOf(w, c);
        assert IsJoinOf(w, c, n);
        ConditionHeld(w, rank, c, n, inner, outer, j, own);
      }
    }
  }

  /** A guarded node of a condition inside an outer case is inside that case as well. */
  lemma RootHeld(w: Workflow, rank: seq<nat>, c: NodeId, outer: NodeId, member: seq<Option<Case>>, g: NodeId)
    requires WellFormed(w) && Ranks(w, rank) && Labels(w, outer, member) && c < |w.nodes| && member[c].Some?
    requires g < |w.nodes| && w.nodes[g].when.Some? && w.nodes[g].when.value.conditionId == c
    ensures member[g] == member[c]
  {
    assert GuardsDeclared(w, w.nodes[g]) && LabelFits(w, outer, member, g);
    LabelBelow(w, rank, outer, member, c);
    AboveRank(w, rank, outer, c);
    DependencyRank(w, rank, g, c);
  }

  lemma ConditionHeld(w: Workflow, rank: seq<nat>, c: NodeId, n: NodeId, inner: seq<Option<Case>>,
                      outer: NodeId, j: NodeId, member: seq<Option<Case>>)
    requires Compiles(w) && Ranks(w, rank) && c < |w.nodes| && w.nodes[c].kind.Condition? && Regions(w, c, n, inner)
    requires outer < |w.nodes| && w.nodes[outer].kind.Condition? && Regions(w, outer, j, member)
    requires member[c].Some?
    ensures member[n].Some?
  {
    var g0 := AnotherCase(w, rank, c, n, inner, 0);
    var g1 := AnotherCase(w, rank, c, n, inner, inner[g0].value);
    RootHeld(w, rank, c, outer, member, g0);
    RootHeld(w, rank, c, outer, member, g1);
    var outside := CaseEndsAt(w, rank, outer, j, member, g0);
    var beside := CaseEndsAt(w, rank, outer, j, member, g1);
    assert outside.selects == beside.selects;
    SameBranch(w, j, outside, beside);
    var t := outside.nodeId;
    LabelSpreads(w, rank, c, n, inner, g0, t);
    LabelSpreads(w, rank, c, n, inner, g1, t);
    assert Above(w, n, t);
    var branch := CaseEndsAt(w, rank, c, n, inner, g0);
    LabelSpreads(w, rank, outer, j, member, g0, n);
    if member[n].None? {
      AboveOn(w, rank, n, t, j);
      NoCycle(w, rank, n, j);
      AboveRank(w, rank, n, t);
      DependencyRank(w, rank, j, t);
    }
  }

  lemma SameBranch(w: Workflow, j: NodeId, a: Branch, b: Branch)
    requires WellFormed(w) && j < |w.nodes| && w.nodes[j].kind.Join?
    requires a in w.nodes[j].kind.branches && b in w.nodes[j].kind.branches && a.selects == b.selects
    ensures a == b
  {
    assert KindDeclared(w, w.nodes[j]);
    var branches := w.nodes[j].kind.branches;
    var x :| 0 <= x < |branches| && branches[x] == a;
    var y :| 0 <= y < |branches| && branches[y] == b;
  }

  // ---------------------------------------------------------------------
  // The first candidate of an optimization
  // ---------------------------------------------------------------------

  /** The nodes of an optimization have no condition guard. */
  lemma OwnUnguarded(w: Workflow, o: NodeId, n: NodeId)
    requires WellFormed(w) && o < |w.nodes| && w.nodes[o].kind.Optimization? && OptimizationDeclared(w, o)
    requires n < |w.nodes| && OwnOf(w, o, n)
    ensures w.nodes[n].when.None?
  {
    var checks := w.nodes[o].kind.checks;
    assert GuardsDeclared(w, w.nodes[n]) && KindDeclared(w, w.nodes[o]);
    if n in checks {
      var i :| 0 <= i < |checks| && checks[i] == n;
      assert CandidateDeclared(w, checks, i);
    } else if n != o {
      var i :| 0 <= i < |checks| && checks[i] < |w.nodes| && n in w.nodes[checks[i]].dependsOn;
      assert CandidateDeclared(w, checks, i);
      assert n == Candidate(w, checks[i]);
    }
  }

  /** The barrier keeps an optimization, and what it waits for, out of every case: a node
      of another case could be neither before nor after it. */
  lemma FirstCandidateFree(w: Workflow, o: NodeId)
    requires Compiles(w) && o < |w.nodes| && w.nodes[o].kind.Optimization?
    ensures UnrollingRules(w, o) && |w.nodes[w.nodes[o].kind.checks[0]].dependsOn| == 1
    ensures Candidate(w, w.nodes[o].kind.checks[0]) < |w.nodes| && Free(w, Candidate(w, w.nodes[o].kind.checks[0]))
  {
    assert UnrollingRules(w, o) && CandidateDeclared(w, w.nodes[o].kind.checks, 0);
    var first := Candidate(w, w.nodes[o].kind.checks[0]);
    var rank :| Ranks(w, rank);
    forall c: NodeId, member: seq<Option<Case>> | 0 <= c < |w.nodes| && w.nodes[c].kind.Condition?
      && Labels(w, c, member)
      ensures member[first].None?
    {
      if member[first].Some? {
        var j, own := RegionsOf(w, c);
        LabelsAgree(w, rank, c, member, own, first);
        NotBarred(w, rank, o, c, j, own);
      }
    }
  }

  lemma CandidateAboveController(w: Workflow, o: NodeId)
    requires WellFormed(w) && o < |w.nodes| && w.nodes[o].kind.Optimization? && OptimizationDeclared(w, o)
    ensures CandidateDeclared(w, w.nodes[o].kind.checks, 0) && Above(w, Candidate(w, w.nodes[o].kind.checks[0]), o)
  {
    var check := w.nodes[o].kind.checks[0];
    assert CandidateDeclared(w, w.nodes[o].kind.checks, 0) && w.nodes[o].dependsOn[0] == check;
    AboveNext(w, check, Candidate(w, check));
    AboveFurther(w, o, check, Candidate(w, check));
  }

  lemma NotBarred(w: Workflow, rank: seq<nat>, o: NodeId, c: NodeId, j: NodeId, member: seq<Option<Case>>)
    requires Compiles(w) && Ranks(w, rank) && o < |w.nodes| && w.nodes[o].kind.Optimization?
    requires OptimizationDeclared(w, o) && Barrier(w, o)
    requires c < |w.nodes| && w.nodes[c].kind.Condition? && Regions(w, c, j, member)
    ensures CandidateDeclared(w, w.nodes[o].kind.checks, 0) && member[Candidate(w, w.nodes[o].kind.checks[0])].None?
  {
    CandidateAboveController(w, o);
    var first := Candidate(w, w.nodes[o].kind.checks[0]);
    if member[first].Some? {
      var g := AnotherCase(w, rank, c, j, member, member[first].value);
      if OwnOf(w, o, g) {
        OwnUnguarded(w, o, g);
      }
      if Above(w, g, first) {
        LabelSpreads(w, rank, c, j, member, g, first);
        var branch := CaseEndsAt(w, rank, c, j, member, first);
        NoCycle(w, rank, j, first);
      } else {
        AboveOn(w, rank, first, o, g);
        LabelSpreads(w, rank, c, j, member, first, g);
        var branch := CaseEndsAt(w, rank, c, j, member, g);
        NoCycle(w, rank, j, g);
      }
    }
  }
}
