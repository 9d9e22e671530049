/** The structural rules under which the compiler accepts a workflow, and the shape to
    which it unrolls loops and optimizations. */
module CompilerRules {
  import opened Standard
  import opened WorkflowGraph
  import opened LoopUnrolling
  import opened OptimizationChain

  predicate Distinct(ids: seq<NodeId>) {
    forall i, j | 0 <= i < j < |ids| :: ids[i] != ids[j]
  }

  predicate MayEnd(kind: Kind) {
    kind.Command? || kind.Verifier? || kind.Result? || kind.Child? || kind.Optimization?
  }

  predicate DependedUpon(w: Workflow, n: NodeId) {
    exists m :: 0 <= m < |w.nodes| && n in w.nodes[m].dependsOn
  }

  /** There is one entry, and the nodes nothing depends on are of a kind that may end a workflow. */
  predicate EntryAndTerminals(w: Workflow) {
    && (exists e :: 0 <= e < |w.nodes| && w.nodes[e].dependsOn == [] && forall n | 0 <= n < |w.nodes| && n != e ::
      w.nodes[n].dependsOn != [])
    && forall n | 0 <= n < |w.nodes| && !DependedUpon(w, n) :: MayEnd(w.nodes[n].kind)
  }

  predicate NodeRules(w: Workflow, node: Node)
    requires Declared(w) && RefsInRange(w, node)
  {
    && Distinct(node.dependsOn)
    && (node.kind.Condition? ==> |node.kind.cases| > 0)
    && (node.when.Some? && w.nodes[node.when.value.conditionId].kind.Condition? ==>
          var condition := w.nodes[node.when.value.conditionId].kind;
          node.when.value.selects in PossibleCases(condition.cases, condition.otherwise))
    && (node.kind.Join? && w.nodes[node.kind.conditionId].kind.Condition? ==>
          |node.kind.branches| == |w.nodes[node.kind.conditionId].kind.cases| + 1)
  }

  /** The case of a condition to which each node belongs, if to any.  A node that would
      belong to two cases has no label, so labels exist only where none does. */
  predicate Labels(w: Workflow, c: NodeId, member: seq<Option<Case>>) {
    |member| == |w.nodes| && forall n | 0 <= n < |w.nodes| :: LabelFits(w, c, member, n)
  }

  predicate LabelFits(w: Workflow, c: NodeId, member: seq<Option<Case>>, n: NodeId)
    requires n < |w.nodes| == |member|
  {
    var node := w.nodes[n];
    if n == c || (node.kind.Join? && node.kind.conditionId == c) then member[n].None?
    else
      && (forall d | d in node.dependsOn && d < |member| :: member[d].None? || member[d] == member[n])
      && (if node.when.Some? && node.when.value.conditionId == c then member[n] == Some(node.when.value.selects)
          else member[n].Some? ==> exists d :: d in node.dependsOn && d < |member| && member[d] == member[n])
  }

  predicate IsJoinOf(w: Workflow, c: NodeId, n: NodeId) {
    n < |w.nodes| && w.nodes[n].kind.Join? && w.nodes[n].kind.conditionId == c
  }

  /** Each branch of the join ends its case, and waits for every node of the case. */
  ghost predicate EndsCase(w: Workflow, member: seq<Option<Case>>, branch: Branch) {
    && branch.nodeId < |member| && member[branch.nodeId] == Some(branch.selects)
    && forall n | 0 <= n < |member| && n != branch.nodeId && member[n] == Some(branch.selects) ::
      Above(w, n, branch.nodeId)
  }

  /** The join of a condition, and to which of its cases each node belongs. */
  ghost predicate Regions(w: Workflow, c: NodeId, j: NodeId, member: seq<Option<Case>>) {
    && IsJoinOf(w, c, j) && (forall m | 0 <= m < |w.nodes| && m != j :: !IsJoinOf(w, c, m))
    && Labels(w, c, member)
    && forall i | 0 <= i < |w.nodes[j].kind.branches| :: EndsCase(w, member, w.nodes[j].kind.branches[i])
  }

  ghost predicate ConditionRules(w: Workflow, c: NodeId)
    requires c < |w.nodes| && w.nodes[c].kind.Condition?
  {
    var kind := w.nodes[c].kind;
    && (forall k | k in PossibleCases(kind.cases, kind.otherwise) ::
          exists n :: 0 <= n < |w.nodes| && w.nodes[n].when == Some(Guard(c, k)))
    && exists j: NodeId, member :: Regions(w, c, j, member)
  }

  // ---------------------------------------------------------------------
  // Unrolled loops and optimizations
  // ---------------------------------------------------------------------

  /** A loop check is the one its controller registers for the iteration. */
  predicate CheckRegistered(w: Workflow, n: NodeId)
    requires n < |w.nodes| && w.nodes[n].kind.LoopCheck?
  {
    var kind := w.nodes[n].kind;
    && kind.loopId < |w.nodes| && w.nodes[kind.loopId].kind.Loop?
    && 0 < kind.iteration <= |w.nodes[kind.loopId].kind.checks|
    && w.nodes[kind.loopId].kind.checks[kind.iteration - 1] == n
  }

  /** A node of a loop's body: the entry of a later iteration waits for the check before
      it alone, any other node of that iteration for nodes of the iteration. */
  predicate InstanceRules(w: Workflow, n: NodeId)
    requires n < |w.nodes| && w.nodes[n].instance.Some?
  {
    var node, l, k := w.nodes[n], w.nodes[n].instance.value.loopId, w.nodes[n].instance.value.iteration;
    && (node.kind.Guardable() || node.kind.Join?) && node.optimizationGuard.None?
    && l < |w.nodes| && w.nodes[l].kind.Loop? && 0 < k <= |w.nodes[l].kind.checks|
    && (k > 1 ==>
          if node.loopGuard.Some?
          then node.loopGuard.value == w.nodes[l].kind.checks[k - 2] && node.dependsOn == [node.loopGuard.value]
          else AllInIteration(w, node.dependsOn, l, k))
  }

  /** The parts of an unrolling after its first iteration, or its first candidate. */
  predicate Late(node: Node) {
    || node.optimizationGuard.Some?
    || (node.instance.Some? && node.instance.value.iteration > 1)
    || (node.kind.LoopCheck? && node.kind.iteration > 1)
  }

  /** Only controllers wait for the later parts of an unrolling from outside it. */
  predicate LateStaysInside(w: Workflow, n: NodeId)
    requires n < |w.nodes|
  {
    var node := w.nodes[n];
    !Late(node) && !node.kind.Loop? && !node.kind.Optimization? ==>
      forall d | d in node.dependsOn && d < |w.nodes| :: !Late(w.nodes[d])
  }

  /** The nodes an optimization unrolls to. */
  predicate OwnOf(w: Workflow, o: NodeId, n: NodeId)
    requires o < |w.nodes| && w.nodes[o].kind.Optimization? && n < |w.nodes|
  {
    var checks := w.nodes[o].kind.checks;
    n == o || n in checks || exists i :: 0 <= i < |checks| && checks[i] < |w.nodes| && n in w.nodes[checks[i]].dependsOn
  }

  /** Every other node is ordered before or after an optimization. */
  ghost predicate Barrier(w: Workflow, o: NodeId)
    requires Declared(w) && o < |w.nodes| && w.nodes[o].kind.Optimization? && OptimizationDeclared(w, o)
  {
    assert CandidateDeclared(w, w.nodes[o].kind.checks, 0);
    var first := Candidate(w, w.nodes[o].kind.checks[0]);
    forall n | 0 <= n < |w.nodes| && !OwnOf(w, o, n) :: Above(w, n, first) || Above(w, o, n)
  }

  ghost predicate UnrollingRules(w: Workflow, n: NodeId)
    requires Declared(w) && n < |w.nodes|
  {
    var node := w.nodes[n];
    && (node.instance.Some? ==> InstanceRules(w, n))
    && (node.kind.LoopCheck? ==> CheckRegistered(w, n))
    && (node.kind.Loop? ==> LoopDeclared(w, n) && |node.kind.checks| > 0)
    && (node.kind.Optimization? ==> OptimizationDeclared(w, n) && Barrier(w, n))
    && (node.kind.Join? && node.kind.conditionId < |w.nodes| ==>
      w.nodes[node.kind.conditionId].instance == node.instance)
    && LateStaysInside(w, n)
  }

  /** The compiler accepts the workflow, in the shape that it unrolls it to. */
  ghost predicate Compiles(w: Workflow) {
    && WellFormed(w) && EntryAndTerminals(w)
    && (forall n | 0 <= n < |w.nodes| :: NodeRules(w, w.nodes[n]) && UnrollingRules(w, n))
    && forall c | 0 <= c < |w.nodes| && w.nodes[c].kind.Condition? :: ConditionRules(w, c)
  }

  predicate Flat(node: Node) {
    && !node.kind.LoopCheck? && !node.kind.Loop? && !node.kind.OptimizationCheck? && !node.kind.Optimization?
    && node.loopGuard.None? && node.optimizationGuard.None? && node.instance.None?
  }

  /** A workflow without loops and optimizations has nothing to unroll. */
  lemma FlatUnrolls(w: Workflow, n: NodeId)
    requires Declared(w) && n < |w.nodes| && forall m | 0 <= m < |w.nodes| :: Flat(w.nodes[m])
    ensures UnrollingRules(w, n)
  {
  }

  // ---------------------------------------------------------------------
  // Chains of dependencies
  // ---------------------------------------------------------------------

  lemma AboveNext(w: Workflow, n: NodeId, d: NodeId)
    requires n < |w.nodes| && d < |w.nodes| && d in w.nodes[n].dependsOn
    ensures Above(w, d, n)
  {
    var chain := [n, d];
    assert IsChain(w, chain) && chain[0] == n && chain[|chain| - 1] == d;
  }

  lemma AboveFurther(w: Workflow, n: NodeId, d: NodeId, ancestor: NodeId)
    requires n < |w.nodes| && d in w.nodes[n].dependsOn && Above(w, ancestor, d)
    ensures Above(w, ancestor, n)
  {
    var rest :| IsChain(w, rest) && rest[0] == d && rest[|rest| - 1] == ancestor;
    var chain := [n] + rest;
    forall i | 0 <= i < |chain| - 1
      ensures chain[i + 1] in w.nodes[chain[i]].dependsOn
    {
      if i > 0 {
        assert chain[i] == rest[i - 1] && chain[i + 1] == rest[i];
      }
    }
    assert chain[0] == n && chain[|chain| - 1] == ancestor;
  }
}
