/** Compiled workflows: nodes, guards and the shape the compiler guarantees. */
module WorkflowGraph {
  import opened Standard

  /** A node is named by its position in declaration order.  The source names it
      by a unique identifier that starts with a letter, so object entries are
      enumerated in declaration order and both names order nodes alike. */
  type NodeId = nat

  /** A case label of a condition, and an observed evidence value.  The scheduler
      only ever compares them for equality. */
  type Case = nat
  type Text = nat

  datatype Guard = Guard(conditionId: NodeId, selects: Case)
  datatype Branch = Branch(selects: Case, nodeId: NodeId)
  datatype CaseTest = CaseTest(id: Case, equals: Text)
  datatype LoopInstance = LoopInstance(loopId: NodeId, iteration: nat)

  /** One amount for each budgeted resource. */
  datatype Amounts = Amounts(nodeStarts: nat, modelTokens: nat, modelCost: nat, executionMs: nat, artifactBytes: nat)

  /** The limits a workflow declares; an absent limit is unlimited. */
  datatype Limits = Limits(
    nodeStarts: Option<nat>,
    modelTokens: Option<nat>,
    modelCost: Option<nat>,
    executionMs: Option<nat>,
    artifactBytes: Option<nat>)

  datatype Kind =
    | Agent(recovery: Option<nat>)                 // the attempts a fresh recovery may use
    | Command(needsApproval: bool)
    | Verifier
    | Child(ceiling: Option<Amounts>)              // the budget its own workflow declares
    | Condition(source: NodeId, cases: seq<CaseTest>, otherwise: Case)
    | Approval(observes: seq<NodeId>)
    | Result(source: NodeId, admits: set<Text>)    // the schema, as the values it admits
    | Join(conditionId: NodeId, branches: seq<Branch>)
    | LoopCheck(loopId: NodeId, iteration: nat, source: NodeId, stopsOn: Text)
    | Loop(checks: seq<NodeId>)
    | OptimizationCheck
    | Optimization(checks: seq<NodeId>)
  {
    predicate Executable() {
      Agent? || Command? || Verifier? || Child?
    }

    /** The node types on which a `when` or loop guard may be declared. */
    predicate Guardable() {
      Executable() || Condition? || Approval? || Result?
    }

    predicate ProducesEvidence() {
      Executable() || Result?
    }
  }

  datatype Node = Node(
    kind: Kind,
    dependsOn: seq<NodeId>,
    when: Option<Guard>,
    loopGuard: Option<NodeId>,
    optimizationGuard: Option<NodeId>,
    instance: Option<LoopInstance>)

  datatype Workflow = Workflow(nodes: seq<Node>, maxNodes: nat, limits: Limits)

  /** The label a condition selects for an observed value: the first case that
      equals it, or the default. */
  function SelectedCase(cases: seq<CaseTest>, otherwise: Case, value: Text): (selected: Case)
    ensures selected in PossibleCases(cases, otherwise)
  {
    if |cases| == 0 then otherwise
    else if cases[0].equals == value then cases[0].id
    else SelectedCase(cases[1..], otherwise, value)
  }

  /** This case is that of the first case that equals the value, or, where none does,
      the default. */
  predicate FirstMatch(cases: seq<CaseTest>, otherwise: Case, value: Text, selected: Case) {
    || (exists i :: 0 <= i < |cases| && MatchesFirst(cases, value, i) && selected == cases[i].id)
    || ((forall i | 0 <= i < |cases| :: cases[i].equals != value) && selected == otherwise)
  }

  predicate MatchesFirst(cases: seq<CaseTest>, value: Text, i: nat)
    requires i < |cases|
  {
    cases[i].equals == value && forall j | 0 <= j < i :: cases[j].equals != value
  }

  lemma {:induction false} SelectedCaseExactly(cases: seq<CaseTest>, otherwise: Case, value: Text, selected: Case)
    ensures SelectedCase(cases, otherwise, value) == selected <==> FirstMatch(cases, otherwise, value, selected)
  {
    if |cases| > 0 {
      var rest := cases[1..];
      SelectedCaseExactly(rest, otherwise, value, selected);
      if cases[0].equals == value {
        assert MatchesFirst(cases, value, 0);
      } else {
        forall i | 0 <= i < |rest|
          ensures MatchesFirst(rest, value, i) <==> MatchesFirst(cases, value, i + 1)
        {
          assert forall j | 0 <= j < i :: rest[j] == cases[j + 1];
          assert MatchesFirst(rest, value, i) ==> forall j | 1 <= j < i + 1 :: rest[j - 1] == cases[j];
        }
        assert forall i | 0 <= i < |rest| :: rest[i] == cases[i + 1];
        assert forall i | 1 <= i < |cases| :: rest[i - 1] == cases[i];
        if i :| 0 <= i < |cases| && MatchesFirst(cases, value, i) && selected == cases[i].id {
          assert MatchesFirst(rest, value, i - 1);
        }
      }
    }
  }

  function PossibleCases(cases: seq<CaseTest>, otherwise: Case): set<Case> {
    (set i | 0 <= i < |cases| :: cases[i].id) + {otherwise}
  }

  // ---------------------------------------------------------------------
  // The compiler's guarantees
  // ---------------------------------------------------------------------

  predicate InRange(w: Workflow, ids: seq<NodeId>) {
    forall i | 0 <= i < |ids| :: ids[i] < |w.nodes|
  }

  /** Every identifier a node mentions is declared. */
  predicate RefsInRange(w: Workflow, node: Node) {
    && InRange(w, node.dependsOn)
    && (node.when.Some? ==> node.when.value.conditionId < |w.nodes|)
    && (node.loopGuard.Some? ==> node.loopGuard.value < |w.nodes|)
    && (node.optimizationGuard.Some? ==> node.optimizationGuard.value < |w.nodes|)
    && (match node.kind
        case Condition(source, _, _) => source < |w.nodes|
        case Approval(observes) => InRange(w, observes)
        case Result(source, _) => source < |w.nodes|
        case Join(conditionId, branches) =>
          conditionId < |w.nodes| && forall i | 0 <= i < |branches| :: branches[i].nodeId < |w.nodes|
        case LoopCheck(loopId, _, source, _) => loopId < |w.nodes| && source < |w.nodes|
        case Loop(checks) => InRange(w, checks)
        case Optimization(checks) => InRange(w, checks)
        case _ => true)
  }

  predicate Declared(w: Workflow) {
    forall n | 0 <= n < |w.nodes| :: RefsInRange(w, w.nodes[n])
  }

  /** A rank that every dependency lowers: the graph has no cycle. */
  ghost predicate Ranks(w: Workflow, rank: seq<nat>) {
    && |rank| == |w.nodes|
    && forall n, i | 0 <= n < |w.nodes| && 0 <= i < |w.nodes[n].dependsOn| && w.nodes[n].dependsOn[i] < |w.nodes| ::
        rank[w.nodes[n].dependsOn[i]] < rank[n]
  }

  ghost predicate Acyclic(w: Workflow) {
    exists rank :: Ranks(w, rank)
  }

  /** A dependency chain that leads from one node up to another. */
  ghost predicate IsChain(w: Workflow, chain: seq<NodeId>) {
    && |chain| > 0
    && (forall i | 0 <= i < |chain| :: chain[i] < |w.nodes|)
    && forall i | 0 <= i < |chain| - 1 :: chain[i + 1] in w.nodes[chain[i]].dependsOn
  }

  ghost predicate Above(w: Workflow, ancestor: NodeId, n: NodeId) {
    exists chain :: IsChain(w, chain) && chain[0] == n && chain[|chain| - 1] == ancestor
  }

  predicate GuardsDeclared(w: Workflow, node: Node)
    requires Declared(w) && RefsInRange(w, node)
  {
    && (!node.kind.Guardable() ==> node.when.None? && node.loopGuard.None?)
    && (node.when.Some? ==>
          node.when.value.conditionId in node.dependsOn && w.nodes[node.when.value.conditionId].kind.Condition?)
    && (node.loopGuard.Some? ==>
          && node.loopGuard.value in node.dependsOn
          && EntersIteration(w, node, node.loopGuard.value))
    && (node.optimizationGuard.Some? ==>
          && w.nodes[node.optimizationGuard.value].kind.OptimizationCheck?
          && GuardedCandidate(w, node, node.optimizationGuard.value))
  }

  /** A loop guard names the check of the iteration before the node's own. */
  predicate EntersIteration(w: Workflow, node: Node, check: NodeId)
    requires check < |w.nodes|
  {
    && w.nodes[check].kind.LoopCheck? && node.instance.Some?
    && node.instance.value.loopId == w.nodes[check].kind.loopId
    && node.instance.value.iteration == w.nodes[check].kind.iteration + 1
  }

  /** A candidate depends on the check that guards it.  The candidate's own check
      carries the same guard but depends only on the candidate. */
  predicate GuardedCandidate(w: Workflow, node: Node, check: NodeId)
    requires Declared(w) && RefsInRange(w, node)
  {
    match node.kind
    case Child(_) => check in node.dependsOn
    case OptimizationCheck =>
      exists i ::
        0 <= i < |node.dependsOn| && w.nodes[node.dependsOn[i]].kind.Child?
        && check in w.nodes[node.dependsOn[i]].dependsOn
    case _ => false
  }

  /** A source that a control node reads is one of its dependencies and leaves evidence. */
  predicate Readable(w: Workflow, node: Node, source: NodeId)
    requires source < |w.nodes|
  {
    source in node.dependsOn && w.nodes[source].kind.ProducesEvidence()
  }

  predicate CoversCases(w: Workflow, condition: Kind, branches: seq<Branch>)
    requires condition.Condition?
  {
    forall c | c in PossibleCases(condition.cases, condition.otherwise) ::
      exists i :: 0 <= i < |branches| && branches[i].selects == c
  }

  ghost predicate KindDeclared(w: Workflow, node: Node)
    requires Declared(w) && RefsInRange(w, node)
  {
    match node.kind
    case Condition(source, _, _) => Readable(w, node, source)
    case Approval(observes) => forall i | 0 <= i < |observes| :: Readable(w, node, observes[i])
    case Result(source, _) => Readable(w, node, source)
    case Join(conditionId, branches) =>
      && w.nodes[conditionId].kind.Condition?
      && node.dependsOn == seq(|branches|, i requires 0 <= i < |branches| => branches[i].nodeId)
      && CoversCases(w, w.nodes[conditionId].kind, branches)
      && (forall i, j | 0 <= i < j < |branches| :: branches[i].selects != branches[j].selects)
      && (exists d :: d in node.dependsOn && Above(w, conditionId, d))
    case LoopCheck(loopId, iteration, source, _) =>
      && Readable(w, node, source)
    case Loop(checks) =>
      && node.dependsOn == checks
      && (forall i | 0 <= i < |checks| ::
            w.nodes[checks[i]].kind.LoopCheck? && w.nodes[checks[i]].kind.iteration == i + 1)
    case Optimization(checks) =>
      && node.dependsOn == checks
      && (forall i | 0 <= i < |checks| :: w.nodes[checks[i]].kind.OptimizationCheck?)
    case _ => true
  }

  /** The part of what compilation establishes that the theorems about runs rest on.
      CompilerRules states the rules for whole workflows. */
  ghost predicate WellFormed(w: Workflow) {
    && Declared(w)
    && Acyclic(w)
    && w.maxNodes > 0
    && forall n | 0 <= n < |w.nodes| :: GuardsDeclared(w, w.nodes[n]) && KindDeclared(w, w.nodes[n])
  }
}
