/** A compiled workflow with a loop of two iterations before an optimization. */
module UnrolledExample {
  import opened Standard
  import opened WorkflowGraph
  import opened LoopUnrolling
  import opened OptimizationChain
  import opened CompilerRules
  import opened BraidedJoins

  function BodyNode(dependsOn: seq<NodeId>, check: Option<NodeId>, k: nat): Node {
    Node(Command(false), dependsOn, None, check, None, Some(LoopInstance(5, k)))
  }

  function Plain(kind: Kind, dependsOn: seq<NodeId>): Node {
    Node(kind, dependsOn, None, None, None, None)
  }

  predicate Unrolled(w: Workflow) {
    && |w.nodes| == 10 && w.maxNodes > 0
    && w.nodes[0] == Task([], None)
    && w.nodes[1] == BodyNode([0], None, 1)
    && w.nodes[2] == Plain(LoopCheck(5, 1, 1, 0), [1])
    && w.nodes[3] == BodyNode([2], Some(2), 2)
    && w.nodes[4] == Plain(LoopCheck(5, 2, 3, 0), [3])
    && w.nodes[5] == Plain(Loop([2, 4]), [2, 4])
    && w.nodes[6] == Plain(Result(0, {0}), [0, 5])
    && w.nodes[7] == Plain(Child(None), [6])
    && w.nodes[8] == Plain(OptimizationCheck, [7])
    && w.nodes[9] == Plain(Optimization([8]), [8])
  }

  lemma UnrolledIsDeclared(w: Workflow)
    requires Unrolled(w)
    ensures Declared(w)
  {
  }

  lemma UnrolledRanks(w: Workflow)
    requires Unrolled(w)
    ensures Ranks(w, seq(10, i requires 0 <= i < 10 => i))
  {
  }

  lemma UnrolledNode(w: Workflow, n: NodeId)
    requires Unrolled(w) && Declared(w) && n < 10
    ensures GuardsDeclared(w, w.nodes[n]) && KindDeclared(w, w.nodes[n]) && NodeRules(w, w.nodes[n])
    ensures !w.nodes[n].kind.Condition? && !w.nodes[n].kind.Join?
  {
  }

  lemma UnrolledLoop(w: Workflow)
    requires Unrolled(w) && Declared(w)
    ensures LoopDeclared(w, 5)
  {
    assert InIteration(w, w.nodes[2].dependsOn[0], 5, 1) && InIteration(w, w.nodes[4].dependsOn[0], 5, 2);
    forall i | 0 <= i < 2
      ensures AllInIteration(w, w.nodes[w.nodes[5].kind.checks[i]].dependsOn, 5, i + 1)
    {
    }
  }

  lemma UnrolledOptimization(w: Workflow)
    requires Unrolled(w) && Declared(w)
    ensures OptimizationDeclared(w, 9) && Candidate(w, 8) == 7
  {
    assert CandidateDeclared(w, [8], 0);
  }

  /** Each node depends on the one declared before it, so all come before the optimization. */
  lemma {:induction false} UnrolledOrder(w: Workflow, n: NodeId, m: NodeId)
    requires Unrolled(w) && n < m <= 9
    ensures Above(w, n, m)
    decreases m
  {
    assert m - 1 in w.nodes[m].dependsOn;
    if n == m - 1 {
      AboveNext(w, m, m - 1);
    } else {
      UnrolledOrder(w, n, m - 1);
      AboveFurther(w, m, m - 1, n);
    }
  }

  lemma UnrolledBarrier(w: Workflow)
    requires Unrolled(w) && Declared(w) && OptimizationDeclared(w, 9)
    ensures Barrier(w, 9)
  {
    UnrolledOptimization(w);
    assert w.nodes[9].kind.checks == [8];
    forall n | 0 <= n < |w.nodes| && !OwnOf(w, 9, n)
      ensures Above(w, n, 7)
    {
      assert 8 in w.nodes[9].kind.checks && w.nodes[9].kind.checks[0] == 8 && 7 in w.nodes[8].dependsOn;
      UnrolledOrder(w, n, 7);
    }
  }

  lemma UnrolledParts(w: Workflow, n: NodeId)
    requires Unrolled(w) && Declared(w) && n < 10
    ensures w.nodes[n].instance.Some? ==> InstanceRules(w, n)
    ensures w.nodes[n].kind.LoopCheck? ==> CheckRegistered(w, n)
    ensures LateStaysInside(w, n)
    ensures w.nodes[n].kind.Loop? ==> n == 5
    ensures w.nodes[n].kind.Optimization? ==> n == 9
  {
  }

  lemma UnrolledRules(w: Workflow, n: NodeId)
    requires Unrolled(w) && Declared(w) && n < 10
    ensures UnrollingRules(w, n)
  {
    UnrolledParts(w, n);
    UnrolledLoop(w);
    UnrolledOptimization(w);
    UnrolledBarrier(w);
    UnrolledNode(w, n);
  }

  lemma UnrolledUse(w: Workflow, n: NodeId)
    requires Unrolled(w) && n < 9
    ensures DependedUpon(w, n)
  {
    assert n in w.nodes[n + 1].dependsOn;
  }

  lemma UnrolledEnds(w: Workflow)
    requires Unrolled(w) && Declared(w)
    ensures EntryAndTerminals(w)
  {
    assert w.nodes[0].dependsOn == [];
    forall n | 0 < n < |w.nodes|
      ensures w.nodes[n].dependsOn != []
    {
    }
    forall n | 0 <= n < |w.nodes| && !DependedUpon(w, n)
      ensures MayEnd(w.nodes[n].kind)
    {
      if n < 9 {
        UnrolledUse(w, n);
      }
    }
  }

  lemma UnrolledIsWellFormed(w: Workflow)
    requires Unrolled(w)
    ensures WellFormed(w)
  {
    UnrolledIsDeclared(w);
    UnrolledRanks(w);
    forall n | 0 <= n < |w.nodes|
      ensures GuardsDeclared(w, w.nodes[n]) && KindDeclared(w, w.nodes[n])
    {
      UnrolledNode(w, n);
    }
  }

  /** The compiler's rules admit workflows with loops and optimizations. */
  lemma UnrolledIsCompiled(w: Workflow)
    requires Unrolled(w)
    ensures Compiles(w)
  {
    UnrolledIsWellFormed(w);
    forall n | 0 <= n < |w.nodes|
      ensures NodeRules(w, w.nodes[n]) && UnrollingRules(w, n) && !w.nodes[n].kind.Condition?
    {
      UnrolledNode(w, n);
      UnrolledRules(w, n);
    }
    UnrolledEnds(w);
  }
}
