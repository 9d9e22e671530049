/** A compiled workflow with a ledger that the recovery check accepts and that no run of
    the driver leaves behind. */
module MixedBatch {
  import opened Standard
  import opened WorkflowGraph
  import opened RunReducer
  import opened Scheduler
  import opened RecoveredHistory
  import opened RunSafety
  import opened CompilerRules
  import opened BraidedJoins
  import opened LiveRun
  import opened LiveHistory

  /** After the entry a command and a child are ready together, with room for both. */
  predicate MixedPair(w: Workflow) {
    && |w.nodes| == 3 && w.maxNodes == 2 && w.limits == Limits(None, None, None, None, None)
    && w.nodes[0] == Task([], None)
    && w.nodes[1] == Task([0], None)
    && w.nodes[2] == Node(Child(None), [0], None, None, None, None)
  }

  lemma PairIsAcyclic(w: Workflow)
    requires MixedPair(w)
    ensures Declared(w) && Acyclic(w)
  {
    assert Ranks(w, seq(3, i requires 0 <= i < 3 => i));
  }

  lemma PairNodes(w: Workflow, n: NodeId)
    requires MixedPair(w) && Declared(w) && n < 3
    ensures GuardsDeclared(w, w.nodes[n]) && KindDeclared(w, w.nodes[n]) && NodeRules(w, w.nodes[n]) && Flat(w.nodes[n])
    ensures !w.nodes[n].kind.Condition? && MayEnd(w.nodes[n].kind) && (n > 0 ==> |w.nodes[n].dependsOn| > 0)
  {
  }

  lemma PairEnds(w: Workflow)
    requires MixedPair(w) && Declared(w)
    ensures EntryAndTerminals(w)
  {
    forall n | 0 <= n < |w.nodes|
      ensures MayEnd(w.nodes[n].kind) && (n > 0 ==> w.nodes[n].dependsOn != [])
    {
      PairNodes(w, n);
    }
    assert w.nodes[0].dependsOn == [];
  }

  lemma MixedPairIsCompiled(w: Workflow)
    requires MixedPair(w)
    ensures Compiles(w)
  {
    PairIsAcyclic(w);
    forall n | 0 <= n < |w.nodes|
      ensures GuardsDeclared(w, w.nodes[n]) && KindDeclared(w, w.nodes[n]) && NodeRules(w, w.nodes[n])
      ensures Flat(w.nodes[n])
      ensures !w.nodes[n].kind.Condition?
    {
      PairNodes(w, n);
    }
    forall n | 0 <= n < |w.nodes|
      ensures UnrollingRules(w, n)
    {
      FlatUnrolls(w, n);
    }
    PairEnds(w);
  }

  /** The child may start beside the command, for all the recovery check says. */
  lemma ChildStartsBeside(w: Workflow, s: RunState)
    requires MixedPair(w) && Declared(w) && Matches(w, s) && s.status.Active?
    requires s.nodes[0] == Done() && s.nodes[1] == FRESH.(status := Running, attempt := 1) && s.nodes[2] == FRESH
    ensures GraphAdmits(w, s, NodeStarted(2, 1)) && Accepts(w, s, NodeStarted(2, 1))
  {
    assert Ready(w, s, 0) == None && Ready(w, s, 1) == None;
    OnlyEntry(w, s);
    assert Ready(w, s, 2) == Some(Execute(2));
    assert SelectFrom(w, s, 2) == Some(Execute(2)) && SelectFrom(w, s, 1) == Some(Execute(2));
    assert SelectNext(w, s) == Some(Execute(2));
    assert WithStatus(s, Running) == {1};
    assert !SomeStatus(s, Failed);
  }

  lemma OnlyEntry(w: Workflow, s: RunState)
    requires MixedPair(w) && Declared(w) && Matches(w, s) && s.nodes[0] == Done()
    ensures DependenciesSucceeded(w, s, 1) && OmittedAmong(s, w.nodes[1].dependsOn) == []
    ensures DependenciesSucceeded(w, s, 2) && OmittedAmong(s, w.nodes[2].dependsOn) == []
  {
    assert w.nodes[1].dependsOn == [0] && [0][1..] == [];
    assert OmittedAmong(s, [0]) == [];
  }

  lemma CommandStarts(w: Workflow, o: seq<NodeState>)
    requires MixedPair(w) && Declared(w) && |o| == 3 && o[0] == Done()
    ensures var s := Upto(o, 1); GraphAdmits(w, s, NodeStarted(1, 1)) && Accepts(w, s, NodeStarted(1, 1))
    ensures Effect(w, Upto(o, 1), NodeStarted(1, 1)) == During(o, 1)
  {
    var s := Upto(o, 1);
    OnlyEntry(w, s);
    assert Ready(w, s, 0) == None && Ready(w, s, 1) == Some(Execute(1));
    assert SelectFrom(w, s, 1) == Some(Execute(1));
    StartLeads(w, o, 1);
  }

  lemma EntrySettles(w: Workflow, o: seq<NodeState>)
    requires MixedPair(w) && Declared(w) && |o| == 3 && o[0] == Done()
    ensures Reached(w, Upto(o, 1))
  {
    assert Upto(o, 0) == Initial(w);
    assert Replayed(w, []) == Some(Replay(Upto(o, 0), false));
    Executes(w, o, 0);
  }

  lemma BothRun(w: Workflow, o: seq<NodeState>) returns (s: RunState)
    requires MixedPair(w) && Declared(w) && |o| == 3 && o[0] == Done()
    ensures Matches(w, s) && Reached(w, s) && !OneSortRuns(w, s)
  {
    EntrySettles(w, o);
    CommandStarts(w, o);
    Records(w, Upto(o, 1), NodeStarted(1, 1));
    ChildStartsBeside(w, During(o, 1));
    Records(w, During(o, 1), NodeStarted(2, 1));
    s := Effect(w, During(o, 1), NodeStarted(2, 1));
    assert s.nodes[1].status.Running? && s.nodes[2].status.Running?;
    assert w.nodes[2].kind.Child? && !w.nodes[1].kind.Child?;
  }

  /** No run of the driver leaves a child running beside another node. */
  lemma NeverLeft(w: Workflow, ledger: seq<Event>, steps: seq<Step>)
    requires WellFormed(w) && Replayed(w, ledger).Some? && !OneSortRuns(w, Replayed(w, ledger).value.state)
    ensures Ran(w, steps).Some? ==> Ran(w, steps).value.ledger != ledger
  {
    if Ran(w, steps).Some? {
      LiveHistoryIsAccepted(w, steps);
    }
  }

  lemma PairLedger(w: Workflow) returns (ledger: seq<Event>)
    requires MixedPair(w)
    ensures Compiles(w) && Replayed(w, ledger).Some?
    ensures forall steps :: Ran(w, steps).Some? ==> Ran(w, steps).value.ledger != ledger
  {
    MixedPairIsCompiled(w);
    var s := BothRun(w, [Done(), FRESH, FRESH]);
    ledger :| Replayed(w, ledger) == Some(Replay(s, false));
    forall steps
      ensures Ran(w, steps).Some? ==> Ran(w, steps).value.ledger != ledger
    {
      NeverLeft(w, ledger, steps);
    }
  }

  function Pair(): (w: Workflow)
    ensures MixedPair(w)
  {
    Workflow([Task([], None), Task([0], None), Node(Child(None), [0], None, None, None, None)], 2,
             Limits(None, None, None, None, None))
  }

  /** Acceptance by the recovery check alone does not make a ledger a run's. */
  lemma AcceptedButNeverLeft()
    ensures exists w: Workflow, ledger ::
              && Compiles(w) && Replayed(w, ledger).Some?
              && forall steps :: Ran(w, steps).Some? ==> Ran(w, steps).value.ledger != ledger
  {
    var ledger := PairLedger(Pair());
  }
}
