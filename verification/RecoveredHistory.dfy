/** Replay of a recovered ledger: the check that a resume makes before it trusts
    the history, and what every accepted history therefore satisfies. */
module RecoveredHistory {
  import opened Standard
  import opened WorkflowGraph
  import opened RunReducer
  import opened Scheduler

  /** The replayed state, and whether an interruption still needs its resume marker. */
  datatype Replay = Replay(state: RunState, resumeRequired: bool)

  /** The graph check on one event: starts, approval requests and control records
      must be the scheduler's choice at that prefix. */
  predicate GraphAdmits(w: Workflow, s: RunState, e: Event)
    requires Declared(w) && Matches(w, s)
  {
    match e
    case CommandApprovalRequested(n, attempt) =>
      && n < |w.nodes| && w.nodes[n].kind == Command(true)
      && SelectNext(w, s) == Some(Execute(n)) && attempt == s.nodes[n].attempt + 1
    case NodeStarted(n, attempt) =>
      n < |w.nodes| && SelectNext(w, s) == Some(Execute(n)) && attempt == s.nodes[n].attempt + 1
    case NodeInterrupted(n, _) =>
      && n < |w.nodes| && w.nodes[n].kind.Agent? && w.nodes[n].kind.recovery.Some? && DependenciesSucceeded(w, s, n)
    case _ => ControlRecord(e) ==> MatchesTransition(e, SelectNext(w, s))
  }

  /** One iteration of the validator; None is the error it throws. */
  function ReplayStep(w: Workflow, r: Replay, e: Event): (r': Option<Replay>)
    requires Declared(w) && Matches(w, r.state)
    ensures r'.Some? ==> Matches(w, r'.value.state)
  {
    if r.resumeRequired && !e.RunResumed? && !e.NodeInterrupted? then None
    else if !GraphAdmits(w, r.state, e) || !Accepts(w, r.state, e) then None
    else
      var required := if e.RunResumed? then false else if e.NodeInterrupted? then true else r.resumeRequired;
      Some(Replay(Effect(w, r.state, e), required))
  }

  function Replayed(w: Workflow, ledger: seq<Event>): (r: Option<Replay>)
    requires Declared(w)
    ensures r.Some? ==> Matches(w, r.value.state)
  {
    if |ledger| == 0 then Some(Replay(Initial(w), false))
    else
      var last := |ledger| - 1;
      match Replayed(w, ledger[..last])
      case None => None
      case Some(r) => ReplayStep(w, r, ledger[last])
  }

  /** The validator's loop over the ledger. */
  method ValidateRecoveredHistory(w: Workflow, ledger: seq<Event>) returns (r: Option<Replay>)
    requires Declared(w)
    ensures r == Replayed(w, ledger)
  {
    r := Some(Replay(Initial(w), false));
    for i := 0 to |ledger|
      invariant r.Some? && r == Replayed(w, ledger[..i])
    {
      r := ReplayStep(w, r.value, ledger[i]);
      assert ledger[..i + 1][..i] == ledger[..i];
      if r.None? {
        RejectionIsFinal(w, ledger, i + 1);
        return;
      }
    }
    assert ledger[..|ledger|] == ledger;
  }

  lemma {:induction false} RejectionIsFinal(w: Workflow, ledger: seq<Event>, i: nat)
    requires Declared(w) && i <= |ledger| && Replayed(w, ledger[..i]).None?
    ensures Replayed(w, ledger).None?
  {
    if i == |ledger| {
      assert ledger[..i] == ledger;
    } else {
      var last := |ledger| - 1;
      assert ledger[..last][..i] == ledger[..i];
      RejectionIsFinal(w, ledger[..last], i);
    }
  }

  lemma AppendReplays(w: Workflow, ledger: seq<Event>, e: Event)
    requires Declared(w)
    ensures Replayed(w, ledger + [e]) ==
            match Replayed(w, ledger) case None => None case Some(r) => ReplayStep(w, r, e)
  {
    assert (ledger + [e])[..|ledger|] == ledger;
  }
}
