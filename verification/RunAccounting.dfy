/** What a ledger has spent, as sums over its records, and what the limits then forbid. */
module RunAccounting {
  import opened Standard
  import opened WorkflowGraph
  import opened RunReducer
  import opened RecoveredHistory
  import opened RunSafety

  datatype Resource = NodeStarts | ModelTokens | ModelCost | ExecutionMs | ArtifactBytes
  {
    function In(amounts: Amounts): nat {
      match this
      case NodeStarts => amounts.nodeStarts
      case ModelTokens => amounts.modelTokens
      case ModelCost => amounts.modelCost
      case ExecutionMs => amounts.executionMs
      case ArtifactBytes => amounts.artifactBytes
    }

    function Limit(limits: Limits): Option<nat> {
      match this
      case NodeStarts => limits.nodeStarts
      case ModelTokens => limits.modelTokens
      case ModelCost => limits.modelCost
      case ExecutionMs => limits.executionMs
      case ArtifactBytes => limits.artifactBytes
    }
  }

  /** How many nodes the records start. */
  function StartsIn(ledger: seq<Event>): nat {
    if |ledger| == 0 then 0
    else StartsIn(ledger[..|ledger| - 1]) + if ledger[|ledger| - 1].NodeStarted? then 1 else 0
  }

  /** What the recorded outcomes report of one resource, failures included. */
  function ReportedIn(ledger: seq<Event>, r: Resource): nat {
    if |ledger| == 0 then 0
    else
      var last := ledger[|ledger| - 1];
      ReportedIn(ledger[..|ledger| - 1], r) + if last.NodeSucceeded? || last.NodeFailed? then r.In(last.used) else 0
  }

  /** What the records add up to: every outcome's report, and one start for each start.
      Only a child's outcome reports starts of its own. */
  function SumOf(ledger: seq<Event>, r: Resource): nat {
    ReportedIn(ledger, r) + if r.NodeStarts? then StartsIn(ledger) else 0
  }

  predicate Used(ledger: seq<Event>, limits: Limits, r: Resource) {
    r.Limit(limits).Some? && SumOf(ledger, r) >= r.Limit(limits).value
  }

  lemma SpendingStep(w: Workflow, s: RunState, e: Event, r: Resource)
    requires Declared(w) && Matches(w, s) && Accepts(w, s, e)
    ensures r.In(Effect(w, s, e).spent) ==
            r.In(s.spent) + (if e.NodeSucceeded? || e.NodeFailed? then r.In(e.used) else 0)
            + if r.NodeStarts? && e.NodeStarted? then 1 else 0
  {
  }

  /** The replayed account is the sum over the ledger, in every resource. */
  lemma {:induction false} AccountIsExact(w: Workflow, ledger: seq<Event>, r: Resource)
    requires Declared(w) && Replayed(w, ledger).Some?
    ensures r.In(Replayed(w, ledger).value.state.spent) == SumOf(ledger, r)
  {
    if |ledger| > 0 {
      var before := ledger[..|ledger| - 1];
      AccountIsExact(w, before, r);
      SpendingStep(w, Replayed(w, before).value.state, ledger[|ledger| - 1], r);
    }
  }

  lemma LimitsReached(w: Workflow, ledger: seq<Event>)
    requires Declared(w) && Replayed(w, ledger).Some?
    ensures var spent := Replayed(w, ledger).value.state.spent;
            && (StartsExhausted(w.limits, spent) <==> Used(ledger, w.limits, NodeStarts))
            && (SettlementExhausted(w.limits, spent) <==>
                  exists r: Resource :: !r.NodeStarts? && Used(ledger, w.limits, r))
            && (ExceedsAny(w.limits, spent) <==> exists r: Resource :: Used(ledger, w.limits, r))
  {
    AccountIsExact(w, ledger, NodeStarts);
    AccountIsExact(w, ledger, ModelTokens);
    AccountIsExact(w, ledger, ModelCost);
    AccountIsExact(w, ledger, ExecutionMs);
    AccountIsExact(w, ledger, ArtifactBytes);
    assert Used(ledger, w.limits, ModelTokens) || !Used(ledger, w.limits, ModelTokens);
    assert Used(ledger, w.limits, ModelCost) || !Used(ledger, w.limits, ModelCost);
    assert Used(ledger, w.limits, ExecutionMs) || !Used(ledger, w.limits, ExecutionMs);
    assert Used(ledger, w.limits, ArtifactBytes) || !Used(ledger, w.limits, ArtifactBytes);
  }

  /** The event at this place of an accepted ledger was accepted in the state before it. */
  lemma AcceptedAt(w: Workflow, ledger: seq<Event>, i: nat)
    requires Declared(w) && i < |ledger| && Replayed(w, ledger).Some?
    ensures Replayed(w, ledger[..i]).Some? && Replayed(w, ledger[..i + 1]).Some?
    ensures GraphAdmits(w, StateAt(w, ledger, i), ledger[i]) && Accepts(w, StateAt(w, ledger, i), ledger[i])
    ensures StateAt(w, ledger, i + 1) == Effect(w, StateAt(w, ledger, i), ledger[i])
  {
    PrefixesReplay(w, ledger, i);
    PrefixesReplay(w, ledger, i + 1);
    assert ledger[..i + 1][..i] == ledger[..i];
  }

  /** The records that begin, or ask to begin, further work. */
  predicate Commits(e: Event) {
    e.NodeStarted? || e.CommandApprovalRequested? || e.WorkflowApprovalRequested? || e.NodeRetryScheduled?
  }

  lemma CommitsWithinLimits(w: Workflow, s: RunState, e: Event)
    requires Declared(w) && Matches(w, s) && Accepts(w, s, e) && Commits(e)
    ensures !ExceedsAny(w.limits, s.spent)
  {
  }

  /** In an accepted ledger nothing is started, retried or asked for after the records
      before it have used up a limit. */
  lemma NothingStartsPastALimit(w: Workflow, ledger: seq<Event>, i: nat, r: Resource)
    requires Declared(w) && i < |ledger| && Replayed(w, ledger).Some? && Commits(ledger[i])
    requires r.Limit(w.limits).Some?
    ensures ReportedIn(ledger[..i], r) + (if r.NodeStarts? then StartsIn(ledger[..i]) else 0) <
            r.Limit(w.limits).value
  {
    AcceptedAt(w, ledger, i);
    CommitsWithinLimits(w, StateAt(w, ledger, i), ledger[i]);
    LimitsReached(w, ledger[..i]);
    assert !Used(ledger[..i], w.limits, r);
  }

  /** A limit on starts is never passed by starts alone. */
  lemma {:induction false} StartsStayWithin(w: Workflow, ledger: seq<Event>)
    requires Declared(w) && Replayed(w, ledger).Some? && w.limits.nodeStarts.Some?
    ensures StartsIn(ledger) <= w.limits.nodeStarts.value
  {
    if |ledger| > 0 {
      var last := |ledger| - 1;
      StartsStayWithin(w, ledger[..last]);
      if ledger[last].NodeStarted? {
        NothingStartsPastALimit(w, ledger, last, NodeStarts);
      }
    }
  }

  lemma EndsByTheAccount(w: Workflow, s: RunState, e: Event)
    requires Declared(w) && Matches(w, s) && Accepts(w, s, e)
    ensures e.RunExhausted? ==> ExceedsAny(w.limits, s.spent)
    ensures e.RunSucceeded? || e.RunFailed? || e.RunCancelled? ==> !SettlementExhausted(w.limits, s.spent)
  {
  }

  /** A run ends as exhausted only when some limit is used up, and otherwise only while
      no limit but that on starts is. */
  lemma EndingsFollowTheAccount(w: Workflow, ledger: seq<Event>, i: nat)
    requires Declared(w) && i < |ledger| && Replayed(w, ledger).Some?
    ensures ledger[i].RunExhausted? ==> exists r: Resource :: Used(ledger[..i], w.limits, r)
    ensures ledger[i].RunSucceeded? || ledger[i].RunFailed? || ledger[i].RunCancelled? ==>
            forall r: Resource | !r.NodeStarts? :: !Used(ledger[..i], w.limits, r)
  {
    AcceptedAt(w, ledger, i);
    EndsByTheAccount(w, StateAt(w, ledger, i), ledger[i]);
    LimitsReached(w, ledger[..i]);
  }
}
