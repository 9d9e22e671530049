/** Budget reservations for the children of one batch.  The source adds ceilings as
    JavaScript numbers and caps each sum; the decisions are those of exact sums. */
module ChildBudget {
  import opened Standard
  import opened WorkflowGraph
  import opened RunReducer

  const MAX_SAFE: nat := 0x1F_FFFF_FFFF_FFFF

  /** The sum of two safe integers as a double: above 2^53 only even values exist, and
      a tie goes to the multiple of four. */
  function DoubleSum(a: nat, b: nat): nat {
    var exact := a + b;
    if exact <= MAX_SAFE + 1 || exact % 2 == 0 then exact
    else if exact % 4 == 1 then exact - 1
    else exact + 1
  }

  /** The whole numbers below 2^54 that are doubles. */
  predicate IsDouble(n: nat) {
    n < 0x40_0000_0000_0000 && (n <= MAX_SAFE + 1 || n % 2 == 0)
  }

  /** The sum is the nearest double, and of two equally near the one with an even
      significand. */
  lemma SumIsNearest(a: nat, b: nat, other: nat)
    requires a + b < 0x3F_FFFF_FFFF_FFFF && IsDouble(other)
    ensures IsDouble(DoubleSum(a, b))
    ensures var sum, exact := DoubleSum(a, b), a + b;
            var near := if sum < exact then exact - sum else sum - exact;
            var far := if other < exact then exact - other else other - exact;
            near < far || sum == other || (near == far && sum % 4 == 0)
  {
  }

  function SaturatingAdd(a: nat, b: nat): nat {
    if DoubleSum(a, b) < MAX_SAFE then DoubleSum(a, b) else MAX_SAFE
  }

  function Capped(exact: nat): nat {
    if exact < MAX_SAFE then exact else MAX_SAFE
  }

  function Remaining(limit: nat, consumed: nat): nat {
    if consumed < limit then limit - consumed else 0
  }

  /** The compiler admits only positive safe ceilings and limits. */
  predicate Ceiling(c: Amounts) {
    && 1 <= c.nodeStarts <= MAX_SAFE && 1 <= c.modelTokens <= MAX_SAFE && 1 <= c.modelCost <= MAX_SAFE
    && 1 <= c.executionMs <= MAX_SAFE && 1 <= c.artifactBytes <= MAX_SAFE
  }

  predicate Safe(limit: Option<nat>) {
    limit.Some? ==> limit.value <= MAX_SAFE
  }

  predicate SafeLimits(limits: Limits) {
    && Safe(limits.nodeStarts) && Safe(limits.modelTokens) && Safe(limits.modelCost)
    && Safe(limits.executionMs) && Safe(limits.artifactBytes)
  }

  function Total(ceilings: seq<Amounts>): Amounts {
    if |ceilings| == 0 then NOTHING else Plus(Total(ceilings[..|ceilings| - 1]), ceilings[|ceilings| - 1])
  }

  /** These amounts, and this many starts, stay within what the parent has left. */
  predicate Within(limits: Limits, spent: Amounts, starts: nat, more: Amounts) {
    && (limits.nodeStarts.Some? ==> spent.nodeStarts + starts + more.nodeStarts <= limits.nodeStarts.value)
    && (limits.modelTokens.Some? ==> spent.modelTokens + more.modelTokens <= limits.modelTokens.value)
    && (limits.modelCost.Some? ==> spent.modelCost + more.modelCost <= limits.modelCost.value)
    && (limits.executionMs.Some? ==> spent.executionMs + more.executionMs <= limits.executionMs.value)
    && (limits.artifactBytes.Some? ==> spent.artifactBytes + more.artifactBytes <= limits.artifactBytes.value)
  }

  /** One dimension of the preflight, as the source evaluates it. */
  predicate Unavailable(limit: Option<nat>, consumed: nat, start: nat, held: nat, ceiling: nat) {
    limit.Some? && DoubleSum(DoubleSum(start, held), ceiling) > Remaining(limit.value, consumed)
  }

  /** Neither the cap nor the rounding ever changes a decision. */
  lemma DecisionsAreExact(limit: Option<nat>, consumed: nat, start: nat, exact: nat, ceiling: nat)
    requires Safe(limit) && start <= 1 <= ceiling <= MAX_SAFE
    ensures Unavailable(limit, consumed, start, Capped(exact), ceiling) <==>
            limit.Some? && consumed + start + exact + ceiling > limit.value
  {
  }

  lemma SumsStayCapped(exact: nat, ceiling: nat)
    requires ceiling <= MAX_SAFE
    ensures SaturatingAdd(Capped(exact), ceiling) == Capped(exact + ceiling)
  {
  }

  /** What the children of the current batch may come to use. */
  class Reservations {
    var held: Amounts
    ghost var children: seq<Amounts>

    ghost predicate Valid()
      reads this
    {
      var total := Total(children);
      && (forall i | 0 <= i < |children| :: Ceiling(children[i]))
      && held == Amounts(Capped(total.nodeStarts), Capped(total.modelTokens), Capped(total.modelCost),
                         Capped(total.executionMs), Capped(total.artifactBytes))
    }

    constructor ()
      ensures Valid() && children == []
    {
      held := NOTHING;
      children := [];
    }

    /** Whether one more child can be covered, counting its own start. */
    predicate Covers(limits: Limits, spent: Amounts, ceiling: Amounts)
      requires Valid() && SafeLimits(limits) && Ceiling(ceiling)
      reads this
      ensures Covers(limits, spent, ceiling) <==> Within(limits, spent, 1, Total(children + [ceiling]))
    {
      var total := Total(children);
      DecisionsAreExact(limits.nodeStarts, spent.nodeStarts, 1, total.nodeStarts, ceiling.nodeStarts);
      DecisionsAreExact(limits.modelTokens, spent.modelTokens, 0, total.modelTokens, ceiling.modelTokens);
      DecisionsAreExact(limits.modelCost, spent.modelCost, 0, total.modelCost, ceiling.modelCost);
      DecisionsAreExact(limits.executionMs, spent.executionMs, 0, total.executionMs, ceiling.executionMs);
      DecisionsAreExact(limits.artifactBytes, spent.artifactBytes, 0, total.artifactBytes, ceiling.artifactBytes);
      assert (children + [ceiling])[..|children|] == children;
      && !Unavailable(limits.nodeStarts, spent.nodeStarts, 1, held.nodeStarts, ceiling.nodeStarts)
      && !Unavailable(limits.modelTokens, spent.modelTokens, 0, held.modelTokens, ceiling.modelTokens)
      && !Unavailable(limits.modelCost, spent.modelCost, 0, held.modelCost, ceiling.modelCost)
      && !Unavailable(limits.executionMs, spent.executionMs, 0, held.executionMs, ceiling.executionMs)
      && !Unavailable(limits.artifactBytes, spent.artifactBytes, 0, held.artifactBytes, ceiling.artifactBytes)
    }

    method Reserve(ceiling: Amounts)
      requires Valid() && Ceiling(ceiling)
      modifies this
      ensures Valid() && children == old(children) + [ceiling]
    {
      ghost var total := Total(children);
      SumsStayCapped(total.nodeStarts, ceiling.nodeStarts);
      SumsStayCapped(total.modelTokens, ceiling.modelTokens);
      SumsStayCapped(total.modelCost, ceiling.modelCost);
      SumsStayCapped(total.executionMs, ceiling.executionMs);
      SumsStayCapped(total.artifactBytes, ceiling.artifactBytes);
      assert (children + [ceiling])[..|children|] == children;
      held := Amounts(
        SaturatingAdd(held.nodeStarts, ceiling.nodeStarts),
        SaturatingAdd(held.modelTokens, ceiling.modelTokens),
        SaturatingAdd(held.modelCost, ceiling.modelCost),
        SaturatingAdd(held.executionMs, ceiling.executionMs),
        SaturatingAdd(held.artifactBytes, ceiling.artifactBytes));
      children := children + [ceiling];
    }
  }

  function AfterStarts(spent: Amounts, starts: nat): Amounts {
    spent.(nodeStarts := spent.nodeStarts + starts)
  }

  lemma StartsCount(limits: Limits, spent: Amounts, starts: nat, more: Amounts)
    ensures Within(limits, AfterStarts(spent, starts), 1, more) <==> Within(limits, spent, starts + 1, more)
  {
  }

  /** Filling a batch from the children the scheduler offers in turn.  Every child that
      passes its preflight is covered: the ceilings of all of them, and one start for
      each, fit what the parent has left.  The first that cannot be covered still
      starts, to fail at once, and ends the batch; otherwise the batch ends only at its
      size, for want of children, or because the starts themselves used a limit up. */
  method FillBatch(limits: Limits, spent: Amounts, offered: seq<Amounts>, maxNodes: nat)
    returns (started: nat, covered: nat)
    requires SafeLimits(limits) && forall i | 0 <= i < |offered| :: Ceiling(offered[i])
    ensures covered <= started <= covered + 1 && started <= maxNodes && started <= |offered|
    ensures covered > 0 ==> Within(limits, spent, covered, Total(offered[..covered]))
    ensures started > covered ==> !Within(limits, spent, started, Total(offered[..started]))
    ensures started == covered ==>
              || started == maxNodes || started == |offered|
              || (started > 0 && ExceedsAny(limits, AfterStarts(spent, started)))
  {
    var reservations := new Reservations();
    started, covered := 0, 0;
    assert offered[..0] == [];
    while started < maxNodes && started < |offered|
      invariant covered == started <= maxNodes && started <= |offered|
      invariant reservations.Valid() && reservations.children == offered[..started] && fresh(reservations)
      invariant covered > 0 ==> Within(limits, spent, covered, Total(offered[..covered]))
      decreases |offered| - started
    {
      assert offered[..started] + [offered[started]] == offered[..started + 1];
      StartsCount(limits, spent, started, Total(offered[..started + 1]));
      var passes := reservations.Covers(limits, AfterStarts(spent, started), offered[started]);
      started := started + 1;
      if !passes {
        return;
      }
      covered := covered + 1;
      reservations.Reserve(offered[started - 1]);
      if ExceedsAny(limits, AfterStarts(spent, started)) {
        return;
      }
    }
  }
}
