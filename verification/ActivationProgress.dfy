/** First activation gets done: from every world a run can reach, what an undisturbed
    process achieves, and where it must give up. */
module ActivationProgress {
  import opened Standard
  import opened FirstActivation

  /** The world after some more steps. */
  function After(w: World, steps: seq<Step>, maxChecks: nat): World
    decreases |steps|
  {
    if |steps| == 0 then w else After(Next(w, steps[0], maxChecks), steps[1..], maxChecks)
  }

  lemma {:induction false} AfterLast(w: World, steps: seq<Step>, last: Step, maxChecks: nat)
    ensures After(w, steps + [last], maxChecks) == Next(After(w, steps, maxChecks), last, maxChecks)
    decreases |steps|
  {
    if |steps| == 0 {
      assert ([] + [last])[1..] == [];
    } else {
      assert (steps + [last])[1..] == steps[1..] + [last];
      AfterLast(Next(w, steps[0], maxChecks), steps[1..], last, maxChecks);
    }
  }

  lemma {:induction false} RanOn(steps: seq<Step>, more: seq<Step>, maxChecks: nat)
    ensures Ran(steps + more, maxChecks) == After(Ran(steps, maxChecks), more, maxChecks)
    decreases |more|
  {
    if |more| == 0 {
      assert steps + more == steps;
    } else {
      var k := |more| - 1;
      assert (steps + more)[..|steps + more| - 1] == steps + more[..k];
      RanOn(steps, more[..k], maxChecks);
      AfterLast(Ran(steps, maxChecks), more[..k], more[k], maxChecks);
      assert more[..k] + [more[k]] == more;
    }
  }

  lemma Front(w: World, step: Step, rest: seq<Step>, maxChecks: nat)
    ensures After(w, [step] + rest, maxChecks) == After(Next(w, step, maxChecks), rest, maxChecks)
  {
    assert ([step] + rest)[1..] == rest;
  }

  // ---------------------------------------------------------------------
  // Settling
  // ---------------------------------------------------------------------

  /** The steps of an install call that commits, whatever it then reports, and of settling
      its record. */
  function Install(report: Report): seq<Step> {
    [Confirm, Commit, Return(report), Settle(true)]
  }

  function SettledFrom(p: Record): Record
    requires p.Prepared?
  {
    Settled(p.attempts, p.createdAt, p.lastObservedAt, p.receipt)
  }

  lemma InstallSettles(w: World, p: Record, report: Report, maxChecks: nat)
    requires w.phase == Ready(p) && p.Prepared? && w.record == Some(p) && w.installed == []
    ensures var w' := After(w, Install(report), maxChecks);
            && w'.record == Some(SettledFrom(p)) && w'.installed == [p.receipt] && w'.phase.Down?
            && w'.calls == w.calls + [Call(p.receipt, Some(p))] && w'.checks == w.checks
  {
    Front(w, Confirm, [Commit, Return(report), Settle(true)], maxChecks);
    var w1 := Next(w, Confirm, maxChecks);
    Front(w1, Commit, [Return(report), Settle(true)], maxChecks);
    var w2 := Next(w1, Commit, maxChecks);
    Front(w2, Return(report), [Settle(true)], maxChecks);
    Front(Next(w2, Return(report), maxChecks), Settle(true), [], maxChecks);
    assert Install(report) == [Confirm] + [Commit, Return(report), Settle(true)];
  }

  /** The clock may move inside an install call.  If the process learns of it, it settles
      with the new time; if not, its record is out of date, and the prepared record stays
      for the next process to settle. */
  lemma ClockMovesInside(w: World, p: Record, now: Time, noticed: bool, report: Report, maxChecks: nat)
    requires w.phase == Ready(p) && p.Prepared? && w.record == Some(p) && w.installed == [] && now > p.lastObservedAt
    ensures var later := Prepared(p.attempts, p.createdAt, now, p.receipt);
            var inside := [Confirm, Advance(now, true, noticed), Commit, Return(report), Settle(true)];
            var w' := After(w, inside, maxChecks);
            && w'.record == Some(if noticed then SettledFrom(later) else later)
            && w'.installed == [p.receipt] && w'.phase.Down?
  {
    var move := Advance(now, true, noticed);
    Front(w, Confirm, [move, Commit, Return(report), Settle(true)], maxChecks);
    var w1 := Next(w, Confirm, maxChecks);
    Front(w1, move, [Commit, Return(report), Settle(true)], maxChecks);
    var w2 := Next(w1, move, maxChecks);
    Front(w2, Commit, [Return(report), Settle(true)], maxChecks);
    var w3 := Next(w2, Commit, maxChecks);
    Front(w3, Return(report), [Settle(true)], maxChecks);
    Front(Next(w3, Return(report), maxChecks), Settle(true), [], maxChecks);
    assert [Confirm, move, Commit, Return(report), Settle(true)] ==
           [Confirm] + [move, Commit, Return(report), Settle(true)];
  }

  /** A process that finds a prepared record and an empty store installs and settles it. */
  lemma PreparedInstalls(steps: seq<Step>, maxChecks: nat, now: Time, applied: bool, report: Report)
    requires Ran(steps, maxChecks).phase.Down? && Ran(steps, maxChecks).installed == []
    requires Ran(steps, maxChecks).record.Some? && Ran(steps, maxChecks).record.value.Prepared?
    ensures var p := Ran(steps, maxChecks).record.value;
            var w' := Ran(steps + ([Enter, ReadRecord(now, applied)] + Install(report)), maxChecks);
            && w'.record == Some(Settled(p.attempts, p.createdAt, p.lastObservedAt, p.receipt))
            && w'.installed == [p.receipt] && w'.phase.Down?
            && |w'.calls| == |Ran(steps, maxChecks).calls| + 1
  {
    var w := Ran(steps, maxChecks);
    var opening := [Enter, ReadRecord(now, applied)];
    RanOn(steps, opening + Install(report), maxChecks);
    assert opening + Install(report) == [Enter] + ([ReadRecord(now, applied)] + Install(report));
    Front(w, Enter, [ReadRecord(now, applied)] + Install(report), maxChecks);
    var w1 := Next(w, Enter, maxChecks);
    Front(w1, ReadRecord(now, applied), Install(report), maxChecks);
    InstallSettles(Next(w1, ReadRecord(now, applied), maxChecks), w.record.value, report, maxChecks);
  }

  /** A process that finds a prepared record whose package is installed, and nothing else
      is, settles the record without another install call. */
  lemma InstalledSettles(steps: seq<Step>, maxChecks: nat, now: Time, applied: bool)
    requires Ran(steps, maxChecks).phase.Down?
    requires Ran(steps, maxChecks).record.Some? && Ran(steps, maxChecks).record.value.Prepared?
    requires Ran(steps, maxChecks).installed == [Ran(steps, maxChecks).record.value.receipt]
    ensures var w, p := Ran(steps, maxChecks), Ran(steps, maxChecks).record.value;
            var w' := Ran(steps + [Enter, ReadRecord(now, applied), Settle(true)], maxChecks);
            && w'.record == Some(Settled(p.attempts, p.createdAt, p.lastObservedAt, p.receipt))
            && w'.installed == w.installed && w'.phase.Down? && w'.calls == w.calls
  {
    var w := Ran(steps, maxChecks);
    var read := ReadRecord(now, applied);
    RanOn(steps, [Enter, read, Settle(true)], maxChecks);
    Front(w, Enter, [read, Settle(true)], maxChecks);
    var w1 := Next(w, Enter, maxChecks);
    Front(w1, read, [Settle(true)], maxChecks);
    var w2 := Next(w1, read, maxChecks);
    Front(w2, Settle(true), [], maxChecks);
    assert [Enter, read, Settle(true)] == [Enter] + ([read] + ([Settle(true)] + []));
  }

  // ---------------------------------------------------------------------
  // From the beginning
  // ---------------------------------------------------------------------

  /** The record a process waits with: a new one, or the one it found. */
  function WaitingRecord(w: World, now: Time): Record {
    if w.record.Some? then w.record.value else Waiting(0, now, now)
  }

  /** Nothing is installed, and the record allows another attempt. */
  predicate MayWait(w: World, maxChecks: nat) {
    && w.phase.Down? && w.installed == []
    && (w.record.Some? ==> w.record.value.Waiting? && w.record.value.attempts < maxChecks)
  }

  lemma Waits(w: World, now: Time, rest: seq<Step>, maxChecks: nat)
    requires MayWait(w, maxChecks)
    ensures var w' := Next(Next(w, Enter, maxChecks), ReadRecord(now, true), maxChecks);
            && After(w, [Enter, ReadRecord(now, true)] + rest, maxChecks) == After(w', rest, maxChecks)
            && w'.phase == Looping(WaitingRecord(w, now)) && w'.record == Some(WaitingRecord(w, now))
            && w'.installed == [] && w'.checks == w.checks && w'.calls == w.calls
  {
    assert [Enter, ReadRecord(now, true)] + rest == [Enter] + ([ReadRecord(now, true)] + rest);
    Front(w, Enter, [ReadRecord(now, true)] + rest, maxChecks);
    Front(Next(w, Enter, maxChecks), ReadRecord(now, true), rest, maxChecks);
  }

  /** One round that finds nothing. */
  function Round(tried: Time, declined: Time): seq<Step> {
    [Attempt(tried, true), Check, Decline(declined, true)]
  }

  /** The round that finds a candidate. */
  function Found(tried: Time, found: Time, candidate: Receipt): seq<Step> {
    [Attempt(tried, true), Check, Prepare(candidate, found, true)]
  }

  lemma RoundGoesOn(w: World, r: Record, tried: Time, declined: Time, rest: seq<Step>, maxChecks: nat)
    requires w.phase == Looping(r) && r.Waiting? && w.record == Some(r) && r.lastObservedAt <= tried <= declined
    requires r.attempts + 1 < maxChecks
    ensures var r' := Waiting(r.attempts + 1, r.createdAt, declined);
            var w' := After(w, Round(tried, declined), maxChecks);
            && After(w, Round(tried, declined) + rest, maxChecks) == After(w', rest, maxChecks)
            && w'.phase == Looping(r') && w'.record == Some(r')
            && w'.installed == w.installed && w'.checks == w.checks + 1 && w'.calls == w.calls
  {
    var a, d := Attempt(tried, true), Decline(declined, true);
    forall more: seq<Step>
      ensures After(w, Round(tried, declined) + more, maxChecks) ==
              After(Next(Next(Next(w, a, maxChecks), Check, maxChecks), d, maxChecks), more, maxChecks)
    {
      assert Round(tried, declined) + more == [a] + ([Check] + ([d] + more));
      Front(w, a, [Check] + ([d] + more), maxChecks);
      Front(Next(w, a, maxChecks), Check, [d] + more, maxChecks);
      Front(Next(Next(w, a, maxChecks), Check, maxChecks), d, more, maxChecks);
    }
    assert Round(tried, declined) + [] == Round(tried, declined);
  }

  lemma FoundPrepares(w: World, r: Record, tried: Time, found: Time, candidate: Receipt, rest: seq<Step>,
                      maxChecks: nat)
    requires w.phase == Looping(r) && r.Waiting? && w.record == Some(r) && r.lastObservedAt <= tried <= found
    ensures var p := Prepared(r.attempts + 1, r.createdAt, found, candidate);
            var a, c := Next(w, Attempt(tried, true), maxChecks), Prepare(candidate, found, true);
            var w' := Next(Next(a, Check, maxChecks), c, maxChecks);
            && After(w, Found(tried, found, candidate) + rest, maxChecks) == After(w', rest, maxChecks)
            && w'.phase == Ready(p) && w'.record == Some(p)
            && w'.installed == w.installed && w'.checks == w.checks + 1 && w'.calls == w.calls
  {
    var a, c := Attempt(tried, true), Prepare(candidate, found, true);
    assert Found(tried, found, candidate) + rest == [a] + ([Check] + ([c] + rest));
    Front(w, a, [Check] + ([c] + rest), maxChecks);
    Front(Next(w, a, maxChecks), Check, [c] + rest, maxChecks);
    Front(Next(Next(w, a, maxChecks), Check, maxChecks), c, rest, maxChecks);
  }

  /** Rounds that find nothing, and then one that finds the candidate, whose install call
      reports whatever it does. */
  datatype Search = Search(rounds: seq<(Time, Time)>, tried: Time, found: Time, candidate: Receipt,
                             report: Report)

  predicate InTime(search: Search, from: Time)
    decreases |search.rounds|
  {
    if |search.rounds| == 0 then from <= search.tried <= search.found
    else
      from <= search.rounds[0].0 <= search.rounds[0].1
        && InTime(search.(rounds := search.rounds[1..]), search.rounds[0].1)
  }

  function Searching(search: Search): seq<Step>
    decreases |search.rounds|
  {
    if |search.rounds| == 0 then Found(search.tried, search.found, search.candidate) + Install(search.report)
    else
      Round(search.rounds[0].0, search.rounds[0].1) + Searching(search.(rounds := search.rounds[1..]))
  }

  lemma {:induction false} SearchSettles(w: World, r: Record, search: Search, maxChecks: nat)
    requires w.phase == Looping(r) && r.Waiting? && w.record == Some(r) && w.installed == []
    requires InTime(search, r.lastObservedAt) && r.attempts + |search.rounds| < maxChecks
    ensures var w' := After(w, Searching(search), maxChecks);
            && w'.record == Some(Settled(r.attempts + |search.rounds| + 1, r.createdAt, search.found, search.candidate))
            && w'.installed == [search.candidate] && w'.phase.Down?
            && w'.checks == w.checks + |search.rounds| + 1 && |w'.calls| == |w.calls| + 1
    decreases |search.rounds|
  {
    if |search.rounds| == 0 {
      FoundPrepares(w, r, search.tried, search.found, search.candidate, Install(search.report), maxChecks);
      var p := Prepared(r.attempts + 1, r.createdAt, search.found, search.candidate);
      var a, c := Next(w, Attempt(search.tried, true), maxChecks), Prepare(search.candidate, search.found, true);
      InstallSettles(Next(Next(a, Check, maxChecks), c, maxChecks), p, search.report, maxChecks);
    } else {
      var (tried, declined) := search.rounds[0];
      var rest := search.(rounds := search.rounds[1..]);
      RoundGoesOn(w, r, tried, declined, Searching(rest), maxChecks);
      var r' := Waiting(r.attempts + 1, r.createdAt, declined);
      SearchSettles(After(w, Round(tried, declined), maxChecks), r', rest, maxChecks);
    }
  }

  /** From every world in which nothing is installed and attempts are left, an undisturbed
      process whose clock does not go back, and which finds a candidate within the attempts
      left, ends with the candidate installed, alone, and its record settled. */
  lemma UndisturbedRunSettles(steps: seq<Step>, maxChecks: nat, now: Time, search: Search)
    requires MayWait(Ran(steps, maxChecks), maxChecks) && maxChecks >= 1
    requires var r := WaitingRecord(Ran(steps, maxChecks), now);
             InTime(search, r.lastObservedAt) && r.attempts + |search.rounds| < maxChecks
    ensures var w, r := Ran(steps, maxChecks), WaitingRecord(Ran(steps, maxChecks), now);
            var w' := Ran(steps + ([Enter, ReadRecord(now, true)] + Searching(search)), maxChecks);
            && w'.record == Some(Settled(r.attempts + |search.rounds| + 1, r.createdAt, search.found, search.candidate))
            && w'.installed == [search.candidate] && w'.phase.Down?
            && w'.checks == w.checks + |search.rounds| + 1 && |w'.calls| == |w.calls| + 1
  {
    var w := Ran(steps, maxChecks);
    RanOn(steps, [Enter, ReadRecord(now, true)] + Searching(search), maxChecks);
    Waits(w, now, Searching(search), maxChecks);
    SearchSettles(Next(Next(w, Enter, maxChecks), ReadRecord(now, true), maxChecks), WaitingRecord(w, now), search,
                  maxChecks);
  }

  // ---------------------------------------------------------------------
  // Giving up
  // ---------------------------------------------------------------------

  /** The attempts are used up and nothing was found. */
  predicate UsedUp(w: World, maxChecks: nat) {
    w.record.Some? && w.record.value.Waiting? && w.record.value.attempts >= maxChecks
  }

  predicate Idle(w: World) {
    w.phase.Down? || w.phase.Entered?
  }

  /** Once the attempts are used up and the process has stopped, the record never changes
      and nothing is checked or installed, whatever happens. */
  lemma {:induction false} UsedUpIsFinal(w: World, more: seq<Step>, maxChecks: nat)
    requires UsedUp(w, maxChecks) && Idle(w)
    ensures var w' := After(w, more, maxChecks);
            && w'.record == w.record && w'.records == w.records && w'.checks == w.checks && w'.calls == w.calls
            && Idle(w')
    decreases |more|
  {
    if |more| > 0 {
      UsedUpIsFinal(Next(w, more[0], maxChecks), more[1..], maxChecks);
    }
  }

  /** A settled record is final too. */
  lemma {:induction false} SettledIsFinal(w: World, more: seq<Step>, maxChecks: nat)
    requires w.record.Some? && w.record.value.Settled? && Idle(w)
    ensures var w' := After(w, more, maxChecks);
            w'.record == w.record && w'.records == w.records && w'.checks == w.checks && w'.calls == w.calls && Idle(w')
    decreases |more|
  {
    if |more| > 0 {
      SettledIsFinal(Next(w, more[0], maxChecks), more[1..], maxChecks);
    }
  }

  /** Another package in the store stops the process before it writes or installs. */
  lemma ForeignPackagesStop(steps: seq<Step>, maxChecks: nat, now: Time, applied: bool)
    requires var w := Ran(steps, maxChecks);
             && w.phase.Down? && w.installed != []
             && (w.record.Some? && w.record.value.Prepared? ==> w.installed != [w.record.value.receipt])
    ensures var w, w' := Ran(steps, maxChecks), Ran(steps + [Enter, ReadRecord(now, applied)], maxChecks);
            w' == w
  {
    var w := Ran(steps, maxChecks);
    RanOn(steps, [Enter, ReadRecord(now, applied)], maxChecks);
    Front(w, Enter, [ReadRecord(now, applied)], maxChecks);
    Front(Next(w, Enter, maxChecks), ReadRecord(now, applied), [], maxChecks);
    assert [Enter, ReadRecord(now, applied)] == [Enter] + ([ReadRecord(now, applied)] + []);
  }

  /** Every install call is made over an empty store. */
  lemma CallsFindAnEmptyStore(w: World, step: Step, maxChecks: nat)
    ensures var w' := Next(w, step, maxChecks);
            w'.calls != w.calls ==> w.installed == [] && w'.calls[..|w.calls|] == w.calls && |w'.calls| == |w.calls| + 1
  {
  }
}
