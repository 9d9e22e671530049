/** First activation of a capability package: a waiting, prepared, settled protocol over
    one durable record, restarted after a crash between any two of its effects. */
module FirstActivation {
  import opened Standard

  type Time = nat

  /** What identifies a verified candidate package. */
  type Receipt = nat

  datatype Record =
    | Waiting(attempts: nat, createdAt: Time, lastObservedAt: Time)
    | Prepared(attempts: nat, createdAt: Time, lastObservedAt: Time, receipt: Receipt)
    | Settled(attempts: nat, createdAt: Time, lastObservedAt: Time, receipt: Receipt)

  /** What an install call reports: done, or one of two kinds of doubt, which the caller
      resolves by reading the package store. */
  datatype Report = Done | CommitUncertain | SettlementUncertain

  /** Where the one process is, with the record it holds in memory. */
  datatype Phase =
    | Down
    | Entered(found: seq<Receipt>)                  // the installed packages have been read
    | Looping(state: Record)                        // about to wait for the next attempt
    | Attempted(state: Record, checked: bool)       // the attempt is durable; the check is due or done
    | Ready(state: Record)                          // prepared; the store is read once more
    | Installing(state: Record, committed: bool)    // inside the install call
    | Settling(state: Record)                       // the exact package was seen or reported installed

  /** An install call, with the durable record at the time. */
  datatype Call = Call(receipt: Receipt, record: Option<Record>)

  datatype World = World(
    record: Option<Record>,
    installed: seq<Receipt>,
    phase: Phase,
    records: seq<Record>,       // every record that was ever durable, in order
    calls: seq<Call>,
    checks: nat,                // repository checks made
    seen: set<Receipt>)         // every package that was ever installed

  datatype Step =
    | Crash
    | Foreign(installed: seq<Receipt>)              // another program changes the package store
    | Enter
    | ReadRecord(now: Time, applied: bool)
    | Attempt(now: Time, applied: bool)
    | Check
    | Decline(now: Time, applied: bool)             // the check failed or found no candidate
    | Prepare(receipt: Receipt, now: Time, applied: bool)
    | Confirm
    | Commit
    | Advance(now: Time, applied: bool, noticed: bool)
    | Return(report: Report)
    | Settle(applied: bool)

  function Fresh(): World {
    World(None, [], Down, [], [], 0, {})
  }

  function Stored(w: World, r: Record): World {
    w.(record := Some(r), records := w.records + [r])
  }

  /** A compare-and-swap publication.  The store applies it only over the expected
      record, and may then lose the acknowledgement; the caller goes on only if it finds
      the new record durable, by the acknowledgement or by reading it back. */
  function Published(w: World, expected: Option<Record>, r: Record, applied: bool): World {
    if applied && w.record == expected then Stored(w, r) else w
  }

  function Onward(w: World, expected: Option<Record>, r: Record, applied: bool, next: Phase): World {
    var after := Published(w, expected, r, applied);
    after.(phase := if after.record == Some(r) then next else Down)
  }

  /** A resumed process acts on the durable record and on what it found installed. */
  function Resumed(w: World, r: Record, found: seq<Receipt>, maxChecks: nat): Phase {
    match r
    case Settled(_, _, _, _) => Down
    case Prepared(_, _, _, receipt) =>
      if found == [receipt] then Settling(r) else if found != [] then Down else Ready(r)
    case Waiting(attempts, _, _) =>
      if found != [] || attempts >= maxChecks then Down else Looping(r)
  }

  /** One step of the process or its surroundings; a step that does not apply where the
      process is leaves the world as it is. */
  function Next(w: World, step: Step, maxChecks: nat): World {
    match step
    case Crash => w.(phase := Down)
    case Foreign(installed) => w.(installed := installed, seen := w.seen + set r | r in installed)
    case Enter => if w.phase.Down? then w.(phase := Entered(w.installed)) else w
    case ReadRecord(now, applied) =>
      if !w.phase.Entered? then w
      else (match w.record
            case Some(r) => w.(phase := Resumed(w, r, w.phase.found, maxChecks))
            case None =>
              if w.phase.found != [] then w.(phase := Down)
              else Onward(w, None, Waiting(0, now, now), applied, Looping(Waiting(0, now, now))))
    case Attempt(now, applied) =>
      if !w.phase.Looping? then w
      else if now < w.phase.state.lastObservedAt then w.(phase := Down)
      else
        var r := w.phase.state.(attempts := w.phase.state.attempts + 1, lastObservedAt := now);
        Onward(w, Some(w.phase.state), r, applied, Attempted(r, false))
    case Check =>
      if w.phase.Attempted? && !w.phase.checked then w.(phase := w.phase.(checked := true), checks := w.checks + 1)
        else w
    case Decline(now, applied) =>
      if !(w.phase.Attempted? && w.phase.checked) then w
      else if now < w.phase.state.lastObservedAt then w.(phase := Down)
      else
        var r := w.phase.state.(lastObservedAt := now);
        Onward(w, Some(w.phase.state), r, applied, if r.attempts >= maxChecks then Down else Looping(r))
    case Prepare(receipt, now, applied) =>
      if !(w.phase.Attempted? && w.phase.checked) then w
      else if now < w.phase.state.lastObservedAt then w.(phase := Down)
      else
        var r := Prepared(w.phase.state.attempts, w.phase.state.createdAt, now, receipt);
        Onward(w, Some(w.phase.state), r, applied, Ready(r))
    case Confirm =>
      if !(w.phase.Ready? && w.phase.state.Prepared?) then w
      else if w.installed != [] then w.(phase := Down)
      else w.(phase := Installing(w.phase.state, false), calls := w.calls + [Call(w.phase.state.receipt, w.record)])
    case Commit =>
      if !(w.phase.Installing? && w.phase.state.Prepared?) || w.phase.committed || w.installed != [] then w
      else w.(installed := [w.phase.state.receipt], seen := w.seen + {w.phase.state.receipt},
        phase := w.phase.(committed := true))
    case Advance(now, applied, noticed) =>
      if !w.phase.Installing? || now <= w.phase.state.lastObservedAt then w
      else
        var r := w.phase.state.(lastObservedAt := now);
        var after := Published(w, Some(w.phase.state), r, applied);
        // The installer may go on although the caller never learnt of the new record.
        if noticed && after.record == Some(r) then after.(phase := w.phase.(state := r)) else after
    case Return(report) =>
      if !(w.phase.Installing? && w.phase.state.Prepared?) then w
      else
        var exact := match report
          case Done => w.phase.committed
          case _ => w.installed == [w.phase.state.receipt];
        w.(phase := if exact then Settling(w.phase.state) else Down)
    case Settle(applied) =>
      if !(w.phase.Settling? && w.phase.state.Prepared?) then w
      else
        var p := w.phase.state;
        Onward(w, Some(p), Settled(p.attempts, p.createdAt, p.lastObservedAt, p.receipt), applied, Down)
  }

  function Ran(steps: seq<Step>, maxChecks: nat): World {
    if |steps| == 0 then Fresh() else Next(Ran(steps[..|steps| - 1], maxChecks), steps[|steps| - 1], maxChecks)
  }

  // ---------------------------------------------------------------------
  // The invariant
  // ---------------------------------------------------------------------

  predicate HasReceipt(r: Record) {
    r.Prepared? || r.Settled?
  }

  /** How one durable record may follow another. */
  predicate Follows(before: Record, after: Record) {
    && after.createdAt == before.createdAt
    && before.attempts <= after.attempts && before.lastObservedAt <= after.lastObservedAt
    && (before.Waiting? ==> after.Waiting? || after.Prepared?)
    && (before.Prepared? ==> HasReceipt(after) && after.receipt == before.receipt && after.attempts == before.attempts)
    && !before.Settled?
  }

  predicate Bounded(r: Record, maxChecks: nat) {
    r.attempts <= maxChecks && r.createdAt <= r.lastObservedAt
  }

  predicate HistoryHolds(w: World, maxChecks: nat) {
    && (w.record == if |w.records| == 0 then None else Some(w.records[|w.records| - 1]))
    && (forall i | 0 <= i < |w.records| :: Bounded(w.records[i], maxChecks))
    && (forall i | 0 < i < |w.records| :: Follows(w.records[i - 1], w.records[i]))
    && (|w.records| > 0 ==> w.records[0].Waiting?)
  }

  predicate CallsHold(w: World) {
    forall i | 0 <= i < |w.calls| ::
      w.calls[i].record.Some? && w.calls[i].record.value.Prepared?
        && w.calls[i].record.value.receipt == w.calls[i].receipt
  }

  /** The record the process holds is durable; inside an install call its clock may lag. */
  predicate PhaseHolds(w: World, maxChecks: nat) {
    match w.phase
    case Down => true
    case Entered(found) => forall r | r in found :: r in w.seen
    case Looping(state) => w.record == Some(state) && state.Waiting? && state.attempts < maxChecks
    case Attempted(state, checked) =>
      w.record == Some(state) && state.Waiting? && (!checked ==> w.checks < state.attempts)
    case Ready(state) => w.record == Some(state) && state.Prepared?
    case Installing(state, committed) => HoldsPrepared(w, state) && (committed ==> state.receipt in w.seen)
    case Settling(state) => HoldsPrepared(w, state) && state.receipt in w.seen
  }

  predicate HoldsPrepared(w: World, state: Record) {
    && state.Prepared? && w.record.Some? && w.record.value.Prepared?
    && w.record.value == Prepared(state.attempts, state.createdAt, w.record.value.lastObservedAt, state.receipt)
    && state.lastObservedAt <= w.record.value.lastObservedAt
  }

  predicate Invariant(w: World, maxChecks: nat) {
    && HistoryHolds(w, maxChecks) && CallsHold(w) && PhaseHolds(w, maxChecks)
    && w.checks <= (if w.record.Some? then w.record.value.attempts else 0)
    && (w.record.Some? && w.record.value.Settled? ==> w.record.value.receipt in w.seen)
    && (forall r | r in w.installed :: r in w.seen)
  }

  lemma StoringKeepsHistory(w: World, r: Record, maxChecks: nat)
    requires HistoryHolds(w, maxChecks) && Bounded(r, maxChecks)
    requires match w.record
             case None => r.Waiting?
             case Some(before) => Follows(before, r)
    ensures HistoryHolds(Stored(w, r), maxChecks)
  {
    var after := Stored(w, r);
    assert forall i | 0 <= i < |w.records| :: after.records[i] == w.records[i];
  }

  lemma PublishingKeeps(w: World, expected: Option<Record>, r: Record, applied: bool, next: Phase, maxChecks: nat)
    requires Invariant(w, maxChecks) && (w.record == expected ==> Bounded(r, maxChecks))
    requires match expected
             case None => r.Waiting?
             case Some(before) => Follows(before, r)
    requires w.checks <= r.attempts && (r.Settled? ==> r.receipt in w.seen)
    requires PhaseHolds(Stored(w, r).(phase := next), maxChecks)
    ensures Invariant(Onward(w, expected, r, applied, next), maxChecks)
  {
    if applied && w.record == expected {
      StoringKeepsHistory(w, r, maxChecks);
    }
  }

  /** The clock of a prepared record moves inside an install call, noticed or not. */
  lemma AdvanceKeeps(w: World, now: Time, applied: bool, noticed: bool, maxChecks: nat)
    requires Invariant(w, maxChecks)
    ensures Invariant(Next(w, Advance(now, applied, noticed), maxChecks), maxChecks)
  {
    if w.phase.Installing? && now > w.phase.state.lastObservedAt && applied && w.record == Some(w.phase.state) {
      StoringKeepsHistory(w, Prepared(w.phase.state.attempts, w.phase.state.createdAt, now, w.phase.state.receipt),
        maxChecks);
    }
  }

  lemma AttemptKeeps(w: World, step: Step, maxChecks: nat)
    requires maxChecks >= 1 && Invariant(w, maxChecks) && (step.ReadRecord? || step.Attempt?)
    ensures Invariant(Next(w, step, maxChecks), maxChecks)
  {
    match step
    case ReadRecord(now, applied) =>
      if w.phase.Entered? && w.record.None? && w.phase.found == [] {
        PublishingKeeps(w, None, Waiting(0, now, now), applied, Looping(Waiting(0, now, now)), maxChecks);
      }
    case Attempt(now, applied) =>
      if w.phase.Looping? && now >= w.phase.state.lastObservedAt {
        var r := Waiting(w.phase.state.attempts + 1, w.phase.state.createdAt, now);
        PublishingKeeps(w, Some(w.phase.state), r, applied, Attempted(r, false), maxChecks);
      }
    case _ =>
  }

  lemma CheckedKeeps(w: World, step: Step, maxChecks: nat)
    requires Invariant(w, maxChecks) && (step.Decline? || step.Prepare?)
    ensures Invariant(Next(w, step, maxChecks), maxChecks)
  {
    if w.phase.Attempted? && w.phase.checked && step.now >= w.phase.state.lastObservedAt {
      var state := w.phase.state;
      match step
      case Decline(now, applied) =>
        var r := Waiting(state.attempts, state.createdAt, now);
        PublishingKeeps(w, Some(state), r, applied, if r.attempts >= maxChecks then Down else Looping(r), maxChecks);
      case Prepare(receipt, now, applied) =>
        var r := Prepared(state.attempts, state.createdAt, now, receipt);
        PublishingKeeps(w, Some(state), r, applied, Ready(r), maxChecks);
      case _ =>
    }
  }

  lemma SettleKeeps(w: World, applied: bool, maxChecks: nat)
    requires Invariant(w, maxChecks)
    ensures Invariant(Next(w, Settle(applied), maxChecks), maxChecks)
  {
    if w.phase.Settling? {
      var p := w.phase.state;
      PublishingKeeps(w, Some(p), Settled(p.attempts, p.createdAt, p.lastObservedAt, p.receipt), applied, Down,
        maxChecks);
    }
  }

  /** The steps that leave the durable record alone. */
  predicate Reads(step: Step) {
    || step.Crash? || step.Foreign? || step.Enter? || step.Check? || step.Confirm? || step.Commit? || step.Return?
  }

  lemma ReadingKeeps(w: World, step: Step, maxChecks: nat)
    requires Invariant(w, maxChecks) && Reads(step)
    ensures Invariant(Next(w, step, maxChecks), maxChecks)
  {
  }

  /** Each step keeps the invariant. */
  lemma StepKeeps(w: World, step: Step, maxChecks: nat)
    requires maxChecks >= 1 && Invariant(w, maxChecks)
    ensures Invariant(Next(w, step, maxChecks), maxChecks)
  {
    match step
    case ReadRecord(_, _) => AttemptKeeps(w, step, maxChecks);
    case Attempt(_, _) => AttemptKeeps(w, step, maxChecks);
    case Decline(_, _) => CheckedKeeps(w, step, maxChecks);
    case Prepare(_, _, _) => CheckedKeeps(w, step, maxChecks);
    case Advance(now, applied, noticed) => AdvanceKeeps(w, now, applied, noticed, maxChecks);
    case Settle(applied) => SettleKeeps(w, applied, maxChecks);
    case _ => ReadingKeeps(w, step, maxChecks);
  }

  /** The invariant holds after any steps, crashes and restarts included. */
  lemma {:induction false} RunKeepsInvariant(steps: seq<Step>, maxChecks: nat)
    requires maxChecks >= 1
    ensures Invariant(Ran(steps, maxChecks), maxChecks)
  {
    if |steps| > 0 {
      RunKeepsInvariant(steps[..|steps| - 1], maxChecks);
      StepKeeps(Ran(steps[..|steps| - 1], maxChecks), steps[|steps| - 1], maxChecks);
    }
  }

  // ---------------------------------------------------------------------
  // Crash-safe activation
  // ---------------------------------------------------------------------

  /** Every install call, in every run, is made while a durable prepared record holds
      exactly its package's receipt. */
  lemma InstallsArePrepared(steps: seq<Step>, maxChecks: nat, i: nat)
    requires maxChecks >= 1 && i < |Ran(steps, maxChecks).calls|
    ensures var call := Ran(steps, maxChecks).calls[i];
            call.record.Some? && call.record.value.Prepared? && call.record.value.receipt == call.receipt
  {
    RunKeepsInvariant(steps, maxChecks);
  }

  /** A settled record's package was installed. */
  lemma SettledWasInstalled(steps: seq<Step>, maxChecks: nat)
    requires maxChecks >= 1 && Ran(steps, maxChecks).record.Some? && Ran(steps, maxChecks).record.value.Settled?
    ensures Ran(steps, maxChecks).record.value.receipt in Ran(steps, maxChecks).seen
  {
    RunKeepsInvariant(steps, maxChecks);
  }

  /** Of any two durable records the later one is no earlier in status, has made no fewer
      attempts, was observed no earlier, and keeps a receipt once there is one. */
  predicate Progresses(before: Record, after: Record) {
    && after.createdAt == before.createdAt && before.attempts <= after.attempts
      && before.lastObservedAt <= after.lastObservedAt
    && (HasReceipt(before) ==>
      HasReceipt(after) && after.receipt == before.receipt && after.attempts == before.attempts)
    && (before.Settled? ==> after == before)
  }

  lemma {:induction false} HistoryProgresses(w: World, maxChecks: nat, i: nat, j: nat)
    requires HistoryHolds(w, maxChecks) && i <= j < |w.records|
    ensures Progresses(w.records[i], w.records[j])
    decreases j - i
  {
    if i < j {
      HistoryProgresses(w, maxChecks, i, j - 1);
      assert Follows(w.records[j - 1], w.records[j]);
    }
  }

  lemma RecordsProgress(steps: seq<Step>, maxChecks: nat, i: nat, j: nat)
    requires maxChecks >= 1 && i <= j < |Ran(steps, maxChecks).records|
    ensures Progresses(Ran(steps, maxChecks).records[i], Ran(steps, maxChecks).records[j])
  {
    RunKeepsInvariant(steps, maxChecks);
    HistoryProgresses(Ran(steps, maxChecks), maxChecks, i, j);
  }

  /** Checks never outnumber durable attempts, attempts never exceed the maximum, and
      the last observed clock never falls below the creation time. */
  lemma ChecksAreBounded(steps: seq<Step>, maxChecks: nat)
    requires maxChecks >= 1
    ensures var w := Ran(steps, maxChecks);
            match w.record
            case None => w.checks == 0
            case Some(r) => w.checks <= r.attempts <= maxChecks && r.createdAt <= r.lastObservedAt
  {
    RunKeepsInvariant(steps, maxChecks);
  }
}
