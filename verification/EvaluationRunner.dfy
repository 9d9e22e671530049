/** The evaluation runner: trials in schedule order, a write-ahead attempt before each
    adapter run, and a ledger whose records are chained by digest. */
module EvaluationRunner {
  import opened Standard

  type Id = nat
  type Time = nat

  datatype Trial = Trial(position: nat, trialId: Id, taskId: Id, profileId: Id, seed: nat, repetition: nat)

  datatype Plan = Plan(digest: Id, schedule: seq<Trial>)

  datatype Outcome = Completed | Crashed | Cancelled | Malformed

  /** A record names its predecessor by digest.  The hash is taken to be injective, so a
      digest is represented by the record it was computed from. */
  datatype Digest = DigestOf(record: Record)

  datatype Record = Record(
    planDigest: Id,
    trial: Trial,
    previous: Option<Digest>,
    startedAt: Time,
    completedAt: Time,
    outcome: Outcome)

  datatype Attempt = Attempt(planDigest: Id, trial: Trial, startedAt: Time)

  function LastDigest(records: seq<Record>): Option<Digest> {
    if |records| == 0 then None else Some(DigestOf(records[|records| - 1]))
  }

  // ---------------------------------------------------------------------
  // The committed prefix
  // ---------------------------------------------------------------------

  /** The records are the schedule's first trials, each naming the record before it. */
  predicate ValidPrefix(plan: Plan, records: seq<Record>) {
    && |records| <= |plan.schedule|
    && forall i | 0 <= i < |records| ::
        && records[i].planDigest == plan.digest && records[i].trial == plan.schedule[i]
        && records[i].previous == LastDigest(records[..i])
  }

  /** The source's check of a committed prefix. */
  method ValidateRunnerPrefix(plan: Plan, records: seq<Record>) returns (ok: bool)
    ensures ok == ValidPrefix(plan, records)
  {
    if |records| > |plan.schedule| {
      return false;
    }
    var previous: Option<Digest> := None;
    for i := 0 to |records|
      invariant ValidPrefix(plan, records[..i]) && previous == LastDigest(records[..i])
    {
      var record := records[i];
      assert records[..i + 1][..i] == records[..i];
      if record.planDigest != plan.digest || record.trial != plan.schedule[i] || record.previous != previous {
        return false;
      }
      previous := Some(DigestOf(record));
      assert forall j | 0 <= j < i :: records[..i + 1][..j] == records[..i][..j];
    }
    assert records[..|records|] == records;
    ok := true;
  }

  lemma PrefixShorter(plan: Plan, records: seq<Record>)
    requires ValidPrefix(plan, records) && |records| > 0
    ensures ValidPrefix(plan, records[..|records| - 1])
  {
    var before := records[..|records| - 1];
    assert forall i | 0 <= i < |before| :: before[..i] == records[..i];
  }

  /** One digest determines the whole ledger before it: two valid prefixes that end in
      the same digest are the same. */
  lemma {:induction false} ChainDeterminesLedger(plan: Plan, a: seq<Record>, b: seq<Record>)
    requires ValidPrefix(plan, a) && ValidPrefix(plan, b) && LastDigest(a) == LastDigest(b)
    ensures a == b
  {
    if |a| > 0 {
      var i, j := |a| - 1, |b| - 1;
      assert a[i] == b[j];
      assert LastDigest(a[..i]) == a[i].previous == LastDigest(b[..j]);
      PrefixShorter(plan, a);
      PrefixShorter(plan, b);
      ChainDeterminesLedger(plan, a[..i], b[..j]);
      assert a == a[..i] + [a[i]] && b == b[..j] + [b[j]];
    }
  }

  lemma AppendExtends(plan: Plan, records: seq<Record>, r: Record)
    requires ValidPrefix(plan, records) && |records| < |plan.schedule|
    requires r.planDigest == plan.digest && r.trial == plan.schedule[|records|] && r.previous == LastDigest(records)
    ensures ValidPrefix(plan, records + [r])
  {
    assert forall i | 0 <= i < |records| :: (records + [r])[..i] == records[..i];
    assert (records + [r])[..|records|] == records;
  }

  // ---------------------------------------------------------------------
  // The runner, with a crash possible between any two effects
  // ---------------------------------------------------------------------

  datatype Phase =
    | Down
    | Looping                                   // about to take the next scheduled trial
    | Begun                                     // the attempt is durable; the adapter is about to run
    | Finished(attempted: bool)                 // the outcome is known; an attempt was named, though perhaps not begun
    | Completing                                // the record is durable; the attempt is to be cleared

  datatype World = World(records: seq<Record>, active: Option<Attempt>, phase: Phase, runs: seq<nat>)

  /** Each write may fail before or after it took effect; the process goes on only when
      it was acknowledged. */
  datatype Write = Lost | Unacknowledged | Acknowledged

  datatype Step =
    | Crash
    | Start                                     // a process reads the store
    | Recover(completedAt: Time, write: Write)  // it records an interrupted attempt as crashed
    | Begin(startedAt: Time, write: Write)
    | FailEarly(attempted: bool)                // the trial fails before its attempt begins, named or not
    | Run                                       // the adapter runs
    | Abort                                     // the trial is cancelled before the adapter runs
    | Append(startedAt: Time, completedAt: Time, outcome: Outcome, write: Write)
    | Complete(write: Write)

  function Fresh(plan: Plan): World {
    World([], None, Down, seq(|plan.schedule|, i => 0))
  }

  /** The active attempt as a store reports it: none once its record is committed. */
  function Reported(w: World): Option<Attempt> {
    if w.active.Some? && w.active.value.trial.position >= |w.records| then w.active else None
  }

  predicate Reconciles(plan: Plan, records: seq<Record>, attempt: Attempt) {
    |records| < |plan.schedule| && attempt.planDigest == plan.digest && attempt.trial == plan.schedule[|records|]
  }

  function RecordFor(plan: Plan, w: World, startedAt: Time, completedAt: Time, outcome: Outcome): Record
    requires |w.records| < |plan.schedule|
  {
    Record(plan.digest, plan.schedule[|w.records|], LastDigest(w.records), startedAt, completedAt, outcome)
  }

  /** A trial began when its attempt says; one that failed before that, at the given time. */
  function StartOf(w: World, startedAt: Time): Time {
    if AttemptDue(w) then w.active.value.startedAt else startedAt
  }

  function Appended(w: World, r: Record, write: Write, next: Phase): World {
    var records := if write.Lost? then w.records else w.records + [r];
    w.(records := records, phase := if write.Acknowledged? then next else Down)
  }

  /** One step; a step that does not apply where the process is changes nothing. */
  function Next(plan: Plan, w: World, step: Step): World {
    match step
    case Crash => w.(phase := Down)
    case Start =>
      if !w.phase.Down? || !ValidPrefix(plan, w.records) || Reported(w).Some? then w else w.(phase := Looping)
    case Recover(completedAt, write) =>
      if !w.phase.Down? || !ValidPrefix(plan, w.records) || Reported(w).None? then w
      else if !Reconciles(plan, w.records, Reported(w).value) then w
      else Appended(w, RecordFor(plan, w, Reported(w).value.startedAt, completedAt, Crashed), write, Completing)
    case Begin(startedAt, write) =>
      if !w.phase.Looping? || |w.records| >= |plan.schedule| then w
      else
        var attempt := Attempt(plan.digest, plan.schedule[|w.records|], startedAt);
        w.(active := if write.Lost? then w.active else Some(attempt), phase := if write.Acknowledged? then Begun
          else Down)
    case FailEarly(attempted) =>
      if !w.phase.Looping? || |w.records| >= |plan.schedule| then w else w.(phase := Finished(attempted))
    case Run =>
      if !w.phase.Begun? || |w.records| >= |w.runs| then w
      else w.(phase := Finished(true), runs := w.runs[|w.records| := w.runs[|w.records|] + 1])
    case Abort => if w.phase.Begun? then w.(phase := Finished(true)) else w
    case Append(startedAt, completedAt, outcome, write) =>
      if !w.phase.Finished? || |w.records| >= |plan.schedule| then w
      else Appended(w, RecordFor(plan, w, StartOf(w, startedAt), completedAt, outcome), write,
                    if w.phase.attempted then Completing else Looping)
    case Complete(write) =>
      if !w.phase.Completing? then w
      else w.(active := if write.Lost? then w.active else None, phase := if write.Acknowledged? then Looping else Down)
  }

  function Ran(plan: Plan, steps: seq<Step>): World {
    if |steps| == 0 then Fresh(plan) else Next(plan, Ran(plan, steps[..|steps| - 1]), steps[|steps| - 1])
  }

  /** Positions number the schedule. */
  predicate Numbered(plan: Plan) {
    forall i | 0 <= i < |plan.schedule| :: plan.schedule[i].position == i
  }

  /** A trial that ran left a record, or its attempt is still durable and due. */
  predicate Invariant(plan: Plan, w: World) {
    && ValidPrefix(plan, w.records) && |w.runs| == |plan.schedule|
    && (w.active.Some? ==>
          && w.active.value.planDigest == plan.digest && w.active.value.trial.position <= |w.records|
          && w.active.value.trial.position < |plan.schedule|
          && w.active.value.trial == plan.schedule[w.active.value.trial.position])
    && (forall i | 0 <= i < |w.runs| :: w.runs[i] <= 1)
    && (forall i | 0 <= i < |w.runs| && w.runs[i] > 0 :: i < |w.records| || (i == |w.records| && AttemptDue(w)))
    && (w.phase.Looping? ==> !AttemptDue(w))
    && (w.phase.Begun? ==> AttemptDue(w) && |w.records| < |plan.schedule| && w.runs[|w.records|] == 0)
    && (w.phase.Finished? ==> |w.records| < |plan.schedule| && (AttemptDue(w) ==> w.phase.attempted))
    && (w.phase.Completing? ==> !AttemptDue(w))
  }

  predicate AttemptDue(w: World) {
    w.active.Some? && w.active.value.trial.position == |w.records|
  }

  lemma AppendingKeeps(plan: Plan, w: World, r: Record, write: Write, next: Phase)
    requires Invariant(plan, w) && |w.records| < |plan.schedule|
    requires r.planDigest == plan.digest && r.trial == plan.schedule[|w.records|] && r.previous == LastDigest(w.records)
    requires next.Completing? || next.Looping?
    ensures Invariant(plan, Appended(w, r, write, next))
  {
    AppendExtends(plan, w.records, r);
  }

  predicate Appends(step: Step) {
    step.Recover? || step.Append?
  }

  lemma OtherStepKeeps(plan: Plan, w: World, step: Step)
    requires Numbered(plan) && Invariant(plan, w) && !Appends(step)
    ensures Invariant(plan, Next(plan, w, step))
  {
  }

  lemma StepKeeps(plan: Plan, w: World, step: Step)
    requires Numbered(plan) && Invariant(plan, w)
    ensures Invariant(plan, Next(plan, w, step))
  {
    match step
    case Recover(completedAt, write) =>
      if w.phase.Down? && Reported(w).Some? && Reconciles(plan, w.records, Reported(w).value) {
        AppendingKeeps(plan, w, RecordFor(plan, w, Reported(w).value.startedAt, completedAt, Crashed), write,
          Completing);
      }
    case Append(startedAt, completedAt, outcome, write) =>
      if w.phase.Finished? && |w.records| < |plan.schedule| {
        AppendingKeeps(plan, w, RecordFor(plan, w, StartOf(w, startedAt), completedAt, outcome), write,
                       if w.phase.attempted then Completing else Looping);
      }
    case _ => OtherStepKeeps(plan, w, step);
  }

  lemma {:induction false} RunKeepsInvariant(plan: Plan, steps: seq<Step>)
    requires Numbered(plan)
    ensures Invariant(plan, Ran(plan, steps))
  {
    if |steps| > 0 {
      RunKeepsInvariant(plan, steps[..|steps| - 1]);
      StepKeeps(plan, Ran(plan, steps[..|steps| - 1]), steps[|steps| - 1]);
    }
  }

  /** Across any crashes and restarts, each scheduled trial's adapter runs at most once,
      and the committed records are a schedule prefix whose digests form one chain. */
  lemma TrialsRunAtMostOnce(plan: Plan, steps: seq<Step>, i: nat)
    requires Numbered(plan) && i < |plan.schedule|
    ensures |Ran(plan, steps).runs| == |plan.schedule| && Ran(plan, steps).runs[i] <= 1
    ensures ValidPrefix(plan, Ran(plan, steps).records)
  {
    RunKeepsInvariant(plan, steps);
  }

  /** Committed records are never rewritten: an earlier ledger is a prefix of every later one. */
  lemma {:induction false} RecordsOnlyGrow(plan: Plan, steps: seq<Step>, n: nat)
    requires n <= |steps|
    ensures Ran(plan, steps[..n]).records <= Ran(plan, steps).records
  {
    if n == |steps| {
      assert steps[..n] == steps;
    } else {
      assert steps[..|steps| - 1][..n] == steps[..n];
      RecordsOnlyGrow(plan, steps[..|steps| - 1], n);
    }
  }
}
