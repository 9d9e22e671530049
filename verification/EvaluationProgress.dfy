/** What evaluation records say, where each comes from, and that an undisturbed runner
    finishes the schedule from every world a run can reach. */
module EvaluationProgress {
  import opened Standard
  import opened EvaluationRunner

  // ---------------------------------------------------------------------
  // Records
  // ---------------------------------------------------------------------

  /** The record that a step may add: a recovered attempt is recorded as crashed, a finished
      one as the step says, and either from the time its attempt began, if it did. */
  predicate Adds(w: World, step: Step, r: Record) {
    match step
    case Recover(completedAt, _) =>
      && w.active.Some? && r.trial == w.active.value.trial && r.startedAt == w.active.value.startedAt
      && r.completedAt == completedAt && r.outcome.Crashed?
    case Append(startedAt, completedAt, outcome, _) =>
      && r.completedAt == completedAt && r.outcome == outcome
      && r.startedAt == if w.active.Some?
        && w.active.value.trial == r.trial then w.active.value.startedAt else startedAt
    case _ => false
  }

  lemma RecordAdded(plan: Plan, w: World, step: Step)
    requires Numbered(plan) && Invariant(plan, w)
    ensures var after := Next(plan, w, step).records;
            || after == w.records
            || (|after| == |w.records| + 1 && after[..|w.records|] == w.records && |w.records| < |plan.schedule|
                && Adds(w, step, after[|w.records|]) && after[|w.records|].trial == plan.schedule[|w.records|])
  {
  }

  /** Every committed record of every run was added by one of its steps, and says what
      that step was given. */
  lemma {:induction false} EveryRecordHasItsStep(plan: Plan, steps: seq<Step>, i: nat) returns (k: nat)
    requires Numbered(plan) && i < |Ran(plan, steps).records|
    ensures k < |steps| && |Ran(plan, steps[..k]).records| == i
    ensures Adds(Ran(plan, steps[..k]), steps[k], Ran(plan, steps).records[i])
  {
    var last := |steps| - 1;
    var before := Ran(plan, steps[..last]);
    RunKeepsInvariant(plan, steps[..last]);
    RecordAdded(plan, before, steps[last]);
    if i < |before.records| {
      k := EveryRecordHasItsStep(plan, steps[..last], i);
      assert steps[..last][..k] == steps[..k];
      assert Ran(plan, steps).records[i] == before.records[i];
    } else {
      k := last;
    }
  }

  // ---------------------------------------------------------------------
  // Some more steps
  // ---------------------------------------------------------------------

  function After(plan: Plan, w: World, steps: seq<Step>): World
    decreases |steps|
  {
    if |steps| == 0 then w else After(plan, Next(plan, w, steps[0]), steps[1..])
  }

  lemma {:induction false} AfterLast(plan: Plan, w: World, steps: seq<Step>, last: Step)
    ensures After(plan, w, steps + [last]) == Next(plan, After(plan, w, steps), last)
    decreases |steps|
  {
    if |steps| == 0 {
      assert ([] + [last])[1..] == [];
    } else {
      assert (steps + [last])[1..] == steps[1..] + [last];
      AfterLast(plan, Next(plan, w, steps[0]), steps[1..], last);
    }
  }

  lemma {:induction false} RanOn(plan: Plan, steps: seq<Step>, more: seq<Step>)
    ensures Ran(plan, steps + more) == After(plan, Ran(plan, steps), more)
    decreases |more|
  {
    if |more| == 0 {
      assert steps + more == steps;
    } else {
      var k := |more| - 1;
      assert (steps + more)[..|steps + more| - 1] == steps + more[..k];
      RanOn(plan, steps, more[..k]);
      AfterLast(plan, Ran(plan, steps), more[..k], more[k]);
      assert more[..k] + [more[k]] == more;
    }
  }

  lemma Front(plan: Plan, w: World, step: Step, rest: seq<Step>)
    ensures After(plan, w, [step] + rest) == After(plan, Next(plan, w, step), rest)
  {
    assert ([step] + rest)[1..] == rest;
  }

  // ---------------------------------------------------------------------
  // Trials
  // ---------------------------------------------------------------------

  /** How a trial ends: its adapter ran, it was cancelled before that, or it failed
      before its attempt began. */
  datatype Way = Runs | Aborts | FailsEarly(attempted: bool)

  datatype Course = Course(way: Way, startedAt: Time, completedAt: Time, outcome: Outcome)

  function Trying(course: Course): seq<Step> {
    var begin, complete := Begin(course.startedAt, Acknowledged), Complete(Acknowledged);
    var append := Append(course.startedAt, course.completedAt, course.outcome, Acknowledged);
    match course.way
    case Runs => [begin, Run, append, complete]
    case Aborts => [begin, Abort, append, complete]
    case FailsEarly(attempted) => [FailEarly(attempted), append] + if attempted then [complete] else []
  }

  /** The record of the next trial. */
  function NextRecord(plan: Plan, w: World, course: Course): Record
    requires |w.records| < |plan.schedule|
  {
    Record(plan.digest, plan.schedule[|w.records|], LastDigest(w.records), course.startedAt, course.completedAt,
           course.outcome)
  }

  lemma {:induction false} AfterInTwo(plan: Plan, w: World, steps: seq<Step>, rest: seq<Step>)
    ensures After(plan, w, steps + rest) == After(plan, After(plan, w, steps), rest)
    decreases |steps|
  {
    if |steps| == 0 {
      assert steps + rest == rest;
    } else {
      assert (steps + rest)[1..] == steps[1..] + rest;
      AfterInTwo(plan, Next(plan, w, steps[0]), steps[1..], rest);
    }
  }

  lemma TwoSteps(plan: Plan, w: World, a: Step, b: Step)
    ensures After(plan, w, [a, b]) == Next(plan, Next(plan, w, a), b)
  {
    Front(plan, w, a, [b]);
    Front(plan, Next(plan, w, a), b, []);
    assert [a] + [b] == [a, b] && [b] + [] == [b];
  }

  /** Up to where the trial's outcome is known. */
  lemma OutcomeComes(plan: Plan, w: World, course: Course)
    requires Numbered(plan) && Invariant(plan, w) && w.phase.Looping? && |w.records| < |plan.schedule|
    requires !course.way.FailsEarly?
    ensures var step := if course.way.Runs? then Run else Abort;
            var w' := After(plan, w, [Begin(course.startedAt, Acknowledged), step]);
            && w'.phase == Finished(true) && w'.records == w.records
              && StartOf(w', course.startedAt) == course.startedAt
            && w'.runs == if course.way.Runs? then w.runs[|w.records| := w.runs[|w.records|] + 1] else w.runs
  {
    TwoSteps(plan, w, Begin(course.startedAt, Acknowledged), if course.way.Runs? then Run else Abort);
  }

  /** From there to the next trial. */
  lemma OutcomeRecorded(plan: Plan, w: World, course: Course)
    requires w.phase == Finished(true) && |w.records| < |plan.schedule|
    requires StartOf(w, course.startedAt) == course.startedAt
    ensures var append := Append(course.startedAt, course.completedAt, course.outcome, Acknowledged);
            After(plan, w, [append, Complete(Acknowledged)]) ==
            w.(records := w.records + [NextRecord(plan, w, course)], active := None, phase := Looping)
  {
    TwoSteps(plan, w, Append(course.startedAt, course.completedAt, course.outcome, Acknowledged),
             Complete(Acknowledged));
  }

  lemma TrialRuns(plan: Plan, w: World, course: Course)
    requires Numbered(plan) && Invariant(plan, w) && w.phase.Looping? && |w.records| < |plan.schedule|
    ensures var w' := After(plan, w, Trying(course));
            && w'.records == w.records + [NextRecord(plan, w, course)] && w'.phase.Looping?
            && w'.runs == if course.way.Runs? then w.runs[|w.records| := w.runs[|w.records|] + 1] else w.runs
  {
    var append := Append(course.startedAt, course.completedAt, course.outcome, Acknowledged);
    match course.way
    case FailsEarly(attempted) =>
      var failed := Next(plan, w, FailEarly(attempted));
      if attempted {
        assert Trying(course) == [FailEarly(true)] + [append, Complete(Acknowledged)];
        Front(plan, w, FailEarly(true), [append, Complete(Acknowledged)]);
        OutcomeRecorded(plan, failed, course);
      } else {
        assert Trying(course) == [FailEarly(false), append];
        TwoSteps(plan, w, FailEarly(false), append);
      }
    case _ =>
      var opening := [Begin(course.startedAt, Acknowledged), if course.way.Runs? then Run else Abort];
      assert Trying(course) == opening + [append, Complete(Acknowledged)];
      AfterInTwo(plan, w, opening, [append, Complete(Acknowledged)]);
      OutcomeComes(plan, w, course);
      OutcomeRecorded(plan, After(plan, w, opening), course);
  }

  lemma {:induction false} AfterKeeps(plan: Plan, w: World, steps: seq<Step>)
    requires Numbered(plan) && Invariant(plan, w)
    ensures Invariant(plan, After(plan, w, steps))
    decreases |steps|
  {
    if |steps| > 0 {
      StepKeeps(plan, w, steps[0]);
      AfterKeeps(plan, Next(plan, w, steps[0]), steps[1..]);
    }
  }

  function TryingAll(courses: seq<Course>): seq<Step> {
    if |courses| == 0 then [] else Trying(courses[0]) + TryingAll(courses[1..])
  }

  /** The records say, trial by trial, how these courses went. */
  predicate Records(records: seq<Record>, from: nat, courses: seq<Course>) {
    && |records| == from + |courses|
    && forall i | 0 <= i < |courses| ::
         && records[from + i].startedAt == courses[i].startedAt
           && records[from + i].completedAt == courses[i].completedAt
         && records[from + i].outcome == courses[i].outcome
  }

  /** How often the adapter runs for this one of the trials: once if it runs at all. */
  function Times(courses: seq<Course>, i: int): nat {
    if 0 <= i < |courses| && courses[i].way.Runs? then 1 else 0
  }

  /** The trials that these courses describe have been recorded, and run as often as they say. */
  predicate Tried(w: World, courses: seq<Course>, w': World) {
    && w.records <= w'.records && Records(w'.records, |w.records|, courses)
    && |w'.runs| == |w.runs|
    && forall i | 0 <= i < |w.runs| :: w'.runs[i] == w.runs[i] + Times(courses, i - |w.records|)
  }

  lemma TriedInTurn(w: World, w1: World, w2: World, courses: seq<Course>, r: Record)
    requires |courses| > 0 && w1.records == w.records + [r] && Tried(w1, courses[1..], w2)
    requires r.startedAt == courses[0].startedAt && r.completedAt == courses[0].completedAt
    requires r.outcome == courses[0].outcome
    requires |w1.runs| == |w.runs|
    requires forall i | 0 <= i < |w.runs| ::
               w1.runs[i] == w.runs[i] + if i == |w.records| && courses[0].way.Runs? then 1 else 0
    ensures Tried(w, courses, w2)
  {
    assert w2.records[|w.records|] == w1.records[|w.records|] == r;
    assert forall i | 1 <= i < |courses| :: courses[i] == courses[1..][i - 1];
  }

  lemma {:induction false} TrialsRun(plan: Plan, w: World, courses: seq<Course>)
    requires Numbered(plan) && Invariant(plan, w) && w.phase.Looping? && |w.records| + |courses| <= |plan.schedule|
    ensures Tried(w, courses, After(plan, w, TryingAll(courses)))
    ensures After(plan, w, TryingAll(courses)).phase.Looping?
    decreases |courses|
  {
    if |courses| > 0 {
      var w1 := After(plan, w, Trying(courses[0]));
      AfterInTwo(plan, w, Trying(courses[0]), TryingAll(courses[1..]));
      TrialRuns(plan, w, courses[0]);
      AfterKeeps(plan, w, Trying(courses[0]));
      TrialsRun(plan, w1, courses[1..]);
      TriedInTurn(w, w1, After(plan, w1, TryingAll(courses[1..])), courses, NextRecord(plan, w, courses[0]));
    }
  }

  /** A runner that finds an interrupted attempt first records it as crashed. */
  function Opening(w: World, now: Time): seq<Step> {
    if Reported(w).Some? then [Recover(now, Acknowledged), Complete(Acknowledged)] else [Start]
  }

  lemma Opens(plan: Plan, w: World, now: Time)
    requires Numbered(plan) && Invariant(plan, w) && w.phase.Down?
    ensures Reported(w).Some? ==> |w.records| < |plan.schedule|
    ensures var w' := After(plan, w, Opening(w, now));
            && w'.phase.Looping? && w'.runs == w.runs
            && w'.records == w.records +
                 if Reported(w).Some? then [CrashRecord(plan, w, Reported(w).value, now)] else []
  {
    if Reported(w).Some? {
      TwoSteps(plan, w, Recover(now, Acknowledged), Complete(Acknowledged));
    } else {
      Front(plan, w, Start, []);
      assert [Start] + [] == [Start];
    }
  }

  /** The record of an interrupted attempt. */
  function CrashRecord(plan: Plan, w: World, attempt: Attempt, now: Time): Record {
    Record(plan.digest, attempt.trial, LastDigest(w.records), attempt.startedAt, now, Crashed)
  }

  /** How the world stands once the schedule is finished. */
  predicate FinishedFrom(plan: Plan, w: World, now: Time, courses: seq<Course>, w': World)
    requires |w'.runs| == |w.runs|
  {
    var done := |w.records| + if Reported(w).Some? then 1 else 0;
    && w.records <= w'.records && |w'.records| == |plan.schedule| && Records(w'.records, done, courses)
    && (Reported(w).Some? ==> w'.records[|w.records|] == CrashRecord(plan, w, Reported(w).value, now))
    && forall i | 0 <= i < |w.runs| :: w'.runs[i] == w.runs[i] + Times(courses, i - done)
  }

  /** From every stopped world a run can reach, an undisturbed runner finishes the
      schedule: an interrupted attempt is recorded as crashed, from its own start, without
      running again, and every remaining trial runs at most once and is recorded as it went. */
  lemma UndisturbedRunFinishes(plan: Plan, steps: seq<Step>, now: Time, courses: seq<Course>)
    requires Numbered(plan) && Ran(plan, steps).phase.Down?
    requires var w := Ran(plan, steps);
             |w.records| + (if Reported(w).Some? then 1 else 0) + |courses| == |plan.schedule|
    ensures var w := Ran(plan, steps);
            var w' := Ran(plan, steps + (Opening(w, now) + TryingAll(courses)));
            |w'.runs| == |w.runs| && FinishedFrom(plan, w, now, courses, w')
  {
    var w := Ran(plan, steps);
    RunKeepsInvariant(plan, steps);
    RanOn(plan, steps, Opening(w, now) + TryingAll(courses));
    AfterInTwo(plan, w, Opening(w, now), TryingAll(courses));
    OpenedThenTried(plan, w, now, courses);
  }

  lemma OpenedThenTried(plan: Plan, w: World, now: Time, courses: seq<Course>)
    requires Numbered(plan) && Invariant(plan, w) && w.phase.Down?
    requires |w.records| + (if Reported(w).Some? then 1 else 0) + |courses| == |plan.schedule|
    ensures var w' := After(plan, After(plan, w, Opening(w, now)), TryingAll(courses));
            |w'.runs| == |w.runs| && FinishedFrom(plan, w, now, courses, w')
  {
    var w1 := After(plan, w, Opening(w, now));
    Opens(plan, w, now);
    AfterKeeps(plan, w, Opening(w, now));
    TrialsRun(plan, w1, courses);
    FinishedAfter(plan, w, now, courses, w1, After(plan, w1, TryingAll(courses)));
  }

  lemma FinishedAfter(plan: Plan, w: World, now: Time, courses: seq<Course>, w1: World, w2: World)
    requires w1.runs == w.runs && Tried(w1, courses, w2)
    requires w1.records ==
             w.records + if Reported(w).Some? then [CrashRecord(plan, w, Reported(w).value, now)] else []
    requires |w1.records| + |courses| == |plan.schedule|
    ensures |w2.runs| == |w.runs| && FinishedFrom(plan, w, now, courses, w2)
  {
    if Reported(w).Some? {
      assert w2.records[|w.records|] == w1.records[|w.records|];
    }
    assert w.records <= w1.records;
  }
}
