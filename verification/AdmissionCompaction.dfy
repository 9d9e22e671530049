/** Compaction: a snapshot of the state may stand in for the ledger that led to it. */
module AdmissionCompaction {
  import opened Standard
  import opened Admission
  import opened AdmissionSafety

  /** A snapshot lists every job once, in whatever order the host sorts them. */
  predicate ListsJobs(listed: seq<Job>, jobs: map<Id, Job>) {
    && (forall i | 0 <= i < |listed| :: listed[i].identity.jobId in jobs && jobs[listed[i].identity.jobId] == listed[i])
    && (forall i, j | 0 <= i < j < |listed| :: listed[i].identity.jobId != listed[j].identity.jobId)
    && (forall id | id in jobs :: exists i :: 0 <= i < |listed| && listed[i].identity.jobId == id)
  }

  predicate ListsRejections(listed: seq<Rejection>, rejections: map<Id, Rejection>) {
    && (forall i | 0 <= i < |listed| :: listed[i].jobId in rejections && rejections[listed[i].jobId] == listed[i])
    && (forall i, j | 0 <= i < j < |listed| :: listed[i].jobId != listed[j].jobId)
    && (forall id | id in rejections :: exists i :: 0 <= i < |listed| && listed[i].jobId == id)
  }

  function SnapshotOf(s: State, jobs: seq<Job>, rejections: seq<Rejection>): Root {
    Snapshot(s.lastSequence, s.policy, s.limits, s.lastPlace, jobs, rejections)
  }

  predicate ShortFailures(s: State) {
    forall id | id in s.jobs && s.jobs[id].stage.Uncertain? :: |s.jobs[id].stage.failure| <= MAX_REASON
  }

  // ---------------------------------------------------------------------
  // A snapshot restores its state
  // ---------------------------------------------------------------------

  lemma {:induction false} ListingById(listed: seq<Job>)
    requires forall i, j | 0 <= i < j < |listed| :: listed[i].identity.jobId != listed[j].identity.jobId
    ensures JobsById(listed).Some?
    ensures var byId := JobsById(listed).value;
            && (forall i | 0 <= i < |listed| ::
              listed[i].identity.jobId in byId && byId[listed[i].identity.jobId] == listed[i])
            && (forall id | id in byId :: exists i :: 0 <= i < |listed| && listed[i].identity.jobId == id)
  {
    if |listed| > 0 {
      var before := listed[..|listed| - 1];
      ListingById(before);
      var byId, last := JobsById(before).value, listed[|listed| - 1].identity.jobId;
      assert last !in byId;
      forall id | id in byId
        ensures exists i :: 0 <= i < |listed| && listed[i].identity.jobId == id
      {
        var i :| 0 <= i < |before| && before[i].identity.jobId == id;
        assert listed[i].identity.jobId == id;
      }
    }
  }

  lemma {:induction false} RejectionListingById(listed: seq<Rejection>, jobs: map<Id, Job>)
    requires forall i, j | 0 <= i < j < |listed| :: listed[i].jobId != listed[j].jobId
    requires forall i | 0 <= i < |listed| :: listed[i].jobId !in jobs
    ensures RejectionsById(listed, jobs).Some?
    ensures var byId := RejectionsById(listed, jobs).value;
            && (forall i | 0 <= i < |listed| :: listed[i].jobId in byId && byId[listed[i].jobId] == listed[i])
            && (forall id | id in byId :: exists i :: 0 <= i < |listed| && listed[i].jobId == id)
  {
    if |listed| > 0 {
      var before := listed[..|listed| - 1];
      RejectionListingById(before, jobs);
      var byId, last := RejectionsById(before, jobs).value, listed[|listed| - 1].jobId;
      assert last !in byId;
      forall id | id in byId
        ensures exists i :: 0 <= i < |listed| && listed[i].jobId == id
      {
        var i :| 0 <= i < |before| && before[i].jobId == id;
        assert listed[i].jobId == id;
      }
    }
  }

  /** A snapshot is valid exactly when no uncertain job has too long a failure text. */
  lemma SnapshotParsesExactly(s: State, jobs: seq<Job>, rejections: seq<Rejection>)
    requires Consistent(s) && ListsJobs(jobs, s.jobs)
    ensures RootParses(SnapshotOf(s, jobs, rejections)) <==> ShortFailures(s)
  {
    if RootParses(SnapshotOf(s, jobs, rejections)) {
      forall id | id in s.jobs && s.jobs[id].stage.Uncertain?
        ensures |s.jobs[id].stage.failure| <= MAX_REASON
      {
        var i :| 0 <= i < |jobs| && jobs[i].identity.jobId == id;
        assert JobParses(jobs[i]);
      }
    }
  }

  lemma ListingRestoresJobs(listed: seq<Job>, jobs: map<Id, Job>)
    requires ListsJobs(listed, jobs)
    ensures JobsById(listed) == Some(jobs)
  {
    ListingById(listed);
    assert JobsById(listed).value == jobs;
  }

  lemma ListingRestoresRejections(listed: seq<Rejection>, rejections: map<Id, Rejection>, jobs: map<Id, Job>)
    requires ListsRejections(listed, rejections) && Decided(jobs, rejections)
    ensures RejectionsById(listed, jobs) == Some(rejections)
  {
    RejectionListingById(listed, jobs);
    assert RejectionsById(listed, jobs).value == rejections;
  }

  /** The state a snapshot starts from is the one it was taken of, events apart. */
  lemma SnapshotRestores(s: State, jobs: seq<Job>, rejections: seq<Rejection>)
    requires Consistent(s) && ListsJobs(jobs, s.jobs) && ListsRejections(rejections, s.rejections)
    ensures Started(SnapshotOf(s, jobs, rejections)) == Ok(s.(events := []))
  {
    ListingRestoresJobs(jobs, s.jobs);
    ListingRestoresRejections(rejections, s.rejections, s.jobs);
    forall i | 0 <= i < |jobs| && jobs[i].stage.Position().Some?
      ensures jobs[i].stage.Position().value <= s.lastPlace
    {
      assert s.jobs[jobs[i].identity.jobId] == jobs[i];
    }
  }

  // ---------------------------------------------------------------------
  // Replay forgets nothing but the events
  // ---------------------------------------------------------------------

  function Prefixed(outcome: Outcome, earlier: seq<Event>): Outcome {
    match outcome
    case Err(error) => Err(error)
    case Ok(s) => Ok(s.(events := earlier + s.events))
  }

  lemma GuardedIgnoresEvents(s: State, e: Event, earlier: seq<Event>)
    ensures Guarded(s.(events := earlier + s.events), e) == Prefixed(Guarded(s, e), earlier)
  {
  }

  lemma AppliedIgnoresEvents(s: State, e: Event, earlier: seq<Event>)
    ensures Applied(s.(events := earlier + s.events), e) == Prefixed(Applied(s, e), earlier)
  {
    GuardedIgnoresEvents(s, e, earlier);
    assert earlier + (s.events + [e]) == (earlier + s.events) + [e];
  }

  lemma {:induction false} ContinuedIgnoresEvents(start: Outcome, tail: seq<Record>, earlier: seq<Event>)
    ensures Continued(Prefixed(start, earlier), tail) == Prefixed(Continued(start, tail), earlier)
  {
    if |tail| > 0 {
      var before := tail[..|tail| - 1];
      ContinuedIgnoresEvents(start, before, earlier);
      if Continued(start, before).Ok? && tail[|tail| - 1].Stepped? {
        AppliedIgnoresEvents(Continued(start, before).value, tail[|tail| - 1].event, earlier);
      }
    }
  }

  lemma {:induction false} ContinuedInTwo(start: Outcome, first: seq<Record>, second: seq<Record>)
    ensures Continued(start, first + second) == Continued(Continued(start, first), second)
  {
    if |second| == 0 {
      assert first + second == first;
    } else {
      var before := second[..|second| - 1];
      assert (first + second)[..|first + second| - 1] == first + before;
      ContinuedInTwo(start, first, before);
    }
  }

  /** Compaction preserves meaning: for any ledger, any listing of its jobs and any
      tail, the snapshot may be taken exactly when no uncertain failure is too long,
      and then replaying it with the tail gives what replaying the whole ledger gives,
      error or state, apart from the events that the snapshot stands for. */
  lemma CompactionPreservesMeaning(ledger: seq<Record>, jobs: seq<Job>, rejections: seq<Rejection>, tail: seq<Record>)
    requires Reduced(ledger).Ok?
    requires ListsJobs(jobs, Reduced(ledger).value.jobs)
    requires ListsRejections(rejections, Reduced(ledger).value.rejections)
    ensures var s := Reduced(ledger).value;
            var snapshot := SnapshotOf(s, jobs, rejections);
            && (RootParses(snapshot) <==> ShortFailures(s))
            && (ShortFailures(s) ==>
                  Reduced(ledger + tail) == Prefixed(Reduced([Rooted(snapshot)] + tail), s.events))
  {
    var s := Reduced(ledger).value;
    var snapshot := SnapshotOf(s, jobs, rejections);
    LedgersAreConsistent(ledger);
    SnapshotParsesExactly(s, jobs, rejections);
    if ShortFailures(s) {
      SnapshotRestores(s, jobs, rejections);
      ReplayFromRoot(ledger, snapshot, tail);
    }
  }

  lemma ReplayFromRoot(ledger: seq<Record>, root: Root, tail: seq<Record>)
    requires Reduced(ledger).Ok? && RootParses(root) && Started(root) == Ok(Reduced(ledger).value.(events := []))
    ensures Reduced(ledger + tail) == Prefixed(Reduced([Rooted(root)] + tail), Reduced(ledger).value.events)
  {
    var s := Reduced(ledger).value;
    SameRecordsParse(ledger, [Rooted(root)], tail);
    assert (ledger + tail)[1..] == ledger[1..] + tail;
    assert ([Rooted(root)] + tail)[1..] == tail;
    ContinuedInTwo(Started(ledger[0].root), ledger[1..], tail);
    assert s.events + [] == s.events;
    ContinuedIgnoresEvents(Ok(s.(events := [])), tail, s.events);
  }

  lemma SameRecordsParse(first: seq<Record>, second: seq<Record>, tail: seq<Record>)
    requires forall i | 0 <= i < |first| :: Parses(first[i])
    requires forall i | 0 <= i < |second| :: Parses(second[i])
    ensures (forall i | 0 <= i < |first + tail| :: Parses((first + tail)[i])) <==>
            (forall i | 0 <= i < |second + tail| :: Parses((second + tail)[i]))
  {
    assert forall i | 0 <= i < |tail| :: tail[i] == (first + tail)[|first| + i] == (second + tail)[|second| + i];
    assert (forall i | 0 <= i < |first + tail| :: Parses((first + tail)[i])) <==> forall i | 0 <= i < |tail| ::
      Parses(tail[i]);
    assert (forall i | 0 <= i < |second + tail| :: Parses((second + tail)[i])) <==> forall i | 0 <= i < |tail| ::
      Parses(tail[i]);
  }

  /** A ledger that can never be compacted: it records a failure text that the event
      admits and the snapshot does not. */
  function UncertainLedger(failure: Text): seq<Record> {
    [ Rooted(Initialized(0, Limits(1, 0))),
      Stepped(DispatchReserved(2, 0, Identity(1, 2, 3, 4), None, 0)),
      Stepped(JobUncertain(3, 0, 1, failure, 0)) ]
  }

  lemma LongFailureBlocksCompaction(failure: Text, jobs: seq<Job>, rejections: seq<Rejection>)
    requires MAX_REASON < |failure| <= MAX_FAILURE
    ensures var outcome := Reduced(UncertainLedger(failure));
            && outcome.Ok?
            && (ListsJobs(jobs, outcome.value.jobs) ==> !RootParses(SnapshotOf(outcome.value, jobs, rejections)))
  {
    var ledger := UncertainLedger(failure);
    UncertainRun(failure);
    LedgersAreConsistent(ledger);
    var s := Reduced(ledger).value;
    if ListsJobs(jobs, s.jobs) {
      SnapshotParsesExactly(s, jobs, rejections);
      assert !ShortFailures(s);
    }
  }

  lemma UncertainRun(failure: Text)
    requires MAX_REASON < |failure| <= MAX_FAILURE
    ensures Reduced(UncertainLedger(failure)).Ok?
    ensures var s := Reduced(UncertainLedger(failure)).value;
            1 in s.jobs && s.jobs[1].stage == Uncertain(None, failure, 0)
  {
    var ledger := UncertainLedger(failure);
    var s1 := State(0, Limits(1, 0), 1, 0, map[], map[], []);
    assert ActiveIds(s1.jobs) == {} && QueuedIds(s1.jobs) == {};
    assert Started(ledger[0].root) == Ok(s1);
    ClosingChecksHold(s1, ledger[1].event);
    assert Guarded(s1, ledger[1].event).Ok?;
    var s2 := Applied(s1, ledger[1].event).value;
    ClosingChecksHold(s2, ledger[2].event);
    assert Guarded(s2, ledger[2].event).Ok?;
    assert ledger[1..] == [ledger[1]] + [ledger[2]];
    assert [ledger[1]][..0] == [] && [ledger[2]][..0] == [];
    assert Continued(Ok(s1), []) == Ok(s1);
    assert Continued(Ok(s1), [ledger[1]]) == Ok(s2);
    ContinuedInTwo(Ok(s1), [ledger[1]], [ledger[2]]);
    assert Continued(Ok(s2), []) == Ok(s2);
    assert Continued(Ok(s2), [ledger[2]]) == Applied(s2, ledger[2].event);
  }
}
