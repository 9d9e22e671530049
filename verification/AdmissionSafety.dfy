/** What every admission ledger keeps: identities, capacity and queue order. */
module AdmissionSafety {
  import opened Standard
  import opened Admission

  predicate Keyed(s: State) {
    && (forall id | id in s.jobs :: s.jobs[id].identity.jobId == id)
    && (forall id | id in s.rejections :: s.rejections[id].jobId == id)
  }

  predicate PlacesTaken(s: State) {
    forall id | id in s.jobs && s.jobs[id].stage.Position().Some? ::
      0 < s.jobs[id].stage.Position().value <= s.lastPlace
  }

  predicate TextsValid(s: State) {
    forall id | id in s.jobs ::
      && (s.jobs[id].stage.Cancelling? ==> ValidCancellation(s.jobs[id].stage.actor, s.jobs[id].stage.reason))
      && (s.jobs[id].stage.Uncertain? ==> Bounded(s.jobs[id].stage.failure, MAX_FAILURE))
  }

  predicate WithinCapacity(s: State) {
    |ActiveIds(s.jobs)| <= s.limits.maxActive && |QueuedIds(s.jobs)| <= s.limits.maxQueued
  }

  predicate Consistent(s: State) {
    && ValidLimits(s.limits) && s.lastSequence > 0
    && Keyed(s) && UniqueRuns(s.jobs) && UniqueWorkers(s.jobs) && Decided(s.jobs, s.rejections)
    && UniquePlaces(s.jobs) && PlacesTaken(s) && TextsValid(s) && WithinCapacity(s)
  }

  // ---------------------------------------------------------------------
  // Counting
  // ---------------------------------------------------------------------

  function Flag(b: bool): nat { if b then 1 else 0 }

  lemma CountsDifferByOne(before: set<Id>, after: set<Id>, id: Id)
    requires before - {id} == after - {id}
    ensures |after| == |before| - Flag(id in before) + Flag(id in after)
  {
    if id in before {
      assert before == (before - {id}) + {id};
    } else {
      assert before == before - {id};
    }
    if id in after {
      assert after == (after - {id}) + {id};
    } else {
      assert after == after - {id};
    }
  }

  /** Putting a job in place changes each count by that job alone. */
  lemma CountsAfterPut(jobs: map<Id, Job>, id: Id, job: Job)
    ensures |ActiveIds(jobs[id := job])| ==
            |ActiveIds(jobs)| - Flag(id in jobs && jobs[id].stage.Active()) + Flag(job.stage.Active())
    ensures |QueuedIds(jobs[id := job])| ==
            |QueuedIds(jobs)| - Flag(id in jobs && jobs[id].stage.Queued?) + Flag(job.stage.Queued?)
  {
    CountsDifferByOne(ActiveIds(jobs), ActiveIds(jobs[id := job]), id);
    CountsDifferByOne(QueuedIds(jobs), QueuedIds(jobs[id := job]), id);
  }

  lemma CountsAfterRemove(jobs: map<Id, Job>, id: Id)
    requires id in jobs
    ensures |ActiveIds(jobs - {id})| == |ActiveIds(jobs)| - Flag(jobs[id].stage.Active())
    ensures |QueuedIds(jobs - {id})| == |QueuedIds(jobs)| - Flag(jobs[id].stage.Queued?)
  {
    assert ActiveIds(jobs - {id}) == ActiveIds(jobs) - {id};
    assert QueuedIds(jobs - {id}) == QueuedIds(jobs) - {id};
  }

  // ---------------------------------------------------------------------
  // The guards alone keep a state consistent
  // ---------------------------------------------------------------------

  lemma NewIsApart(s: State, job: Identity, stage: Stage)
    requires Consistent(s) && New(s, job)
    ensures var s' := Placed(s, job, stage);
            Keyed(s') && UniqueRuns(s'.jobs) && UniqueWorkers(s'.jobs) && Decided(s'.jobs, s'.rejections)
  {
  }

  lemma NewPlaceIsLast(s: State, job: Identity, stage: Stage)
    requires Consistent(s) && New(s, job) && stage.Queued? && stage.place == s.lastPlace + 1
    ensures var s' := Placed(s, job, stage).(lastPlace := stage.place);
            UniquePlaces(s'.jobs) && PlacesTaken(s') && TextsValid(s')
  {
  }

  lemma QueueingNewKeeps(s: State, job: Identity, stage: Stage)
    requires Consistent(s) && New(s, job) && stage.Queued?
    requires stage.place == s.lastPlace + 1 && |QueuedIds(s.jobs)| < s.limits.maxQueued
    ensures Consistent(Placed(s, job, stage).(lastPlace := stage.place))
  {
    NewIsApart(s, job, stage);
    NewPlaceIsLast(s, job, stage);
    CountsAfterPut(s.jobs, job.jobId, Job(job, stage));
  }

  lemma DispatchingNewKeeps(s: State, job: Identity, stage: Stage)
    requires Consistent(s) && New(s, job) && stage.Dispatching?
    requires stage.position.None? && |ActiveIds(s.jobs)| < s.limits.maxActive
    ensures Consistent(Placed(s, job, stage))
  {
    CountsAfterPut(s.jobs, job.jobId, Job(job, stage));
  }

  lemma PlacingNewKeeps(s: State, job: Identity, stage: Stage)
    requires Consistent(s) && New(s, job)
    requires match stage
             case Queued(place, _) => place == s.lastPlace + 1 && |QueuedIds(s.jobs)| < s.limits.maxQueued
             case Dispatching(position, _) => position.None? && |ActiveIds(s.jobs)| < s.limits.maxActive
             case _ => false
    ensures Consistent(Placed(s, job, stage).(lastPlace := if stage.Queued? then stage.place else s.lastPlace))
  {
    if stage.Queued? {
      QueueingNewKeeps(s, job, stage);
    } else {
      DispatchingNewKeeps(s, job, stage);
      assert Placed(s, job, stage).(lastPlace := s.lastPlace) == Placed(s, job, stage);
    }
  }

  lemma MovingKeeps(s: State, id: Id, stage: Stage)
    requires Consistent(s) && id in s.jobs
    requires stage.Position() == s.jobs[id].stage.Position()
    requires stage.HoldsPlace() ==> s.jobs[id].stage.HoldsPlace()
    requires stage.Queued? ==> s.jobs[id].stage.Queued?
    requires stage.Active() && !s.jobs[id].stage.Active() ==> |ActiveIds(s.jobs)| < s.limits.maxActive
    requires stage.Cancelling? ==> ValidCancellation(stage.actor, stage.reason)
    requires stage.Uncertain? ==> Bounded(stage.failure, MAX_FAILURE)
    ensures Consistent(Moved(s, id, stage))
  {
    CountsAfterPut(s.jobs, id, s.jobs[id].(stage := stage));
  }

  lemma RemovingKeeps(s: State, id: Id)
    requires Consistent(s) && id in s.jobs
    ensures Consistent(s.(jobs := s.jobs - {id}))
  {
    CountsAfterRemove(s.jobs, id);
  }

  /** An event whose guards hold leaves a consistent state. */
  lemma GuardsKeepConsistency(s: State, e: Event)
    requires Consistent(s) && EventParses(e) && Guarded(s, e).Ok?
    ensures Consistent(Guarded(s, e).value)
  {
    match e
    case JobEnqueued(_, _, job, place, at) => PlacingNewKeeps(s, job, Queued(place, at));
    case JobRejected(_, _, _, _, _, _) =>
    case RejectionCommitted(_, _, _, _, _) =>
    case DispatchReserved(_, _, job, position, at) =>
      if job.jobId in s.jobs {
        MovingKeeps(s, job.jobId, Dispatching(position, at));
      } else {
        PlacingNewKeeps(s, job, Dispatching(position, at));
      }
    case WorkerAccepted(_, _, id, _, at) => MovingKeeps(s, id, Accepted(s.jobs[id].stage.position, at));
    case CancellationRecorded(_, _, id, commandId, actor, reason, at) =>
      MovingKeeps(s, id, Cancelling(s.jobs[id].stage.place, commandId, actor, reason, at));
    case CancellationCompleted(_, _, id, _, _) => RemovingKeeps(s, id);
    case JobUncertain(_, _, id, failure, at) => MovingKeeps(s, id, Uncertain(s.jobs[id].stage.position, failure, at));
    case JobReleased(_, _, id, _) => RemovingKeeps(s, id);
  }

  /** The closing checks of a transition never fail: what its guards accept is accepted. */
  lemma ClosingChecksHold(s: State, e: Event)
    requires Consistent(s) && EventParses(e) && e.sequence == s.lastSequence + 1 && e.policy == s.policy
    ensures Applied(s, e).Ok? <==> Guarded(s, e).Ok?
    ensures Applied(s, e).Ok? ==> Consistent(Applied(s, e).value)
    ensures Applied(s, e).Err? ==> Applied(s, e) == Guarded(s, e)
  {
    if Guarded(s, e).Ok? {
      GuardsKeepConsistency(s, e);
    }
  }

  lemma {:induction false} JobsByIdHolds(jobs: seq<Job>)
    requires JobsById(jobs).Some?
    ensures var byId := JobsById(jobs).value;
            forall id | id in byId :: byId[id].identity.jobId == id && byId[id] in jobs
  {
    if |jobs| > 0 {
      JobsByIdHolds(jobs[..|jobs| - 1]);
    }
  }

  lemma {:induction false} RejectionsByIdHolds(rejections: seq<Rejection>, jobs: map<Id, Job>)
    requires RejectionsById(rejections, jobs).Some?
    ensures var byId := RejectionsById(rejections, jobs).value;
            forall id | id in byId :: byId[id].jobId == id && byId[id] in rejections && id !in jobs
  {
    if |rejections| > 0 {
      RejectionsByIdHolds(rejections[..|rejections| - 1], jobs);
    }
  }

  lemma RootIsConsistent(root: Root)
    requires RootParses(root) && Started(root).Ok?
    ensures Consistent(Started(root).value)
  {
    if root.Snapshot? {
      JobsByIdHolds(root.jobs);
      RejectionsByIdHolds(root.rejections, JobsById(root.jobs).value);
      var jobs := JobsById(root.jobs).value;
      forall id | id in jobs
        ensures JobParses(jobs[id])
        ensures jobs[id].stage.Position().Some? ==> jobs[id].stage.Position().value <= root.lastPlace
      {
        var i :| 0 <= i < |root.jobs| && root.jobs[i] == jobs[id];
      }
    }
  }

  lemma {:induction false} TailKeepsConsistency(start: Outcome, tail: seq<Record>)
    requires start.Ok? ==> Consistent(start.value)
    requires forall i | 0 <= i < |tail| :: Parses(tail[i])
    ensures Continued(start, tail).Ok? ==> Consistent(Continued(start, tail).value)
  {
    if |tail| > 0 {
      var before := tail[..|tail| - 1];
      TailKeepsConsistency(start, before);
      if Continued(start, tail).Ok? {
        var s, e := Continued(start, before).value, tail[|tail| - 1].event;
        assert Parses(tail[|tail| - 1]);
        ClosingChecksHold(s, e);
      }
    }
  }

  /** Every state a ledger reduces to has unique runs, workers and queue places, keeps
      jobs and rejections apart, and respects both capacity limits. */
  lemma LedgersAreConsistent(ledger: seq<Record>)
    requires Reduced(ledger).Ok?
    ensures Consistent(Reduced(ledger).value)
  {
    assert Parses(ledger[0]);
    if Started(ledger[0].root).Ok? {
      RootIsConsistent(ledger[0].root);
    }
    assert forall i | 0 <= i < |ledger[1..]| :: ledger[1..][i] == ledger[i + 1];
    TailKeepsConsistency(Started(ledger[0].root), ledger[1..]);
  }

  // ---------------------------------------------------------------------
  // One decision for each new job
  // ---------------------------------------------------------------------

  function EnqueuedEvent(s: State, job: Identity, at: Time): Event {
    JobEnqueued(s.lastSequence + 1, s.policy, job, s.lastPlace + 1, at)
  }

  function DispatchEvent(s: State, job: Identity, at: Time): Event {
    DispatchReserved(s.lastSequence + 1, s.policy, job,
                     if job.jobId in s.jobs
                       && s.jobs[job.jobId].stage.Queued? then Some(s.jobs[job.jobId].stage.place) else None,
                     at)
  }

  function RejectedEvent(s: State, job: Identity, requestDigest: Digest, at: Time): Event {
    JobRejected(s.lastSequence + 1, s.policy, job.jobId, job.runId, requestDigest, at)
  }

  /** For a new job exactly one of the three events is accepted: the one its
      classification names. */
  lemma OneDecision(s: State, job: Identity, requestDigest: Digest, at: Time)
    requires Consistent(s) && New(s, job)
    ensures Applied(s, DispatchEvent(s, job, at)).Ok? <==> ClassifyNew(s).Dispatch?
    ensures Applied(s, EnqueuedEvent(s, job, at)).Ok? <==> ClassifyNew(s).Queue?
    ensures Applied(s, RejectedEvent(s, job, requestDigest, at)).Ok? <==> ClassifyNew(s).Reject?
  {
    ClosingChecksHold(s, DispatchEvent(s, job, at));
    ClosingChecksHold(s, EnqueuedEvent(s, job, at));
    ClosingChecksHold(s, RejectedEvent(s, job, requestDigest, at));
  }

  /** A queued job is dispatched exactly when it is the oldest and a worker is free. */
  lemma QueuedDispatchExactly(s: State, id: Id, at: Time)
    requires Consistent(s) && id in s.jobs && s.jobs[id].stage.Queued?
    ensures Applied(s, DispatchEvent(s, s.jobs[id].identity, at)).Ok? <==>
            Oldest(s.jobs, id) && |ActiveIds(s.jobs)| < s.limits.maxActive
  {
    ClosingChecksHold(s, DispatchEvent(s, s.jobs[id].identity, at));
  }

  // ---------------------------------------------------------------------
  // First in, first out
  // ---------------------------------------------------------------------

  /** The queue places of the jobs dispatched from the queue, in ledger order. */
  function DispatchedPlaces(tail: seq<Record>): seq<nat> {
    if |tail| == 0 then []
    else
      var before := DispatchedPlaces(tail[..|tail| - 1]);
      match tail[|tail| - 1]
      case Stepped(DispatchReserved(_, _, _, Some(place), _)) => before + [place]
      case _ => before
  }

  predicate Increasing(places: seq<nat>) {
    forall i, j | 0 <= i < j < |places| :: places[i] < places[j]
  }

  /** Whoever still waits took a later place than everyone already dispatched. */
  predicate WaitBehind(s: State, places: seq<nat>) {
    && (forall i | 0 <= i < |places| :: places[i] <= s.lastPlace)
    && (forall id, i | id in s.jobs && s.jobs[id].stage.Queued? && 0 <= i < |places| ::
      places[i] < s.jobs[id].stage.place)
  }

  /** A job that waits after an event waited before it, or has just taken the next place. */
  lemma WaitingBefore(s: State, e: Event, id: Id)
    requires Applied(s, e).Ok? && id in Applied(s, e).value.jobs && Applied(s, e).value.jobs[id].stage.Queued?
    ensures Applied(s, e).value.lastPlace >= s.lastPlace
    ensures if e.JobEnqueued? && id == e.job.jobId then Applied(s, e).value.jobs[id].stage.place == s.lastPlace + 1
            else id in s.jobs && s.jobs[id] == Applied(s, e).value.jobs[id]
    ensures e.DispatchReserved? ==> id != e.job.jobId
  {
  }

  lemma PlacesNeverShrink(s: State, e: Event)
    requires Applied(s, e).Ok?
    ensures Applied(s, e).value.lastPlace >= s.lastPlace
  {
  }

  lemma WaitersStayBehind(s: State, e: Event, places: seq<nat>)
    requires Applied(s, e).Ok? && WaitBehind(s, places)
    ensures WaitBehind(Applied(s, e).value, places)
  {
    var s' := Applied(s, e).value;
    PlacesNeverShrink(s, e);
    forall id, i | id in s'.jobs && s'.jobs[id].stage.Queued? && 0 <= i < |places|
      ensures places[i] < s'.jobs[id].stage.place
    {
      WaitingBefore(s, e, id);
    }
  }

  lemma DispatchIsOldest(s: State, e: Event, id: Id)
    requires Consistent(s) && Applied(s, e).Ok? && e.DispatchReserved? && e.position.Some?
    ensures e.job.jobId in s.jobs && s.jobs[e.job.jobId].stage.Queued?
    ensures e.position.value == s.jobs[e.job.jobId].stage.place
    ensures id in Applied(s, e).value.jobs && Applied(s, e).value.jobs[id].stage.Queued? ==>
              e.position.value < Applied(s, e).value.jobs[id].stage.place
  {
    var s' := Applied(s, e).value;
    if id in s'.jobs && s'.jobs[id].stage.Queued? {
      WaitingBefore(s, e, id);
      assert s.jobs[id].stage.HoldsPlace() && s.jobs[e.job.jobId].stage.HoldsPlace();
    }
  }

  lemma DispatchInOrder(s: State, e: Event, places: seq<nat>)
    requires Consistent(s) && Applied(s, e).Ok? && e.DispatchReserved? && e.position.Some?
    requires Increasing(places) && WaitBehind(s, places)
    ensures Increasing(places + [e.position.value]) && WaitBehind(Applied(s, e).value, places + [e.position.value])
  {
    WaitersStayBehind(s, e, places);
    DispatchIsOldest(s, e, e.job.jobId);
    forall id | id in Applied(s, e).value.jobs && Applied(s, e).value.jobs[id].stage.Queued?
      ensures e.position.value < Applied(s, e).value.jobs[id].stage.place
    {
      DispatchIsOldest(s, e, id);
    }
    PlacesNeverShrink(s, e);
  }

  /** First in, first out over whole ledgers, whatever cancellations, releases, direct
      dispatches and rejections come between. */
  lemma {:induction false} QueueIsFifo(ledger: seq<Record>)
    requires Reduced(ledger).Ok?
    ensures Increasing(DispatchedPlaces(ledger[1..]))
    ensures WaitBehind(Reduced(ledger).value, DispatchedPlaces(ledger[1..]))
  {
    var tail := ledger[1..];
    if |tail| > 0 {
      var before := ledger[..|ledger| - 1];
      assert before[1..] == tail[..|tail| - 1];
      assert forall i | 0 <= i < |before| :: before[i] == ledger[i];
      assert Reduced(before) == Continued(Started(ledger[0].root), before[1..]);
      assert Reduced(before).Ok?;
      QueueIsFifo(before);
      LedgersAreConsistent(before);
      assert Parses(ledger[|ledger| - 1]);
      var e := tail[|tail| - 1].event;
      if e.DispatchReserved? && e.position.Some? {
        DispatchInOrder(Reduced(before).value, e, DispatchedPlaces(before[1..]));
      } else {
        WaitersStayBehind(Reduced(before).value, e, DispatchedPlaces(before[1..]));
      }
    }
  }
}
