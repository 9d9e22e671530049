/** What each admission event does to the job table, and what a ledger's records say of a
    job: where it stands, and whether it holds a worker. */
module AdmissionEffects {
  import opened Standard
  import opened Admission
  import opened AdmissionSafety

  /** The job or rejected command an event is about. */
  function About(e: Event): Id {
    match e
    case JobEnqueued(_, _, job, _, _) => job.jobId
    case DispatchReserved(_, _, job, _, _) => job.jobId
    case _ => e.jobId
  }

  // ---------------------------------------------------------------------
  // One event
  // ---------------------------------------------------------------------

  /** Every other job and every other rejection stays as it is. */
  ghost predicate OthersStay(s: State, s': State, id: Id) {
    && (forall other | other != id :: other in s'.jobs <==> other in s.jobs)
    && (forall other | other != id && other in s.jobs && other in s'.jobs :: s'.jobs[other] == s.jobs[other])
    && (forall other | other != id :: other in s'.rejections <==> other in s.rejections)
    && (forall other | other != id && other in s.rejections && other in s'.rejections ::
          s'.rejections[other] == s.rejections[other])
  }

  /** An accepted event has the next number, under the same policy, and changes no job,
      rejection or limit but those of its own job. */
  lemma BookkeepingAfter(s: State, e: Event)
    requires Applied(s, e).Ok?
    ensures var s' := Applied(s, e).value;
            && e.sequence == s.lastSequence + 1 == s'.lastSequence && e.policy == s.policy == s'.policy
            && s'.limits == s.limits && s'.events == s.events + [e]
            && s'.lastPlace == (if e.JobEnqueued? then e.place else s.lastPlace)
            && OthersStay(s, s', About(e))
  {
  }

  /** A job enters the table queued or dispatched, under the identity the event gives; a
      queued one is dispatched under the identity and the place it already had. */
  lemma EntryAfter(s: State, e: Event)
    requires Applied(s, e).Ok? && (e.JobEnqueued? || e.DispatchReserved?)
    ensures var s', id := Applied(s, e).value, About(e);
            && id in s'.jobs && s'.rejections == s.rejections && id !in s'.rejections
            && s'.jobs[id] == Job(e.job, if e.JobEnqueued? then Queued(e.place, e.at)
              else Dispatching(e.position, e.at))
            && (e.JobEnqueued? ==> id !in s.jobs && e.place == s.lastPlace + 1)
            && (e.DispatchReserved? ==>
                  if id in s.jobs then
                    && s.jobs[id].stage.Queued? && s.jobs[id].identity == e.job
                    && e.position == Some(s.jobs[id].stage.place)
                  else e.position.None?)
  {
  }

  /** The event suits the stage its job is in. */
  predicate Suits(e: Event, job: Job) {
    match e
    case WorkerAccepted(_, _, _, workerId, _) => job.stage.Dispatching? && job.identity.workerId == workerId
    case CancellationRecorded(_, _, _, _, _, _, _) => job.stage.Queued?
    case CancellationCompleted(_, _, _, commandId, _) => job.stage.Cancelling? && job.stage.commandId == commandId
    case JobUncertain(_, _, _, _, _) => job.stage.Dispatching? || job.stage.Accepted?
    case JobReleased(_, _, _, _) => job.stage.Dispatching? || job.stage.Accepted? || job.stage.Uncertain?
    case _ => false
  }

  predicate Later(e: Event) {
    || e.WorkerAccepted? || e.CancellationRecorded? || e.CancellationCompleted? || e.JobUncertain?
    || e.JobReleased?
  }

  /** The later events of a job are accepted exactly when they suit its stage. */
  lemma LaterAcceptedExactly(s: State, e: Event)
    requires Consistent(s) && EventParses(e) && e.sequence == s.lastSequence + 1 && e.policy == s.policy && Later(e)
    ensures Applied(s, e).Ok? <==> About(e) in s.jobs && Suits(e, s.jobs[About(e)])
    ensures Applied(s, e).Err? ==> Applied(s, e) == Err(InvalidTransition)
  {
    ClosingChecksHold(s, e);
  }

  /** Acceptance by a worker, a cancellation and an uncertain failure change only the
      stage of their job: its identity and its place are kept. */
  lemma StageAfter(s: State, e: Event)
    requires Applied(s, e).Ok? && (e.WorkerAccepted? || e.CancellationRecorded? || e.JobUncertain?)
    ensures var s', id := Applied(s, e).value, About(e);
            && id in s.jobs && id in s'.jobs && s'.rejections == s.rejections
            && var was, now := s.jobs[id], s'.jobs[id];
            && now.identity == was.identity && now.stage.Position() == was.stage.Position()
            && (e.WorkerAccepted? ==> now.stage == Accepted(was.stage.Position(), e.at))
            && (e.CancellationRecorded? ==>
                  now.stage.Cancelling? && now.stage.commandId == e.commandId && now.stage.actor == e.actor
                  && now.stage.reason == e.reason && now.stage.at == e.at)
            && (e.JobUncertain? ==> now.stage == Uncertain(was.stage.Position(), e.failure, e.at))
  {
  }

  /** A release, and the completion of a cancellation, remove exactly their job. */
  lemma RemovalAfter(s: State, e: Event)
    requires Applied(s, e).Ok? && (e.JobReleased? || e.CancellationCompleted?)
    ensures var s', id := Applied(s, e).value, About(e);
            id in s.jobs && id !in s'.jobs && s'.rejections == s.rejections
  {
  }

  /** A rejection is recorded of a new command when there is neither a worker nor a place
      for it, and is kept until it is committed. */
  lemma RejectionAfter(s: State, e: Event)
    requires Applied(s, e).Ok? && (e.JobRejected? || e.RejectionCommitted?)
    ensures var s', id := Applied(s, e).value, About(e);
            && s'.jobs == s.jobs
            && (e.JobRejected? ==>
                  && id !in s.jobs && id !in s.rejections && id in s'.rejections
                  && |ActiveIds(s.jobs)| >= s.limits.maxActive && |QueuedIds(s.jobs)| >= s.limits.maxQueued
                  && s'.rejections[id] == Rejection(id, e.runId, e.requestDigest, e.at))
            && (e.RejectionCommitted? ==>
                  id in s.rejections && id !in s'.rejections && s.rejections[id].requestDigest == e.requestDigest)
  {
  }

  // ---------------------------------------------------------------------
  // Why an event is refused
  // ---------------------------------------------------------------------

  /** The dispatch is in order, a free worker apart: the job is new and comes with no
      place, or it is the oldest in the queue and comes as it was queued. */
  predicate DispatchInOrderOf(s: State, job: Identity, position: Option<nat>) {
    if job.jobId in s.jobs then
      && s.jobs[job.jobId].stage.Queued? && s.jobs[job.jobId].identity == job
      && position == Some(s.jobs[job.jobId].stage.place) && Oldest(s.jobs, job.jobId)
    else New(s, job) && position.None?
  }

  /** The errors of a state's next event: a wrong number, then a wrong policy; a full
      table only for what else would be in order; an invalid transition otherwise. */
  lemma RefusedExactly(s: State, e: Event)
    requires Consistent(s) && EventParses(e)
    ensures Applied(s, e) == Err(InvalidEvent) <==> e.sequence != s.lastSequence + 1
    ensures Applied(s, e) == Err(PolicyMismatch) <==> e.sequence == s.lastSequence + 1 && e.policy != s.policy
    ensures e.sequence == s.lastSequence + 1 && e.policy == s.policy ==>
              (Applied(s, e) == Err(CapacityExceeded) <==>
                 && |ActiveIds(s.jobs)| >= s.limits.maxActive
                 && (|| (e.JobEnqueued? && New(s, e.job) && |QueuedIds(s.jobs)| >= s.limits.maxQueued)
                     || (e.DispatchReserved? && DispatchInOrderOf(s, e.job, e.position))))
    ensures e.DispatchReserved? && e.sequence == s.lastSequence + 1 && e.policy == s.policy ==>
              (Applied(s, e).Ok? <==>
                 DispatchInOrderOf(s, e.job, e.position) && |ActiveIds(s.jobs)| < s.limits.maxActive)
  {
    if e.sequence == s.lastSequence + 1 && e.policy == s.policy {
      ClosingChecksHold(s, e);
    }
  }

  // ---------------------------------------------------------------------
  // Ledgers
  // ---------------------------------------------------------------------

  lemma LastApplied(ledger: seq<Record>)
    requires Reduced(ledger).Ok? && |ledger| > 1
    ensures var before, last := ledger[..|ledger| - 1], ledger[|ledger| - 1];
            && Reduced(before).Ok? && last.Stepped? && EventParses(last.event)
            && Reduced(ledger) == Applied(Reduced(before).value, last.event)
  {
    var before := ledger[..|ledger| - 1];
    assert before[1..] == ledger[1..][..|ledger[1..]| - 1];
    assert forall i | 0 <= i < |before| :: before[i] == ledger[i];
    assert Parses(ledger[|ledger| - 1]);
  }

  lemma OneMoreRecord(ledger: seq<Record>, e: Event)
    requires Reduced(ledger).Ok? && EventParses(e)
    ensures Reduced(ledger + [Stepped(e)]) == Applied(Reduced(ledger).value, e)
  {
    var longer := ledger + [Stepped(e)];
    assert forall i | 0 <= i < |ledger| :: longer[i] == ledger[i];
    assert longer[1..] == ledger[1..] + [Stepped(e)];
    assert (ledger[1..] + [Stepped(e)])[..|ledger[1..]|] == ledger[1..];
  }

  predicate Concerns(r: Record, id: Id) {
    r.Stepped? && !r.event.JobRejected? && !r.event.RejectionCommitted? && About(r.event) == id
  }

  /** The place of the last record after the root about this job. */
  function Latest(ledger: seq<Record>, id: Id): (i: Option<nat>)
    ensures match i
            case Some(k) =>
              0 < k < |ledger| && Concerns(ledger[k], id) && forall j | k < j < |ledger| :: !Concerns(ledger[j], id)
            case None => forall j | 0 < j < |ledger| :: !Concerns(ledger[j], id)
  {
    if |ledger| <= 1 then None
    else if Concerns(ledger[|ledger| - 1], id) then Some(|ledger| - 1)
    else Latest(ledger[..|ledger| - 1], id)
  }

  /** What the last record about a job says of its entry. */
  predicate Tells(e: Event, id: Id, jobs: map<Id, Job>) {
    match e
    case JobEnqueued(_, _, job, place, at) => id in jobs && jobs[id] == Job(job, Queued(place, at))
    case DispatchReserved(_, _, job, position, at) => id in jobs && jobs[id] == Job(job, Dispatching(position, at))
    case WorkerAccepted(_, _, _, workerId, at) =>
      id in jobs && jobs[id].stage.Accepted? && jobs[id].stage.at == at && jobs[id].identity.workerId == workerId
    case CancellationRecorded(_, _, _, commandId, actor, reason, at) =>
      && id in jobs && jobs[id].stage.Cancelling? && jobs[id].stage.at == at
      && jobs[id].stage.commandId == commandId && jobs[id].stage.actor == actor && jobs[id].stage.reason == reason
    case JobUncertain(_, _, _, failure, at) =>
      id in jobs && jobs[id].stage.Uncertain? && jobs[id].stage.at == at && jobs[id].stage.failure == failure
    case _ => id !in jobs
  }

  lemma ToldAfter(s: State, e: Event)
    requires Applied(s, e).Ok? && !e.JobRejected? && !e.RejectionCommitted?
    ensures Tells(e, About(e), Applied(s, e).value.jobs)
  {
    match e
    case JobEnqueued(_, _, _, _, _) => EntryAfter(s, e);
    case DispatchReserved(_, _, _, _, _) => EntryAfter(s, e);
    case JobReleased(_, _, _, _) => RemovalAfter(s, e);
    case CancellationCompleted(_, _, _, _, _) => RemovalAfter(s, e);
    case _ => StageAfter(s, e);
  }

  predicate SameEntry(jobs: map<Id, Job>, jobs': map<Id, Job>, id: Id) {
    (id in jobs <==> id in jobs') && (id in jobs && id in jobs' ==> jobs[id] == jobs'[id])
  }

  lemma UnconcernedStays(s: State, e: Event, id: Id)
    requires Applied(s, e).Ok? && !Concerns(Stepped(e), id)
    ensures SameEntry(s.jobs, Applied(s, e).value.jobs, id)
  {
    BookkeepingAfter(s, e);
    if e.JobRejected? || e.RejectionCommitted? {
      RejectionAfter(s, e);
    }
  }

  lemma LatestStep(ledger: seq<Record>, id: Id)
    requires |ledger| > 1
    ensures Latest(ledger, id) == if Concerns(ledger[|ledger| - 1], id) then Some(|ledger| - 1)
            else Latest(ledger[..|ledger| - 1], id)
  {
  }

  /** A job stands where the last record about it put it: queued, dispatched, accepted,
      to be cancelled or uncertain as that record says, and out of the table after a
      release or a completed cancellation.  Without such a record its entry is the root's. */
  lemma {:induction false} StandsAsLastRecorded(ledger: seq<Record>, id: Id)
    requires Reduced(ledger).Ok?
    ensures match Latest(ledger, id)
            case Some(k) => Tells(ledger[k].event, id, Reduced(ledger).value.jobs)
            case None => Reduced(ledger[..1]).Ok? &&
                         SameEntry(Reduced(ledger[..1]).value.jobs, Reduced(ledger).value.jobs, id)
  {
    if |ledger| == 1 {
      assert ledger[..1] == ledger;
    } else {
      var before, e := ledger[..|ledger| - 1], ledger[|ledger| - 1].event;
      LastApplied(ledger);
      StandsAsLastRecorded(before, id);
      LatestStep(ledger, id);
      assert before[..1] == ledger[..1];
      if Concerns(ledger[|ledger| - 1], id) {
        ToldAfter(Reduced(before).value, e);
      } else {
        UnconcernedStays(Reduced(before).value, e, id);
      }
    }
  }

  /** Some record dispatched the job, and none since released it. */
  predicate DispatchedSince(ledger: seq<Record>, id: Id) {
    exists i ::
      && 0 < i < |ledger| && ledger[i].Stepped? && ledger[i].event.DispatchReserved? && About(ledger[i].event) == id
      && !ReleasedSince(ledger, id, i)
  }

  predicate ReleasedSince(ledger: seq<Record>, id: Id, i: nat) {
    exists j :: i < j < |ledger| && ledger[j].Stepped? && ledger[j].event.JobReleased? && About(ledger[j].event) == id
  }

  lemma ActiveStep(s: State, e: Event, id: Id)
    requires Applied(s, e).Ok?
    ensures var s' := Applied(s, e).value;
            id in ActiveIds(s'.jobs) <==>
              || (e.DispatchReserved? && About(e) == id)
              || (id in ActiveIds(s.jobs) && !(e.JobReleased? && About(e) == id))
  {
    if Concerns(Stepped(e), id) {
      ToldAfter(s, e);
    } else {
      UnconcernedStays(s, e, id);
    }
  }

  lemma DispatchedStep(ledger: seq<Record>, id: Id)
    requires |ledger| > 1 && ledger[|ledger| - 1].Stepped?
    ensures var e := ledger[|ledger| - 1].event;
            DispatchedSince(ledger, id) <==>
              || (e.DispatchReserved? && About(e) == id)
              || (DispatchedSince(ledger[..|ledger| - 1], id) && !(e.JobReleased? && About(e) == id))
  {
    var k := |ledger| - 1;
    var before, e := ledger[..k], ledger[k].event;
    assert forall i | 0 <= i < k :: before[i] == ledger[i];
    if e.DispatchReserved? && About(e) == id {
      assert !ReleasedSince(ledger, id, k);
    }
    forall i | 0 <= i < k
      ensures ReleasedSince(ledger, id, i) <==> ReleasedSince(before, id, i) || (e.JobReleased? && About(e) == id)
    {
      if ReleasedSince(before, id, i) {
        var j :| i < j < |before| && before[j].Stepped? && before[j].event.JobReleased? && About(before[j].event) == id;
        assert ledger[j] == before[j];
      }
    }
  }

  /** In a ledger that begins empty a job holds a worker exactly when it was dispatched
      and not released since. */
  lemma {:induction false} ActiveExactly(ledger: seq<Record>, id: Id)
    requires Reduced(ledger).Ok? && ledger[0].root.Initialized?
    ensures id in ActiveIds(Reduced(ledger).value.jobs) <==> DispatchedSince(ledger, id)
  {
    if |ledger| > 1 {
      var before := ledger[..|ledger| - 1];
      LastApplied(ledger);
      ActiveExactly(before, id);
      ActiveStep(Reduced(before).value, ledger[|ledger| - 1].event, id);
      DispatchedStep(ledger, id);
    }
  }

  /** What a release leaves of the state: one job fewer, one active job fewer, and every
      dispatch that was in order still is. */
  lemma AfterRelease(s: State, release: Event, job: Identity, position: Option<nat>)
    requires Consistent(s) && EventParses(release) && release.JobReleased? && Applied(s, release).Ok?
    requires DispatchInOrderOf(s, job, position)
    ensures var s' := Applied(s, release).value;
            && |ActiveIds(s'.jobs)| == |ActiveIds(s.jobs)| - 1
            && s'.limits == s.limits && s'.policy == s.policy && DispatchInOrderOf(s', job, position)
  {
    var s' := Applied(s, release).value;
    RemovalAfter(s, release);
    BookkeepingAfter(s, release);
    LaterAcceptedExactly(s, release);
    assert s'.jobs == s.jobs - {About(release)};
    CountsAfterRemove(s.jobs, About(release));
  }

  /** A release frees a worker: the count of active jobs falls by one, and the dispatch
      that was refused for want of a worker just before is then accepted. */
  lemma ReleaseFreesAWorker(ledger: seq<Record>, release: Event, job: Identity, position: Option<nat>, at: Time)
    requires Reduced(ledger).Ok? && EventParses(release) && release.JobReleased?
    requires Reduced(ledger + [Stepped(release)]).Ok?
    requires var s := Reduced(ledger).value;
             Reduced(ledger + [Stepped(DispatchReserved(s.lastSequence + 1, s.policy, job, position, at))])
             == Err(CapacityExceeded)
    ensures var s := Reduced(ledger).value;
            var released := ledger + [Stepped(release)];
            var s' := Reduced(released).value;
            && |ActiveIds(s'.jobs)| == |ActiveIds(s.jobs)| - 1
            && Reduced(released + [Stepped(DispatchReserved(s'.lastSequence + 1, s'.policy, job, position, at))]).Ok?
  {
    var s := Reduced(ledger).value;
    var e := DispatchReserved(s.lastSequence + 1, s.policy, job, position, at);
    LedgersAreConsistent(ledger);
    RefusedParses(ledger, e);
    OneMoreRecord(ledger, e);
    OneMoreRecord(ledger, release);
    RefusedExactly(s, e);
    AfterRelease(s, release, job, position);
    DispatchedThen(ledger + [Stepped(release)], job, position, at);
  }

  lemma DispatchedThen(ledger: seq<Record>, job: Identity, position: Option<nat>, at: Time)
    requires Reduced(ledger).Ok? && ValidPosition(position)
    requires var s := Reduced(ledger).value;
             DispatchInOrderOf(s, job, position) && |ActiveIds(s.jobs)| < s.limits.maxActive
    ensures var s := Reduced(ledger).value;
            Reduced(ledger + [Stepped(DispatchReserved(s.lastSequence + 1, s.policy, job, position, at))]).Ok?
  {
    var s := Reduced(ledger).value;
    var e := DispatchReserved(s.lastSequence + 1, s.policy, job, position, at);
    LedgersAreConsistent(ledger);
    OneMoreRecord(ledger, e);
    RefusedExactly(s, e);
  }

  /** A ledger refused for want of room holds no malformed record. */
  lemma RefusedParses(ledger: seq<Record>, e: Event)
    requires Reduced(ledger + [Stepped(e)]) == Err(CapacityExceeded)
    ensures EventParses(e)
  {
    assert (ledger + [Stepped(e)])[|ledger|] == Stepped(e);
  }

  // ---------------------------------------------------------------------
  // Numbers
  // ---------------------------------------------------------------------

  function EnqueuedIn(ledger: seq<Record>): nat {
    if |ledger| == 0 then 0
    else
      var last := ledger[|ledger| - 1];
      EnqueuedIn(ledger[..|ledger| - 1]) + if last.Stepped? && last.event.JobEnqueued? then 1 else 0
  }

  /** In a ledger that begins empty the sequence numbers count the records and the queue
      places count the jobs that queued. */
  lemma {:induction false} NumbersCount(ledger: seq<Record>)
    requires Reduced(ledger).Ok? && ledger[0].root.Initialized?
    ensures var s := Reduced(ledger).value;
            && s.lastSequence == |ledger| && s.lastPlace == EnqueuedIn(ledger)
            && s.limits == ledger[0].root.limits && s.policy == ledger[0].root.policy
            && |s.events| == |ledger| - 1
            && (forall i | 0 <= i < |s.events| ::
              ledger[i + 1] == Stepped(s.events[i]) && s.events[i].sequence == i + 2)
  {
    if |ledger| == 1 {
      assert ledger[1..] == [];
      assert EnqueuedIn(ledger) == EnqueuedIn(ledger[..0]);
    } else {
      var before, e := ledger[..|ledger| - 1], ledger[|ledger| - 1].event;
      LastApplied(ledger);
      NumbersCount(before);
      BookkeepingAfter(Reduced(before).value, e);
      if e.JobEnqueued? {
        EntryAfter(Reduced(before).value, e);
      }
    }
  }

  /** A second root is refused wherever it stands, and a malformed record before anything
      else is looked at. */
  lemma OneRoot(ledger: seq<Record>, root: Root)
    requires Reduced(ledger).Ok?
    ensures Reduced(ledger + [Rooted(root)]) == Err(if RootParses(root) then InvalidTransition else InvalidEvent)
  {
    var longer := ledger + [Rooted(root)];
    assert forall i | 0 <= i < |ledger| :: longer[i] == ledger[i];
    assert longer[|ledger|] == Rooted(root);
    assert longer[1..] == ledger[1..] + [Rooted(root)];
    assert (ledger[1..] + [Rooted(root)])[..|ledger[1..]|] == ledger[1..];
  }
}
