/** The supervisor's admission ledger: jobs that run, wait in a bounded queue, or are
    turned away, as a fold over durable events. */
module Admission {
  import opened Standard

  /** Identifiers, digests and times are only ever compared for equality. */
  type Id = nat
  type Digest = nat
  type Time = nat
  type Text = string

  datatype Limits = Limits(maxActive: nat, maxQueued: nat)

  datatype Identity = Identity(jobId: Id, workerId: Id, runId: Id, digest: Digest)

  datatype Stage =
    | Queued(place: nat, at: Time)
    | Dispatching(position: Option<nat>, at: Time)
    | Accepted(position: Option<nat>, at: Time)
    | Cancelling(place: nat, commandId: Id, actor: Text, reason: Option<Text>, at: Time)
    | Uncertain(position: Option<nat>, failure: Text, at: Time)
  {
    /** The place the job took in the queue, if it ever queued. */
    function Position(): Option<nat> {
      match this
      case Queued(place, _) => Some(place)
      case Cancelling(place, _, _, _, _) => Some(place)
      case _ => position
    }

    predicate Active() {
      Dispatching? || Accepted? || Uncertain?
    }

    predicate HoldsPlace() {
      Queued? || Cancelling?
    }
  }

  datatype Job = Job(identity: Identity, stage: Stage)

  datatype Rejection = Rejection(jobId: Id, runId: Id, requestDigest: Digest, at: Time)

  datatype Event =
    | JobEnqueued(sequence: nat, policy: Digest, job: Identity, place: nat, at: Time)
    | JobRejected(sequence: nat, policy: Digest, jobId: Id, runId: Id, requestDigest: Digest, at: Time)
    | RejectionCommitted(sequence: nat, policy: Digest, jobId: Id, requestDigest: Digest, at: Time)
    | DispatchReserved(sequence: nat, policy: Digest, job: Identity, position: Option<nat>, at: Time)
    | WorkerAccepted(sequence: nat, policy: Digest, jobId: Id, workerId: Id, at: Time)
    | CancellationRecorded(sequence: nat, policy: Digest, jobId: Id, commandId: Id, actor: Text, reason: Option<Text>,
      at: Time)
    | CancellationCompleted(sequence: nat, policy: Digest, jobId: Id, commandId: Id, at: Time)
    | JobUncertain(sequence: nat, policy: Digest, jobId: Id, failure: Text, at: Time)
    | JobReleased(sequence: nat, policy: Digest, jobId: Id, at: Time)

  datatype Root =
    | Initialized(policy: Digest, limits: Limits)
    | Snapshot(sequence: nat, policy: Digest, limits: Limits, lastPlace: nat, jobs: seq<Job>,
      rejections: seq<Rejection>)

  datatype Record = Rooted(root: Root) | Stepped(event: Event)

  datatype State = State(
    policy: Digest,
    limits: Limits,
    lastSequence: nat,
    lastPlace: nat,
    jobs: map<Id, Job>,
    rejections: map<Id, Rejection>,
    events: seq<Event>)

  datatype Error = CapacityExceeded | InvalidEvent | InvalidTransition | PolicyMismatch

  type Outcome = Result<State, Error>

  // ---------------------------------------------------------------------
  // Schemas
  // ---------------------------------------------------------------------

  const MAX_ACTOR := 256
  const MAX_REASON := 4096
  const MAX_FAILURE := 16384

  predicate Bounded(text: Text, limit: nat) {
    1 <= |text| <= limit
  }

  predicate ValidPosition(position: Option<nat>) {
    position.Some? ==> position.value > 0
  }

  predicate ValidCancellation(actor: Text, reason: Option<Text>) {
    Bounded(actor, MAX_ACTOR) && (reason.Some? ==> Bounded(reason.value, MAX_REASON))
  }

  predicate ValidLimits(limits: Limits) {
    limits.maxActive > 0
  }

  predicate EventParses(e: Event) {
    && e.sequence > 0
    && (match e
        case JobEnqueued(_, _, _, place, _) => place > 0
        case DispatchReserved(_, _, _, position, _) => ValidPosition(position)
        case CancellationRecorded(_, _, _, _, actor, reason, _) => ValidCancellation(actor, reason)
        case JobUncertain(_, _, _, failure, _) => Bounded(failure, MAX_FAILURE)
        case _ => true)
  }

  /** A snapshot admits a shorter failure text than the event that recorded it. */
  predicate JobParses(job: Job) {
    && ValidPosition(job.stage.Position())
    && (job.stage.Cancelling? ==> ValidCancellation(job.stage.actor, job.stage.reason))
    && (job.stage.Uncertain? ==> Bounded(job.stage.failure, MAX_REASON))
  }

  predicate RootParses(root: Root) {
    match root
    case Initialized(_, limits) => ValidLimits(limits)
    case Snapshot(sequence, _, limits, _, jobs, _) =>
      sequence > 0 && ValidLimits(limits) && forall i | 0 <= i < |jobs| :: JobParses(jobs[i])
  }

  // ---------------------------------------------------------------------
  // Queries
  // ---------------------------------------------------------------------

  function ActiveIds(jobs: map<Id, Job>): set<Id> {
    set id | id in jobs && jobs[id].stage.Active()
  }

  function QueuedIds(jobs: map<Id, Job>): set<Id> {
    set id | id in jobs && jobs[id].stage.Queued?
  }

  datatype Classification = Dispatch | Queue | Reject

  function ClassifyNew(s: State): Classification {
    if |ActiveIds(s.jobs)| < s.limits.maxActive then Dispatch
    else if |QueuedIds(s.jobs)| < s.limits.maxQueued then Queue
    else Reject
  }

  /** The command, the run and the worker are all new to the ledger. */
  predicate New(s: State, job: Identity) {
    && job.jobId !in s.jobs && job.jobId !in s.rejections
    && (forall id | id in s.jobs :: s.jobs[id].identity.runId != job.runId)
    && (forall id | id in s.jobs :: s.jobs[id].identity.workerId != job.workerId)
  }

  predicate Oldest(jobs: map<Id, Job>, id: Id) {
    && id in jobs && jobs[id].stage.Queued?
    && forall other | other in jobs && jobs[other].stage.Queued? :: jobs[id].stage.place <= jobs[other].stage.place
  }

  // ---------------------------------------------------------------------
  // Closing checks
  // ---------------------------------------------------------------------

  predicate UniqueRuns(jobs: map<Id, Job>) {
    forall a, b | a in jobs && b in jobs && a != b :: jobs[a].identity.runId != jobs[b].identity.runId
  }

  predicate UniqueWorkers(jobs: map<Id, Job>) {
    forall a, b | a in jobs && b in jobs && a != b :: jobs[a].identity.workerId != jobs[b].identity.workerId
  }

  predicate UniquePlaces(jobs: map<Id, Job>) {
    forall a, b | a in jobs && b in jobs && a != b && jobs[a].stage.HoldsPlace() && jobs[b].stage.HoldsPlace() ::
      jobs[a].stage.place != jobs[b].stage.place
  }

  predicate Decided(jobs: map<Id, Job>, rejections: map<Id, Rejection>) {
    forall id | id in rejections :: id !in jobs
  }

  /** The checks made on every new state before it is returned. */
  function Finalized(s: State): Outcome {
    if !UniqueRuns(s.jobs) || !UniqueWorkers(s.jobs) || !Decided(s.jobs, s.rejections) then Err(InvalidTransition)
    else if |ActiveIds(s.jobs)| > s.limits.maxActive then Err(CapacityExceeded)
    else if |QueuedIds(s.jobs)| > s.limits.maxQueued then Err(CapacityExceeded)
    else if !UniquePlaces(s.jobs) then Err(InvalidTransition)
    else Ok(s)
  }

  // ---------------------------------------------------------------------
  // Transitions
  // ---------------------------------------------------------------------

  function Placed(s: State, job: Identity, stage: Stage): State {
    s.(jobs := s.jobs[job.jobId := Job(job, stage)])
  }

  function Moved(s: State, id: Id, stage: Stage): State
    requires id in s.jobs
  {
    s.(jobs := s.jobs[id := s.jobs[id].(stage := stage)])
  }

  /** The per-event guards, and the change an event makes when they hold. */
  function Guarded(s: State, e: Event): Outcome {
    match e
    case JobEnqueued(_, _, job, place, at) =>
      if !New(s, job) || ClassifyNew(s).Dispatch? then Err(InvalidTransition)
      else if ClassifyNew(s).Reject? then Err(CapacityExceeded)
      else if place != s.lastPlace + 1 then Err(InvalidTransition)
      else Ok(Placed(s, job, Queued(place, at)).(lastPlace := place))
    case JobRejected(_, _, jobId, runId, requestDigest, at) =>
      if jobId in s.jobs || jobId in s.rejections || !ClassifyNew(s).Reject? then Err(InvalidTransition)
      else Ok(s.(rejections := s.rejections[jobId := Rejection(jobId, runId, requestDigest, at)]))
    case RejectionCommitted(_, _, jobId, requestDigest, _) =>
      if jobId !in s.rejections || s.rejections[jobId].requestDigest != requestDigest then Err(InvalidTransition)
      else Ok(s.(rejections := s.rejections - {jobId}))
    case DispatchReserved(_, _, job, position, at) => GuardedDispatch(s, job, position, at)
    case WorkerAccepted(_, _, jobId, workerId, at) =>
      if jobId !in s.jobs || !s.jobs[jobId].stage.Dispatching? || s.jobs[jobId].identity.workerId != workerId
      then Err(InvalidTransition)
      else Ok(Moved(s, jobId, Accepted(s.jobs[jobId].stage.position, at)))
    case CancellationRecorded(_, _, jobId, commandId, actor, reason, at) =>
      if jobId !in s.jobs || !s.jobs[jobId].stage.Queued? then Err(InvalidTransition)
      else Ok(Moved(s, jobId, Cancelling(s.jobs[jobId].stage.place, commandId, actor, reason, at)))
    case CancellationCompleted(_, _, jobId, commandId, _) =>
      if jobId !in s.jobs || !s.jobs[jobId].stage.Cancelling? || s.jobs[jobId].stage.commandId != commandId
      then Err(InvalidTransition)
      else Ok(s.(jobs := s.jobs - {jobId}))
    case JobUncertain(_, _, jobId, failure, at) =>
      if jobId !in s.jobs || !(s.jobs[jobId].stage.Dispatching? || s.jobs[jobId].stage.Accepted?)
      then Err(InvalidTransition)
      else Ok(Moved(s, jobId, Uncertain(s.jobs[jobId].stage.position, failure, at)))
    case JobReleased(_, _, jobId, _) =>
      if jobId !in s.jobs || !s.jobs[jobId].stage.Active() then Err(InvalidTransition)
      else Ok(s.(jobs := s.jobs - {jobId}))
  }

  /** A new job may start at once; a queued one only as the oldest, unchanged. */
  function GuardedDispatch(s: State, job: Identity, position: Option<nat>, at: Time): Outcome {
    if job.jobId !in s.jobs && (!New(s, job) || position.Some?) then Err(InvalidTransition)
    else if job.jobId in s.jobs &&
            (|| !s.jobs[job.jobId].stage.Queued? || s.jobs[job.jobId].identity != job
             || position != Some(s.jobs[job.jobId].stage.place) || !Oldest(s.jobs, job.jobId))
    then Err(InvalidTransition)
    else if |ActiveIds(s.jobs)| >= s.limits.maxActive then Err(CapacityExceeded)
    else Ok(Placed(s, job, Dispatching(position, at)))
  }

  function Applied(s: State, e: Event): Outcome {
    if e.sequence != s.lastSequence + 1 then Err(InvalidEvent)
    else if e.policy != s.policy then Err(PolicyMismatch)
    else match Guarded(s, e)
      case Err(error) => Err(error)
      case Ok(next) => Finalized(next.(lastSequence := e.sequence, events := s.events + [e]))
  }

  // ---------------------------------------------------------------------
  // Ledgers
  // ---------------------------------------------------------------------

  /** The entries by identifier, or None when two share one. */
  function JobsById(jobs: seq<Job>): Option<map<Id, Job>> {
    if |jobs| == 0 then Some(map[])
    else match JobsById(jobs[..|jobs| - 1])
      case None => None
      case Some(before) =>
        var job := jobs[|jobs| - 1];
        if job.identity.jobId in before then None else Some(before[job.identity.jobId := job])
  }

  function RejectionsById(rejections: seq<Rejection>, jobs: map<Id, Job>): Option<map<Id, Rejection>> {
    if |rejections| == 0 then Some(map[])
    else match RejectionsById(rejections[..|rejections| - 1], jobs)
      case None => None
      case Some(before) =>
        var rejection := rejections[|rejections| - 1];
        if rejection.jobId in before
          || rejection.jobId in jobs then None else Some(before[rejection.jobId := rejection])
  }

  function Started(root: Root): Outcome {
    match root
    case Initialized(policy, limits) => Finalized(State(policy, limits, 1, 0, map[], map[], []))
    case Snapshot(sequence, policy, limits, lastPlace, jobs, rejections) =>
      match JobsById(jobs)
      case None => Err(InvalidTransition)
      case Some(byId) =>
        match RejectionsById(rejections, byId)
        case None => Err(InvalidTransition)
        case Some(rejected) =>
          if exists i :: 0 <= i < |jobs| && jobs[i].stage.Position().Some? && jobs[i].stage.Position().value > lastPlace
          then Err(InvalidTransition)
          else Finalized(State(policy, limits, sequence, lastPlace, byId, rejected, []))
  }

  predicate Parses(r: Record) {
    match r case Rooted(root) => RootParses(root) case Stepped(e) => EventParses(e)
  }

  /** The fold of a ledger: every record parses, the first is a root and no other is. */
  function Reduced(ledger: seq<Record>): Outcome {
    if !(forall i | 0 <= i < |ledger| :: Parses(ledger[i])) || |ledger| == 0
      || !ledger[0].Rooted? then Err(InvalidEvent)
    else Continued(Started(ledger[0].root), ledger[1..])
  }

  function Continued(start: Outcome, tail: seq<Record>): Outcome {
    if |tail| == 0 then start
    else match Continued(start, tail[..|tail| - 1])
      case Err(error) => Err(error)
      case Ok(s) =>
        match tail[|tail| - 1]
        case Rooted(_) => Err(InvalidTransition)
        case Stepped(e) => Applied(s, e)
  }

  lemma {:induction false} ContinuedFails(start: Outcome, tail: seq<Record>, i: nat)
    requires i <= |tail| && Continued(start, tail[..i]).Err?
    ensures Continued(start, tail) == Continued(start, tail[..i])
  {
    if i == |tail| {
      assert tail[..i] == tail;
    } else {
      assert tail[..|tail| - 1][..i] == tail[..i];
      ContinuedFails(start, tail[..|tail| - 1], i);
    }
  }

  /** The reducer's loop. */
  method ReduceAdmissionEvents(ledger: seq<Record>) returns (outcome: Outcome)
    ensures outcome == Reduced(ledger)
  {
    for i := 0 to |ledger|
      invariant forall j | 0 <= j < i :: Parses(ledger[j])
    {
      if !Parses(ledger[i]) {
        return Err(InvalidEvent);
      }
    }
    if |ledger| == 0 || !ledger[0].Rooted? {
      return Err(InvalidEvent);
    }
    ghost var start := Started(ledger[0].root);
    outcome := StartState(ledger[0].root);
    if outcome.Err? {
      ContinuedFails(start, ledger[1..], 0);
      return;
    }
    var tail := ledger[1..];
    for i := 0 to |tail|
      invariant outcome.Ok? && outcome == Continued(start, tail[..i])
    {
      assert tail[..i + 1][..i] == tail[..i];
      outcome := match tail[i] case Rooted(_) => Err(InvalidTransition) case Stepped(e) => Applied(outcome.value, e);
      if outcome.Err? {
        ContinuedFails(start, tail, i + 1);
        return;
      }
    }
    assert tail[..|tail|] == tail;
  }

  lemma {:induction false} JobsByIdFails(jobs: seq<Job>, i: nat)
    requires i <= |jobs| && JobsById(jobs[..i]).None?
    ensures JobsById(jobs).None?
  {
    if i == |jobs| {
      assert jobs[..i] == jobs;
    } else {
      assert jobs[..|jobs| - 1][..i] == jobs[..i];
      JobsByIdFails(jobs[..|jobs| - 1], i);
    }
  }

  lemma {:induction false} RejectionsByIdFails(rejections: seq<Rejection>, jobs: map<Id, Job>, i: nat)
    requires i <= |rejections| && RejectionsById(rejections[..i], jobs).None?
    ensures RejectionsById(rejections, jobs).None?
  {
    if i == |rejections| {
      assert rejections[..i] == rejections;
    } else {
      assert rejections[..|rejections| - 1][..i] == rejections[..i];
      RejectionsByIdFails(rejections[..|rejections| - 1], jobs, i);
    }
  }

  /** The starting state, with the loops that read a snapshot's lists. */
  method StartState(root: Root) returns (outcome: Outcome)
    ensures outcome == Started(root)
  {
    if root.Initialized? {
      return Finalized(State(root.policy, root.limits, 1, 0, map[], map[], []));
    }
    var jobs: map<Id, Job>, highest := map[], 0;
    for i := 0 to |root.jobs|
      invariant JobsById(root.jobs[..i]) == Some(jobs)
      invariant highest > 0 ==> exists j :: 0 <= j < i && root.jobs[j].stage.Position() == Some(highest)
      invariant forall j | 0 <= j < i && root.jobs[j].stage.Position().Some? ::
                root.jobs[j].stage.Position().value <= highest
    {
      var job := root.jobs[i];
      assert root.jobs[..i + 1][..i] == root.jobs[..i];
      if job.identity.jobId in jobs {
        JobsByIdFails(root.jobs, i + 1);
        return Err(InvalidTransition);
      }
      jobs := jobs[job.identity.jobId := job];
      if job.stage.Position().Some? && job.stage.Position().value > highest {
        highest := job.stage.Position().value;
      }
    }
    assert root.jobs[..|root.jobs|] == root.jobs;
    var rejections: map<Id, Rejection> := map[];
    for i := 0 to |root.rejections|
      invariant RejectionsById(root.rejections[..i], jobs) == Some(rejections)
    {
      var rejection := root.rejections[i];
      assert root.rejections[..i + 1][..i] == root.rejections[..i];
      if rejection.jobId in rejections || rejection.jobId in jobs {
        RejectionsByIdFails(root.rejections, jobs, i + 1);
        return Err(InvalidTransition);
      }
      rejections := rejections[rejection.jobId := rejection];
    }
    assert root.rejections[..|root.rejections|] == root.rejections;
    if highest > root.lastPlace {
      return Err(InvalidTransition);
    }
    outcome := Finalized(State(root.policy, root.limits, root.sequence, root.lastPlace, jobs, rejections, []));
  }
}
