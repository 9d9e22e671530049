/** The relay between a sandboxed driver and its host: one frame at a time, each
    inference request answered before the next frame is read. */
module DriverRelay {
  import opened Standard

  type Byte = bv8
  type Payload = seq<Byte>

  const LF: Byte := 10
  const CR: Byte := 13
  const MAX_INNER_FRAME_BYTES: nat := 1048576
  const MAX_DRIVER_FRAMES: nat := 512

  // ---------------------------------------------------------------------
  // Lines
  // ---------------------------------------------------------------------

  predicate Plain(payload: Payload) {
    1 <= |payload| <= MAX_INNER_FRAME_BYTES && LF !in payload && CR !in payload
  }

  /** What one call of the writer does: it takes some bytes, none, or fails. */
  datatype Write = Took(count: nat) | Fails

  datatype WriteResult = Written | LineInvalid | ShortWrite | WriteFailed

  /** The writing loop, under whatever short writes the writer makes.  A writer takes no
      more than it is given. */
  method WriteInnerLine(payload: Payload, writes: seq<Write>) returns (result: WriteResult, sent: seq<Byte>, calls: nat)
    ensures result.LineInvalid? <==> !Plain(payload)
    ensures sent <= payload + [LF]
    ensures result.Written? ==> sent == payload + [LF]
    ensures calls <= |writes|
    ensures result.Written? || result.LineInvalid? ==> forall i | 0 <= i < calls ::
            writes[i].Took? && writes[i].count > 0
    ensures result.ShortWrite? ==> calls == |writes| || (calls < |writes| && writes[calls] == Took(0))
    ensures result.WriteFailed? ==> calls < |writes| && writes[calls].Fails?
  {
    sent, calls := [], 0;
    if !Plain(payload) {
      return LineInvalid, sent, calls;
    }
    var line := payload + [LF];
    while |line| > 0
      invariant sent + line == payload + [LF] && calls <= |writes|
      invariant forall i | 0 <= i < calls :: writes[i].Took? && writes[i].count > 0
      decreases |line|
    {
      if calls == |writes| {
        return ShortWrite, sent, calls;
      }
      match writes[calls]
      case Fails => return WriteFailed, sent, calls;
      case Took(count) =>
        if count == 0 {
          return ShortWrite, sent, calls;
        }
        var n := if count < |line| then count else |line|;
        assert line == line[..n] + line[n..];
        sent, line, calls := sent + line[..n], line[n..], calls + 1;
    }
    assert sent == payload + [LF];
    result := Written;
  }

  datatype ReadError = FrameTooLong | EndOfStream | LineRejected

  datatype Line = Line(payload: Payload, rest: seq<Byte>)

  /** The first line of a stream, as the buffered reader finds it. */
  function IndexOf(stream: seq<Byte>, b: Byte): (i: Option<nat>)
    ensures i.Some? ==> i.value < |stream| && stream[i.value] == b && b !in stream[..i.value]
    ensures i.None? ==> b !in stream
  {
    if |stream| == 0 then None
    else if stream[0] == b then Some(0)
    else match IndexOf(stream[1..], b)
      case None => None
      case Some(i) =>
        assert stream[..i + 1] == [stream[0]] + stream[1..][..i];
        Some(i + 1)
  }

  function ReadInnerLine(stream: seq<Byte>): Result<Line, ReadError> {
    match IndexOf(stream, LF)
    case None => if |stream| >= MAX_INNER_FRAME_BYTES + 2 then Err(FrameTooLong) else Err(EndOfStream)
    case Some(i) =>
      if i + 1 > MAX_INNER_FRAME_BYTES + 2 then Err(FrameTooLong)
      else if i + 1 < 2 || i + 1 > MAX_INNER_FRAME_BYTES + 1 || CR in stream[..i] then Err(LineRejected)
      else Ok(Line(stream[..i], stream[i + 1..]))
  }

  lemma {:induction false} IndexAfter(payload: Payload, rest: seq<Byte>)
    requires LF !in payload
    ensures IndexOf(payload + [LF] + rest, LF) == Some(|payload|)
  {
    var stream := payload + [LF] + rest;
    if |payload| > 0 {
      assert payload[0] in payload;
      assert stream[1..] == payload[1..] + [LF] + rest;
      assert forall b | b in payload[1..] :: b in payload;
      IndexAfter(payload[1..], rest);
    }
  }

  /** Reading undoes writing: of any stream that begins with a written line the reader
      returns the payload and leaves the rest; and it returns nothing but written lines. */
  lemma LinesRoundTrip(payload: Payload, rest: seq<Byte>)
    ensures Plain(payload) ==> ReadInnerLine(payload + [LF] + rest) == Ok(Line(payload, rest))
  {
    if Plain(payload) {
      var stream := payload + [LF] + rest;
      IndexAfter(payload, rest);
      assert stream[..|payload|] == payload && stream[|payload| + 1..] == rest;
    }
  }

  lemma OnlyWrittenLinesAreRead(stream: seq<Byte>)
    requires ReadInnerLine(stream).Ok?
    ensures var line := ReadInnerLine(stream).value;
            Plain(line.payload) && stream == line.payload + [LF] + line.rest
  {
    var i := IndexOf(stream, LF).value;
    assert stream == stream[..i] + [stream[i]] + stream[i + 1..];
  }

  // ---------------------------------------------------------------------
  // The relay
  // ---------------------------------------------------------------------

  datatype Kind = Ready | InferenceRequest | Other | Terminal

  /** A line of the driver, as it parses under the session's secret. */
  datatype DriverFrame = DriverFrame(payload: Payload, authentic: bool, sequence: nat, kind: Kind)

  /** A frame of the host: an answer is of the driver type and authentic. */
  datatype HostFrame = HostFrame(payload: Payload, answers: bool, authentic: bool, sequence: nat)

  /** What the relay does, in order. */
  datatype Act =
    | FromDriver(payload: Payload)
    | ToHost(payload: Payload)
    | FromHost(payload: Payload)
    | ToDriver(payload: Payload)
    | ToHostTerminal

  datatype Outcome = Relayed | BadBootstrap | DriverChannel | DriverRejected | HostChannel | HostRejected

  /** The acts of relaying these frames, with these answers, in turn. */
  function Relay(frames: seq<DriverFrame>, answers: seq<HostFrame>): seq<Act>
    requires Requests(frames) <= |answers|
  {
    if |frames| == 0 then []
    else
      var last := frames[|frames| - 1];
      var before := frames[..|frames| - 1];
      Relay(before, answers)
      + Exchange(last, if last.kind.InferenceRequest? then Some(answers[Requests(before)]) else None)
  }

  function Requests(frames: seq<DriverFrame>): (n: nat)
    ensures n <= |frames|
  {
    if |frames| == 0 then 0
    else Requests(frames[..|frames| - 1]) + if frames[|frames| - 1].kind.InferenceRequest? then 1 else 0
  }

  predicate DriverValid(frames: seq<DriverFrame>) {
    forall i | 0 <= i < |frames| ::
      frames[i].authentic && frames[i].sequence == i + 1 && (frames[i].kind.Ready? <==> i == 0)
  }

  predicate HostValid(answers: seq<HostFrame>, n: nat) {
    n <= |answers| && forall j | 0 <= j < n ::
      answers[j].answers && answers[j].authentic && answers[j].sequence == j + 2
  }

  /** The acts of relaying one frame, with its answer if it asks for one. */
  function Exchange(frame: DriverFrame, answer: Option<HostFrame>): seq<Act> {
    [FromDriver(frame.payload), ToHost(frame.payload)]
    + if answer.Some? then [FromHost(answer.value.payload), ToDriver(answer.value.payload)] else []
  }

  /** One more frame is one more exchange. */
  lemma RelayGrows(frames: seq<DriverFrame>, n: nat, answers: seq<HostFrame>)
    requires n < |frames|
    ensures Requests(frames[..n + 1]) == Requests(frames[..n]) + if frames[n].kind.InferenceRequest? then 1 else 0
    ensures Requests(frames[..n + 1]) <= |answers| ==>
              Relay(frames[..n + 1], answers) ==
              Relay(frames[..n], answers)
              + Exchange(frames[n], if frames[n].kind.InferenceRequest? then Some(answers[Requests(frames[..n])])
                else None)
  {
    assert frames[..n + 1][..n] == frames[..n];
  }

  predicate FrameFits(frame: DriverFrame, n: nat) {
    frame.authentic && frame.sequence == n + 1 && (frame.kind.Ready? <==> n == 0)
  }

  predicate AnswerFits(host: seq<HostFrame>, asked: nat) {
    asked < |host| && host[asked].answers && host[asked].authentic && host[asked].sequence == asked + 2
  }

  /** The session ends well with its n-th frame: its first terminal one. */
  predicate Completes(driver: seq<DriverFrame>, host: seq<HostFrame>, n: nat) {
    && 0 < n <= |driver| && n <= MAX_DRIVER_FRAMES
    && DriverValid(driver[..n]) && HostValid(host, Requests(driver[..n]))
    && driver[n - 1].kind.Terminal? && forall i | 0 <= i < n - 1 :: !driver[i].kind.Terminal?
  }

  /** Some first part of what the channels deliver is a session that ends well. */
  predicate CanEndWell(driver: seq<DriverFrame>, host: seq<HostFrame>) {
    exists n :: 0 < n <= |driver| && Completes(driver, host, n)
  }

  lemma {:induction false} RequestsGrow(driver: seq<DriverFrame>, n: nat, m: nat)
    requires n <= m <= |driver|
    ensures Requests(driver[..n]) <= Requests(driver[..m])
    decreases m
  {
    if n < m {
      assert driver[..m][..m - 1] == driver[..m - 1];
      RequestsGrow(driver, n, m - 1);
    }
  }

  /** A session that ends well after its first n frames, none of them terminal, goes on
      with a frame that fits and has its answer. */
  lemma GoesOn(driver: seq<DriverFrame>, host: seq<HostFrame>, n: nat, m: nat)
    requires n <= |driver| && Completes(driver, host, m) && forall i | 0 <= i < n :: !driver[i].kind.Terminal?
    ensures n < |driver| && n < MAX_DRIVER_FRAMES && FrameFits(driver[n], n)
    ensures driver[n].kind.InferenceRequest? ==> AnswerFits(host, Requests(driver[..n]))
  {
    assert n < m;
    assert driver[..m][n] == driver[n];
    RequestsGrow(driver, n + 1, m);
    assert driver[..n + 1][..n] == driver[..n];
  }

  /** Where the next frame, or its answer, does not fit, the session cannot end well. */
  lemma NeverEndsWell(driver: seq<DriverFrame>, host: seq<HostFrame>, n: nat)
    requires n <= |driver| && forall i | 0 <= i < n :: !driver[i].kind.Terminal?
    requires || n == |driver| || n >= MAX_DRIVER_FRAMES || !FrameFits(driver[n], n)
             || (driver[n].kind.InferenceRequest? && !AnswerFits(host, Requests(driver[..n])))
    ensures !exists m :: Completes(driver, host, m)
  {
    forall m: nat
      ensures !Completes(driver, host, m)
    {
      if Completes(driver, host, m) {
        GoesOn(driver, host, n, m);
      }
    }
  }

  /** The first n driver frames have been relayed, and answered where they asked. */
  predicate Exchanged(bootstrap: Payload, driver: seq<DriverFrame>, n: nat, host: seq<HostFrame>, acts: seq<Act>) {
    && n <= |driver| && n <= MAX_DRIVER_FRAMES
    && DriverValid(driver[..n]) && HostValid(host, Requests(driver[..n]))
    && acts == [ToDriver(bootstrap)] + Relay(driver[..n], host) && ToHostTerminal !in acts
  }

  lemma ValidGrows(driver: seq<DriverFrame>, n: nat, host: seq<HostFrame>)
    requires n < |driver| && DriverValid(driver[..n]) && HostValid(host, Requests(driver[..n]))
    requires FrameFits(driver[n], n)
    requires driver[n].kind.InferenceRequest? ==> AnswerFits(host, Requests(driver[..n]))
    ensures DriverValid(driver[..n + 1]) && HostValid(host, Requests(driver[..n + 1]))
  {
    RelayGrows(driver, n, host);
    assert forall i | 0 <= i < n :: driver[..n + 1][i] == driver[..n][i];
    assert driver[..n + 1][n] == driver[n];
  }

  lemma ExchangeGrows(bootstrap: Payload, driver: seq<DriverFrame>, n: nat, host: seq<HostFrame>, acts: seq<Act>,
                      exchange: seq<Act>)
    requires Exchanged(bootstrap, driver, n, host, acts) && n < |driver| && n < MAX_DRIVER_FRAMES
    requires FrameFits(driver[n], n)
    requires var asked := Requests(driver[..n]);
             if driver[n].kind.InferenceRequest?
             then AnswerFits(host, asked) && exchange == Exchange(driver[n], Some(host[asked]))
             else exchange == Exchange(driver[n], None)
    ensures Exchanged(bootstrap, driver, n + 1, host, acts + exchange)
    ensures Requests(driver[..n + 1]) == Requests(driver[..n]) + if driver[n].kind.InferenceRequest? then 1 else 0
  {
    ValidGrows(driver, n, host);
    RelayGrows(driver, n, host);
    assert acts + exchange == [ToDriver(bootstrap)] + (Relay(driver[..n], host) + exchange);
  }

  /** The whole transcript of a session that ended well: every exchange in turn and the
      terminal marker; the host received the frames and the driver the answers. */
  predicate Transcribed(bootstrap: Payload, driver: seq<DriverFrame>, n: nat, host: seq<HostFrame>, acts: seq<Act>) {
    && Completes(driver, host, n)
    && acts == [ToDriver(bootstrap)] + Relay(driver[..n], host) + [ToHostTerminal]
    && HostReceived(acts) == Payloads(driver[..n])
    && DriverReceived(acts) == [bootstrap] + Answers(host, Requests(driver[..n]))
  }

  lemma EndsWell(bootstrap: Payload, driver: seq<DriverFrame>, n: nat, host: seq<HostFrame>, acts: seq<Act>)
    requires Exchanged(bootstrap, driver, n, host, acts) && 0 < n && driver[n - 1].kind.Terminal?
    requires forall i | 0 <= i < n - 1 :: !driver[i].kind.Terminal?
    ensures Transcribed(bootstrap, driver, n, host, acts + [ToHostTerminal]) && CanEndWell(driver, host)
  {
    WholeTranscript(bootstrap, driver[..n], host);
    assert Completes(driver, host, n);
  }

  /** The acts of a session up to and with its n-th exchange. */
  function Whole(bootstrap: Payload, driver: seq<DriverFrame>, n: nat, host: seq<HostFrame>): seq<Act>
    requires n <= |driver|
  {
    [ToDriver(bootstrap)] + if Requests(driver[..n]) <= |host| then Relay(driver[..n], host) else []
  }

  predicate Unanswered(outcome: Outcome) {
    outcome.HostChannel? || outcome.HostRejected?
  }

  /** Why a session stops after its n-th exchange: no more frames, a frame that does not
      fit, no answer to a request that was passed on, or one that does not fit. */
  predicate Stops(driver: seq<DriverFrame>, n: nat, host: seq<HostFrame>, outcome: Outcome)
    requires n <= |driver|
  {
    match outcome
    case DriverChannel => n == |driver|
    case DriverRejected => n < |driver| && (n >= MAX_DRIVER_FRAMES || !FrameFits(driver[n], n))
    case HostChannel =>
      && n < |driver| && n < MAX_DRIVER_FRAMES && FrameFits(driver[n], n) && driver[n].kind.InferenceRequest?
      && Requests(driver[..n]) == |host|
    case HostRejected =>
      && n < |driver| && n < MAX_DRIVER_FRAMES && FrameFits(driver[n], n) && driver[n].kind.InferenceRequest?
      && Requests(driver[..n]) < |host| && !AnswerFits(host, Requests(driver[..n]))
    case _ => false
  }

  /** What was passed on by a session that stopped: its exchanges so far, and the request
      that has no good answer. */
  predicate Ended(bootstrap: Payload, driver: seq<DriverFrame>, n: nat, host: seq<HostFrame>, outcome: Outcome,
                  acts: seq<Act>) {
    && n <= |driver| && Stops(driver, n, host, outcome)
    && Exchanged(bootstrap, driver, n, host, Whole(bootstrap, driver, n, host))
    && ToHostTerminal !in acts
    && acts == Whole(bootstrap, driver, n, host) + if Unanswered(outcome) then Exchange(driver[n], None) else []
  }

  /** A session that goes on: its first n frames have been relayed, none of them terminal. */
  predicate GoingOn(bootstrap: Payload, driver: seq<DriverFrame>, n: nat, host: seq<HostFrame>, acts: seq<Act>) {
    Exchanged(bootstrap, driver, n, host, acts) && forall i | 0 <= i < n :: !driver[i].kind.Terminal?
  }

  lemma StopsHere(bootstrap: Payload, driver: seq<DriverFrame>, n: nat, host: seq<HostFrame>, acts: seq<Act>,
                  outcome: Outcome)
    requires GoingOn(bootstrap, driver, n, host, acts) && Stops(driver, n, host, outcome)
    ensures !CanEndWell(driver, host)
    ensures !Unanswered(outcome) ==> Ended(bootstrap, driver, n, host, outcome, acts)
    ensures Unanswered(outcome) ==> Ended(bootstrap, driver, n, host, outcome, acts + Exchange(driver[n], None))
  {
    NeverEndsWell(driver, host, n);
    assert acts == Whole(bootstrap, driver, n, host);
    assert acts + [] == acts;
  }

  /** A frame that fits, with its answer if it asks for one, either ends the session well
      or lets it go on. */
  lemma Relays(bootstrap: Payload, driver: seq<DriverFrame>, n: nat, host: seq<HostFrame>, acts: seq<Act>,
               exchange: seq<Act>)
    requires n < |driver| && n < MAX_DRIVER_FRAMES
    requires GoingOn(bootstrap, driver, n, host, acts) && FrameFits(driver[n], n)
    requires var asked := Requests(driver[..n]);
             if driver[n].kind.InferenceRequest?
             then AnswerFits(host, asked) && exchange == Exchange(driver[n], Some(host[asked]))
             else exchange == Exchange(driver[n], None)
    ensures Requests(driver[..n + 1]) == Requests(driver[..n]) + if driver[n].kind.InferenceRequest? then 1 else 0
    ensures if driver[n].kind.Terminal?
            then CanEndWell(driver, host)
                 && Transcribed(bootstrap, driver, n + 1, host, acts + exchange + [ToHostTerminal])
            else GoingOn(bootstrap, driver, n + 1, host, acts + exchange)
  {
    ExchangeGrows(bootstrap, driver, n, host, acts, exchange);
    if driver[n].kind.Terminal? {
      EndsWell(bootstrap, driver, n + 1, host, acts + exchange);
    }
  }

  /** How a session ends, what was done in it and how many frames were relayed in full. */
  datatype Session = Session(outcome: Outcome, acts: seq<Act>, frames: nat)

  /** The session after its n-th exchange, over what the two channels deliver; a channel
      that delivers no more has failed. */
  function Continued(driver: seq<DriverFrame>, host: seq<HostFrame>, n: nat, asked: nat, acts: seq<Act>): Session
    requires n <= |driver|
    decreases |driver| - n
  {
    if n == |driver| then Session(DriverChannel, acts, n)
    else if n >= MAX_DRIVER_FRAMES || !FrameFits(driver[n], n) then Session(DriverRejected, acts, n)
    else if !driver[n].kind.InferenceRequest? then
      var more := acts + Exchange(driver[n], None);
      if driver[n].kind.Terminal? then Session(Relayed, more + [ToHostTerminal], n + 1)
      else Continued(driver, host, n + 1, asked, more)
    else if asked >= |host| then Session(HostChannel, acts + Exchange(driver[n], None), n)
    else if !AnswerFits(host, asked) then Session(HostRejected, acts + Exchange(driver[n], None), n)
    else Continued(driver, host, n + 1, asked + 1, acts + Exchange(driver[n], Some(host[asked])))
  }

  function RelaySession(bootstrap: Payload, valid: bool, driver: seq<DriverFrame>, host: seq<HostFrame>): Session {
    if !valid || !Plain(bootstrap) then Session(BadBootstrap, [], 0)
    else Continued(driver, host, 0, 0, [ToDriver(bootstrap)])
  }

  /** The relay's loop, with the sequence numbers it expects on either side. */
  method RelayDriver(bootstrap: Payload, valid: bool, driver: seq<DriverFrame>, host: seq<HostFrame>)
    returns (outcome: Outcome, acts: seq<Act>, frames: nat)
    ensures Session(outcome, acts, frames) == RelaySession(bootstrap, valid, driver, host)
  {
    acts, frames := [], 0;
    if !valid || !Plain(bootstrap) {
      return BadBootstrap, acts, frames;
    }
    acts := [ToDriver(bootstrap)];
    var driverSequence, parentSequence, ready := 1, 2, false;
    while frames < |driver|
      invariant frames <= |driver| && driverSequence == frames + 1 && parentSequence >= 2 && (ready <==> frames > 0)
      invariant RelaySession(bootstrap, valid, driver, host) ==
                Continued(driver, host, frames, parentSequence - 2, acts)
      decreases |driver| - frames
    {
      var frame := driver[frames];
      if frames + 1 > MAX_DRIVER_FRAMES || !frame.authentic || frame.sequence != driverSequence {
        return DriverRejected, acts, frames;
      }
      driverSequence := driverSequence + 1;
      if !ready {
        if !frame.kind.Ready? {
          return DriverRejected, acts, frames;
        }
        ready := true;
      } else if frame.kind.Ready? {
        return DriverRejected, acts, frames;
      }
      assert Exchange(frame, None) == [FromDriver(frame.payload), ToHost(frame.payload)];
      ghost var before := acts;
      acts := acts + [FromDriver(frame.payload), ToHost(frame.payload)];
      match frame.kind {
        case InferenceRequest =>
          if parentSequence - 2 >= |host| {
            return HostChannel, acts, frames;
          }
          var answer := host[parentSequence - 2];
          if !answer.answers || !answer.authentic || answer.sequence != parentSequence {
            return HostRejected, acts, frames;
          }
          parentSequence := parentSequence + 1;
          acts := acts + [FromHost(answer.payload), ToDriver(answer.payload)];
          assert acts == before + Exchange(frame, Some(answer));
        case Terminal => return Relayed, acts + [ToHostTerminal], frames + 1;
        case _ =>
      }
      frames := frames + 1;
    }
    outcome := DriverChannel;
  }

  /** What holds of a session, however it ends. */
  predicate Accounted(bootstrap: Payload, driver: seq<DriverFrame>, host: seq<HostFrame>, session: Session) {
    if session.outcome.Relayed? then
      CanEndWell(driver, host) && Transcribed(bootstrap, driver, session.frames, host, session.acts)
    else
      !CanEndWell(driver, host) && Ended(bootstrap, driver, session.frames, host, session.outcome, session.acts)
  }

  lemma {:induction false} SessionGoesOn(bootstrap: Payload, driver: seq<DriverFrame>, host: seq<HostFrame>, n: nat,
                                         acts: seq<Act>)
    requires GoingOn(bootstrap, driver, n, host, acts)
    ensures Accounted(bootstrap, driver, host, Continued(driver, host, n, Requests(driver[..n]), acts))
    decreases |driver| - n
  {
    var asked := Requests(driver[..n]);
    var session := Continued(driver, host, n, asked, acts);
    if n == |driver| || n >= MAX_DRIVER_FRAMES || !FrameFits(driver[n], n)
       || (driver[n].kind.InferenceRequest? && !AnswerFits(host, asked)) {
      StopsHere(bootstrap, driver, n, host, acts, session.outcome);
    } else {
      var exchange := Exchange(driver[n], if driver[n].kind.InferenceRequest? then Some(host[asked]) else None);
      Relays(bootstrap, driver, n, host, acts, exchange);
      if !driver[n].kind.Terminal? {
        SessionGoesOn(bootstrap, driver, host, n + 1, acts + exchange);
      }
    }
  }

  /** A session succeeds exactly when the bootstrap is good and some first terminal frame
      ends a valid session, and then its transcript is complete; else it stops for a cause
      after whole exchanges, with at most one request passed on that has no good answer. */
  lemma SessionExactly(bootstrap: Payload, valid: bool, driver: seq<DriverFrame>, host: seq<HostFrame>)
    ensures var session := RelaySession(bootstrap, valid, driver, host);
            if valid && Plain(bootstrap) then Accounted(bootstrap, driver, host, session)
            else session == Session(BadBootstrap, [], 0)
  {
    if valid && Plain(bootstrap) {
      assert driver[..0] == [];
      assert [ToDriver(bootstrap)] + [] == [ToDriver(bootstrap)];
      SessionGoesOn(bootstrap, driver, host, 0, [ToDriver(bootstrap)]);
    }
  }

  // ---------------------------------------------------------------------
  // What the transcript says of each side
  // ---------------------------------------------------------------------

  /** What the host received, and what the driver received, of a transcript. */
  function HostReceived(acts: seq<Act>): seq<Payload> {
    if |acts| == 0 then []
    else
      var last := acts[|acts| - 1];
      HostReceived(acts[..|acts| - 1]) + if last.ToHost? then [last.payload] else []
  }

  function DriverReceived(acts: seq<Act>): seq<Payload> {
    if |acts| == 0 then []
    else
      var last := acts[|acts| - 1];
      DriverReceived(acts[..|acts| - 1]) + if last.ToDriver? then [last.payload] else []
  }

  lemma {:induction false} ReceivedInTwo(a: seq<Act>, b: seq<Act>)
    ensures HostReceived(a + b) == HostReceived(a) + HostReceived(b)
    ensures DriverReceived(a + b) == DriverReceived(a) + DriverReceived(b)
  {
    if |b| == 0 {
      assert a + b == a;
    } else {
      assert (a + b)[..|a + b| - 1] == a + b[..|b| - 1];
      ReceivedInTwo(a, b[..|b| - 1]);
    }
  }

  function Payloads(frames: seq<DriverFrame>): seq<Payload> {
    seq(|frames|, i requires 0 <= i < |frames| => frames[i].payload)
  }

  function Answers(answers: seq<HostFrame>, n: nat): seq<Payload>
    requires n <= |answers|
  {
    seq(n, j requires 0 <= j < n => answers[j].payload)
  }

  lemma ExchangeReceived(frame: DriverFrame, answer: Option<HostFrame>)
    ensures HostReceived(Exchange(frame, answer)) == [frame.payload]
    ensures DriverReceived(Exchange(frame, answer)) == if answer.Some? then [answer.value.payload] else []
  {
    PairReceived(FromDriver(frame.payload), ToHost(frame.payload));
    if answer.Some? {
      PairReceived(FromHost(answer.value.payload), ToDriver(answer.value.payload));
      ReceivedInTwo([FromDriver(frame.payload), ToHost(frame.payload)],
                    [FromHost(answer.value.payload), ToDriver(answer.value.payload)]);
    } else {
      assert Exchange(frame, answer) == [FromDriver(frame.payload), ToHost(frame.payload)];
    }
  }

  lemma PairReceived(a: Act, b: Act)
    ensures HostReceived([a, b]) == (if a.ToHost? then [a.payload] else []) + if b.ToHost? then [b.payload] else []
    ensures DriverReceived([a, b]) == (if a.ToDriver? then [a.payload] else []) + if b.ToDriver? then [b.payload]
            else []
  {
    assert [a, b][..1] == [a] && [a][..0] == [];
    assert HostReceived([a]) == if a.ToHost? then [a.payload] else [];
    assert DriverReceived([a]) == if a.ToDriver? then [a.payload] else [];
  }

  lemma ListsGrow(frames: seq<DriverFrame>, answers: seq<HostFrame>, n: nat)
    requires |frames| > 0
    ensures Payloads(frames) == Payloads(frames[..|frames| - 1]) + [frames[|frames| - 1].payload]
    ensures n < |answers| ==> Answers(answers, n + 1) == Answers(answers, n) + [answers[n].payload]
  {
  }

  /** The host received exactly the driver's frames, in order; the driver received
      exactly one answer per inference request, in order. */
  lemma {:induction false} TranscriptIsComplete(frames: seq<DriverFrame>, answers: seq<HostFrame>)
    requires Requests(frames) <= |answers|
    ensures HostReceived(Relay(frames, answers)) == Payloads(frames)
    ensures DriverReceived(Relay(frames, answers)) == Answers(answers, Requests(frames))
    decreases |frames|
  {
    if |frames| > 0 {
      var before := frames[..|frames| - 1];
      TranscriptIsComplete(before, answers);
      LastExchange(frames, answers, Relay(before, answers));
    }
  }

  lemma LastExchange(frames: seq<DriverFrame>, answers: seq<HostFrame>, earlier: seq<Act>)
    requires |frames| > 0 && Requests(frames) <= |answers|
    requires earlier == Relay(frames[..|frames| - 1], answers)
    requires HostReceived(earlier) == Payloads(frames[..|frames| - 1])
    requires DriverReceived(earlier) == Answers(answers, Requests(frames[..|frames| - 1]))
    ensures HostReceived(Relay(frames, answers)) == Payloads(frames)
    ensures DriverReceived(Relay(frames, answers)) == Answers(answers, Requests(frames))
  {
    var n, last := Requests(frames[..|frames| - 1]), frames[|frames| - 1];
    var answer := if last.kind.InferenceRequest? then Some(answers[n]) else None;
    assert Relay(frames, answers) == earlier + Exchange(last, answer);
    ExchangeReceived(last, answer);
    ReceivedInTwo(earlier, Exchange(last, answer));
    ListsGrow(frames, answers, n);
  }

  lemma SingleReceived(act: Act)
    ensures HostReceived([act]) == if act.ToHost? then [act.payload] else []
    ensures DriverReceived([act]) == if act.ToDriver? then [act.payload] else []
  {
    assert [act][..0] == [];
  }

  /** ... from the bootstrap, which the driver received first, to the terminal marker. */
  lemma WholeTranscript(bootstrap: Payload, frames: seq<DriverFrame>, answers: seq<HostFrame>)
    requires Requests(frames) <= |answers|
    ensures var acts := [ToDriver(bootstrap)] + Relay(frames, answers) + [ToHostTerminal];
            && HostReceived(acts) == Payloads(frames)
            && DriverReceived(acts) == [bootstrap] + Answers(answers, Requests(frames))
  {
    var middle := Relay(frames, answers);
    TranscriptIsComplete(frames, answers);
    SingleReceived(ToDriver(bootstrap));
    SingleReceived(ToHostTerminal);
    ReceivedInTwo([ToDriver(bootstrap)], middle);
    ReceivedInTwo([ToDriver(bootstrap)] + middle, [ToHostTerminal]);
  }
}
