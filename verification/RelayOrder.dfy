/** In which order the relay acts on its two sides, and why it refuses a line. */
module RelayOrder {
  import opened Standard
  import opened DriverRelay

  /** Where the exchange of the n-th frame begins. */
  function At(frames: seq<DriverFrame>, n: nat): nat
    requires n <= |frames|
  {
    2 * n + 2 * Requests(frames[..n])
  }

  lemma {:induction false} RelayLength(frames: seq<DriverFrame>, answers: seq<HostFrame>)
    requires Requests(frames) <= |answers|
    ensures |Relay(frames, answers)| == At(frames, |frames|)
  {
    assert frames[..|frames|] == frames;
    if |frames| > 0 {
      var before := frames[..|frames| - 1];
      RelayLength(before, answers);
      assert before[..|before|] == before;
    }
  }

  /** A frame is read, then passed to the host; if it asks for an answer, that answer is
      read from the host only then, and passed to the driver before anything else is read. */
  predicate InTurn(acts: seq<Act>, at: nat, frame: DriverFrame, answer: Option<HostFrame>) {
    && at + 1 < |acts| && acts[at] == FromDriver(frame.payload) && acts[at + 1] == ToHost(frame.payload)
    && (answer.Some? ==>
          && at + 3 < |acts| && acts[at + 2] == FromHost(answer.value.payload)
          && acts[at + 3] == ToDriver(answer.value.payload))
  }

  function AnswerTo(frames: seq<DriverFrame>, n: nat, answers: seq<HostFrame>): Option<HostFrame>
    requires n < |frames| && Requests(frames[..n + 1]) <= |answers|
  {
    if frames[n].kind.InferenceRequest? then
      RelayGrows(frames, n, answers);
      Some(answers[Requests(frames[..n])])
    else None
  }

  lemma ExchangeInTurn(earlier: seq<Act>, frame: DriverFrame, answer: Option<HostFrame>)
    ensures InTurn(earlier + Exchange(frame, answer), |earlier|, frame, answer)
  {
    var acts, at := earlier + Exchange(frame, answer), |earlier|;
    assert acts[at] == Exchange(frame, answer)[0] && acts[at + 1] == Exchange(frame, answer)[1];
    if answer.Some? {
      assert acts[at + 2] == Exchange(frame, answer)[2] && acts[at + 3] == Exchange(frame, answer)[3];
    }
  }

  lemma InTurnStill(acts: seq<Act>, more: seq<Act>, at: nat, frame: DriverFrame, answer: Option<HostFrame>)
    requires InTurn(acts, at, frame, answer)
    ensures InTurn(acts + more, at, frame, answer)
  {
  }

  /** One frame more is one exchange more. */
  lemma RelayLast(frames: seq<DriverFrame>, answers: seq<HostFrame>)
    requires |frames| > 0 && Requests(frames) <= |answers|
    ensures var last := |frames| - 1;
            && Requests(frames[..last + 1]) <= |answers| && Requests(frames[..last]) <= |answers|
            && Relay(frames, answers) ==
              Relay(frames[..last], answers) + Exchange(frames[last], AnswerTo(frames, last, answers))
            && |Relay(frames[..last], answers)| == At(frames, last)
  {
    var last := |frames| - 1;
    assert frames[..last + 1] == frames && frames[..last][..last] == frames[..last];
    RelayGrows(frames, last, answers);
    RelayLength(frames[..last], answers);
  }

  /** The acts of a relay are its exchanges, one after the other, each with its acts in turn. */
  lemma {:induction false} ExchangesInTurn(frames: seq<DriverFrame>, answers: seq<HostFrame>, n: nat)
    requires Requests(frames) <= |answers| && n < |frames|
    ensures Requests(frames[..n + 1]) <= |answers|
    ensures InTurn(Relay(frames, answers), At(frames, n), frames[n], AnswerTo(frames, n, answers))
    decreases |frames|
  {
    var last := |frames| - 1;
    RelayLast(frames, answers);
    var exchange := Exchange(frames[last], AnswerTo(frames, last, answers));
    var before := frames[..last];
    if n < last {
      ExchangesInTurn(before, answers, n);
      assert before[..n] == frames[..n] && before[..n + 1] == frames[..n + 1];
      InTurnStill(Relay(before, answers), exchange, At(frames, n), frames[n], AnswerTo(frames, n, answers));
    } else {
      ExchangeInTurn(Relay(before, answers), frames[last], AnswerTo(frames, last, answers));
    }
  }

  /** Places in the order of the four acts that a request and the next frame lead to. */
  predicate InSequence(acts: seq<Act>, request: Payload, answer: Payload, next: Payload, i: nat, l: nat) {
    && i + 2 < l < |acts|
    && acts[i] == ToHost(request) && acts[i + 1] == FromHost(answer) && acts[i + 2] == ToDriver(answer)
    && acts[l] == FromDriver(next)
  }

  /** Seen across the two sides: a request reaches the host before its answer is read, the
      answer reaches the driver next, and all this before any later frame is read. */
  lemma AnswersFollowRequests(frames: seq<DriverFrame>, answers: seq<HostFrame>, n: nat, m: nat)
    requires Requests(frames) <= |answers| && n < m < |frames| && frames[n].kind.InferenceRequest?
    ensures Requests(frames[..n]) < |answers|
    ensures exists i, l :: InSequence(Relay(frames, answers), frames[n].payload,
                                      answers[Requests(frames[..n])].payload, frames[m].payload, i, l)
  {
    ExchangesInTurn(frames, answers, n);
    ExchangesInTurn(frames, answers, m);
    RelayGrows(frames, n, answers);
    RequestsGrow(frames, n + 1, m);
    assert InSequence(Relay(frames, answers), frames[n].payload, answers[Requests(frames[..n])].payload,
                      frames[m].payload, At(frames, n) + 1, At(frames, m));
  }

  // ---------------------------------------------------------------------
  // Lines
  // ---------------------------------------------------------------------

  /** The stream has a line feed within its first so many bytes. */
  predicate BreaksWithin(stream: seq<Byte>, limit: nat) {
    exists i :: 0 <= i < |stream| && i < limit && stream[i] == LF
  }

  lemma NoneBefore(stream: seq<Byte>, i: nat)
    requires i <= |stream| && LF !in stream[..i]
    ensures forall j | 0 <= j < i :: stream[j] != LF
  {
    assert forall j | 0 <= j < i :: stream[j] == stream[..i][j];
  }

  /** A line is too long exactly when the reader's buffer fills without a line feed, the
      stream ends early exactly when it ends before that, and any other line is rejected
      exactly when it could not have been written. */
  lemma ReadErrorsExactly(stream: seq<Byte>)
    ensures ReadInnerLine(stream) == Err(FrameTooLong) <==>
            !BreaksWithin(stream, MAX_INNER_FRAME_BYTES + 2) && |stream| >= MAX_INNER_FRAME_BYTES + 2
    ensures ReadInnerLine(stream) == Err(EndOfStream) <==>
            LF !in stream && |stream| < MAX_INNER_FRAME_BYTES + 2
    ensures ReadInnerLine(stream) == Err(LineRejected) <==>
            exists i :: 0 <= i < |stream| && i < MAX_INNER_FRAME_BYTES + 2 && stream[i] == LF
                        && LF !in stream[..i] && !Plain(stream[..i])
  {
    var found := IndexOf(stream, LF);
    if found.Some? {
      var i := found.value;
      assert stream[i] == LF;
      NoneBefore(stream, i);
      forall j | 0 <= j < |stream| && stream[j] == LF && LF !in stream[..j]
        ensures i == j
      {
        NoneBefore(stream, j);
      }
      assert ReadInnerLine(stream) == Err(FrameTooLong) <==> i >= MAX_INNER_FRAME_BYTES + 2;
    }
  }
}
