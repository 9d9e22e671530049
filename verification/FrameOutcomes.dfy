/** When a supervisor frame is refused, and with which fault. */
module FrameOutcomes {
  import opened Standard
  import opened JsonLexical
  import opened JsonGrammar
  import opened CanonicalRoundTrip
  import opened Utf8
  import opened SupervisorFrames

  // ---------------------------------------------------------------------
  // Sockets
  // ---------------------------------------------------------------------

  /** Chunks that leave a frame unfinished: no line feed yet, and room for more. */
  predicate Unfinished(received: Bytes, chunks: seq<Bytes>) {
    |received + Joined(chunks)| <= MAX_FRAME_BYTES && forall i | 0 <= i < |chunks| :: LF !in chunks[i]
  }

  /** What the first event that is not such a chunk makes of a frame. */
  function Decisive(received: Bytes, event: SocketEvent): Option<Result<Bytes, SocketFault>> {
    match event
    case SocketError => Some(Err(SocketFailed))
    case End => Some(Err(EndedEarly))
    case Data(chunk) =>
      if |received| + |chunk| > MAX_FRAME_BYTES then Some(Err(FrameTooLong))
      else if (exists i :: 0 <= i < |chunk| - 1 && chunk[i] == LF) then Some(Err(MoreThanOneFrame))
      else if |chunk| > 0 && chunk[|chunk| - 1] == LF then Some(Ok(received + chunk))
      else None
  }

  lemma {:induction false} StillUnfinished(received: Bytes, chunks: seq<Bytes>, more: seq<SocketEvent>)
    requires Unfinished(received, chunks)
    ensures Collected(received, Delivered(chunks) + more) == Collected(received + Joined(chunks), more)
    decreases |chunks|
  {
    var events := Delivered(chunks) + more;
    if |chunks| == 0 {
      assert events == more && received + Joined(chunks) == received;
    } else {
      JoinedFront(chunks);
      assert received + Joined(chunks) == (received + chunks[0]) + Joined(chunks[1..]);
      assert events[0] == Data(chunks[0]) && events[1..] == Delivered(chunks[1..]) + more;
      StillUnfinished(received + chunks[0], chunks[1..], more);
    }
  }

  /** The outcome of a socket is decided by the first event that is not an unfinished
      chunk, and while there is none there is no outcome. */
  lemma OutcomeOfEvents(chunks: seq<Bytes>, event: SocketEvent, more: seq<SocketEvent>)
    requires Unfinished([], chunks)
    ensures Collected([], Delivered(chunks)).None?
    ensures Decisive(Joined(chunks), event).Some? ==>
              Collected([], Delivered(chunks) + ([event] + more)) == Decisive(Joined(chunks), event)
  {
    StillUnfinished([], chunks, []);
    assert Delivered(chunks) + [] == Delivered(chunks);
    StillUnfinished([], chunks, [event] + more);
    assert [] + Joined(chunks) == Joined(chunks);
    if event.Data? && LF in event.chunk {
      var chunk := event.chunk;
      assert forall i | 0 <= i < |chunk| - 1 :: chunk[..|chunk| - 1][i] == chunk[i];
    }
  }

  // ---------------------------------------------------------------------
  // Messages and bodies
  // ---------------------------------------------------------------------

  /** A message is refused exactly when its JSON text and the line feed take more bytes
      than a frame may. */
  lemma EncodedExactly(v: Value)
    requires Lexical(v)
    ensures EncodeMessage(v) ==
            if |Encoded(Written(PlainTree(v)))| + 1 > MAX_FRAME_BYTES then Err(FrameLimit)
            else Ok(Written(PlainTree(v)) + [LINE_FEED])
  {
    PrintedIsPrintable(v);
    PrintedIsPaired(v);
    EncodedLine(Written(PlainTree(v)));
  }

  predicate OneLine(body: Text) {
    |body| > 0 && LINE_FEED !in body && CARRIAGE_RETURN !in body
  }

  /** The texts whose frame has this body: the body and a line feed, which a byte order
      mark may precede. */
  predicate Frames(text: Text, body: Text) {
    || (text == body + [LINE_FEED] && (|body| == 0 || body[0] != BYTE_ORDER_MARK))
    || text == [BYTE_ORDER_MARK] + (body + [LINE_FEED])
  }

  lemma UnmarkedExactly(text: Text, body: Text)
    requires |body| > 0
    ensures Unmarked(text) == body + [LINE_FEED] <==> Frames(text, body)
  {
    if |text| > 0 && text[0] == BYTE_ORDER_MARK {
      assert text == [BYTE_ORDER_MARK] + text[1..];
    }
    assert ([BYTE_ORDER_MARK] + (body + [LINE_FEED]))[1..] == body + [LINE_FEED];
    assert text == body + [LINE_FEED] ==> text[0] == body[0];
  }

  /** A frame has a body exactly when it is no longer than a frame may be and encodes, in
      well-formed UTF-8, one line with that body; it is refused for its length first, then
      for its encoding, and as invalid for whatever else. */
  lemma BodyExactly(frame: Bytes, body: Text)
    ensures FrameBody(frame) == Ok(body) <==>
            && |frame| <= MAX_FRAME_BYTES && OneLine(body)
            && exists text :: Paired(text) && Encoded(text) == frame && Frames(text, body)
    ensures FrameBody(frame) == Err(FrameLimit) <==> |frame| > MAX_FRAME_BYTES
    ensures FrameBody(frame) == Err(FrameEncoding) <==>
            |frame| <= MAX_FRAME_BYTES && forall text :: Paired(text) ==> Encoded(text) != frame
  {
    forall text
      ensures Decoded(frame) == Some(text) <==> Paired(text) && Encoded(text) == frame
    {
      DecodedExactly(frame, text);
    }
    if Decoded(frame).Some? {
      var text := Decoded(frame).value;
      assert Paired(text) && Encoded(text) == frame;
      LinesExactly(Unmarked(text), body);
      if |body| > 0 {
        UnmarkedExactly(text, body);
      }
    }
  }

  lemma LinesExactly(line: Text, body: Text)
    ensures (&& |line| > 1 && line[|line| - 1] == LINE_FEED && CARRIAGE_RETURN !in line
             && LINE_FEED !in line[..|line| - 1] && line[..|line| - 1] == body) <==>
            OneLine(body) && line == body + [LINE_FEED]
  {
    if |line| > 0 && line[|line| - 1] == LINE_FEED {
      assert line == line[..|line| - 1] + [LINE_FEED];
    }
    if line == body + [LINE_FEED] {
      assert line[..|line| - 1] == body;
    }
  }
}
