/** Supervisor messages on a socket: one JSON text and one line feed, read back whatever
    the chunks in which it arrives. */
module SupervisorFrames {
  import opened Standard
  import opened JsonLexical
  import opened JsonGrammar
  import opened JsonCompleteness
  import opened CanonicalJson
  import opened CanonicalRoundTrip
  import opened Utf8

  const LINE_FEED: Unit := 0x0A
  const CARRIAGE_RETURN: Unit := 0x0D
  const LF: Byte := 0x0A
  const MAX_FRAME_BYTES: nat := 40 * 1024 * 1024

  // ---------------------------------------------------------------------
  // Reading one frame
  // ---------------------------------------------------------------------

  datatype SocketEvent = Data(chunk: Bytes) | SocketError | End

  datatype SocketFault = FrameTooLong | MoreThanOneFrame | EndedEarly | SocketFailed

  /** The outcome of the first events on a socket, or None while the frame is incomplete. */
  function Collected(received: Bytes, events: seq<SocketEvent>): Option<Result<Bytes, SocketFault>>
    decreases |events|
  {
    if |events| == 0 then None
    else match events[0]
      case SocketError => Some(Err(SocketFailed))
      case End => Some(Err(EndedEarly))
      case Data(chunk) =>
        if |received + chunk| > MAX_FRAME_BYTES then Some(Err(FrameTooLong))
        else if LF !in chunk then Collected(received + chunk, events[1..])
        else if LF in chunk[..|chunk| - 1] then Some(Err(MoreThanOneFrame))
        else Some(Ok(received + chunk))
  }

  /** The reader's handlers, as one loop over the socket's events: it keeps the chunks and
      counts their bytes. */
  method ReadFrame(events: seq<SocketEvent>) returns (r: Option<Result<Bytes, SocketFault>>)
    ensures r == Collected([], events)
  {
    var chunks: seq<Bytes>, bytes := [], 0;
    for i := 0 to |events|
      invariant bytes == |Joined(chunks)|
      invariant Collected([], events) == Collected(Joined(chunks), events[i..])
    {
      assert events[i..][1..] == events[i + 1..];
      match events[i]
      case SocketError => return Some(Err(SocketFailed));
      case End => return Some(Err(EndedEarly));
      case Data(chunk) =>
        assert (chunks + [chunk])[..|chunks|] == chunks;
        bytes := bytes + |chunk|;
        if bytes > MAX_FRAME_BYTES {
          return Some(Err(FrameTooLong));
        }
        chunks := chunks + [chunk];
        if LF in chunk {
          if LF in chunk[..|chunk| - 1] {
            return Some(Err(MoreThanOneFrame));
          }
          return Some(Ok(Joined(chunks)));
        }
    }
    r := None;
  }

  function Joined(chunks: seq<Bytes>): Bytes {
    if |chunks| == 0 then [] else Joined(chunks[..|chunks| - 1]) + chunks[|chunks| - 1]
  }

  function Delivered(chunks: seq<Bytes>): seq<SocketEvent> {
    seq(|chunks|, i requires 0 <= i < |chunks| => Data(chunks[i]))
  }

  /** A frame's bytes: the only line feed is the last byte. */
  predicate OneFrame(frame: Bytes) {
    0 < |frame| <= MAX_FRAME_BYTES && frame[|frame| - 1] == LF && LF !in frame[..|frame| - 1]
  }

  lemma {:induction false} JoinedFront(chunks: seq<Bytes>)
    requires |chunks| > 0
    ensures Joined(chunks) == chunks[0] + Joined(chunks[1..])
  {
    if |chunks| == 1 {
      assert chunks[..0] == [] && chunks[1..] == [];
    } else {
      var last := |chunks| - 1;
      JoinedFront(chunks[..last]);
      assert chunks[..last][1..] == chunks[1..][..last - 1];
      assert chunks[1..][|chunks[1..]| - 1] == chunks[last];
    }
  }

  /** However a frame is cut into chunks, and whatever follows, reading gives the frame. */
  lemma {:induction false} ChunkingDoesNotMatter(received: Bytes, chunks: seq<Bytes>, more: seq<SocketEvent>)
    requires LF !in received && OneFrame(received + Joined(chunks))
    ensures Collected(received, Delivered(chunks) + more) == Some(Ok(received + Joined(chunks)))
    decreases |chunks|
  {
    var frame := received + Joined(chunks);
    assert |received| > 0 ==> received[|received| - 1] in received;
    assert |chunks| == 0 ==> frame == received;
    if |chunks| > 0 {
      var chunk, rest := chunks[0], chunks[1..];
      JoinedFront(chunks);
      assert frame == (received + chunk) + Joined(rest);
      var events := Delivered(chunks) + more;
      assert events[0] == Data(chunk) && events[1..] == Delivered(rest) + more;
      if LF !in chunk {
        ChunkingDoesNotMatter(received + chunk, rest, more);
      } else {
        LastChunk(received, chunk, Joined(rest));
        assert frame == received + chunk;
      }
    }
  }

  /** The chunk with the line feed is the last that holds anything. */
  lemma LastChunk(received: Bytes, chunk: Bytes, rest: Bytes)
    requires LF !in received && LF in chunk && OneFrame((received + chunk) + rest)
    ensures rest == [] && |received + chunk| <= MAX_FRAME_BYTES && LF !in chunk[..|chunk| - 1]
  {
    var frame := (received + chunk) + rest;
    assert forall k | 0 <= k < |frame| - 1 :: frame[..|frame| - 1][k] == frame[k] != LF;
    var i :| 0 <= i < |chunk| && chunk[i] == LF;
    assert frame[|received| + i] == LF;
    assert |received| + i == |frame| - 1;
    assert forall k | 0 <= k < |chunk| - 1 :: chunk[k] == frame[|received| + k];
  }

  /** What is read is one frame, and it is what the chunks so far add up to. */
  lemma {:induction false} OnlyFramesAreRead(received: Bytes, events: seq<SocketEvent>) returns (chunks: seq<Bytes>)
    requires LF !in received && Collected(received, events).Some? && Collected(received, events).value.Ok?
    ensures |chunks| <= |events| && events[..|chunks|] == Delivered(chunks)
    ensures var frame := Collected(received, events).value.value;
            OneFrame(frame) && frame == received + Joined(chunks)
    decreases |events|
  {
    var chunk := events[0].chunk;
    if LF !in chunk {
      var rest := OnlyFramesAreRead(received + chunk, events[1..]);
      chunks := [chunk] + rest;
      assert chunks[1..] == rest;
      JoinedFront(chunks);
      FirstDelivered(chunk, rest, events);
      assert received + (chunk + Joined(rest)) == (received + chunk) + Joined(rest);
    } else {
      chunks := [chunk];
      assert chunks[..0] == [] && Joined(chunks) == chunk;
      assert events[..1] == Delivered(chunks);
      ChunkClosesFrame(received, chunk);
    }
  }

  lemma FirstDelivered(chunk: Bytes, rest: seq<Bytes>, events: seq<SocketEvent>)
    requires |events| > 0 && events[0] == Data(chunk) && |rest| < |events| && events[1..][..|rest|] == Delivered(rest)
    ensures events[..|rest| + 1] == Delivered([chunk] + rest)
  {
    assert forall i | 0 <= i < |rest| :: events[i + 1] == events[1..][..|rest|][i] == Data(rest[i]);
  }

  lemma ChunkClosesFrame(received: Bytes, chunk: Bytes)
    requires LF !in received && LF in chunk && LF !in chunk[..|chunk| - 1] && |received + chunk| <= MAX_FRAME_BYTES
    ensures OneFrame(received + chunk)
  {
    var k :| 0 <= k < |chunk| && chunk[k] == LF;
    assert forall i | 0 <= i < |chunk| - 1 :: chunk[i] == chunk[..|chunk| - 1][i] != LF;
    assert (received + chunk)[..|received + chunk| - 1] == received + chunk[..|chunk| - 1];
  }

  // ---------------------------------------------------------------------
  // Messages
  // ---------------------------------------------------------------------

  datatype FrameFault = FrameLimit | FrameEncoding | FrameInvalid

  /** A message's text: its JSON, members in insertion order, and a line feed. */
  function EncodeMessage(v: Value): Result<Text, FrameFault> {
    var text := Written(PlainTree(v)) + [LINE_FEED];
    if |Encoded(text)| > MAX_FRAME_BYTES then Err(FrameLimit) else Ok(text)
  }

  const BYTE_ORDER_MARK: Unit := 0xFEFF

  /** The host's decoder drops a byte order mark at the start. */
  function Unmarked(text: Text): Text {
    if |text| > 0 && text[0] == BYTE_ORDER_MARK then text[1..] else text
  }

  /** The JSON text inside a frame. */
  function FrameBody(frame: Bytes): Result<Text, FrameFault> {
    if |frame| > MAX_FRAME_BYTES then Err(FrameLimit)
    else match Decoded(frame)
      case None => Err(FrameEncoding)
      case Some(decoded) =>
        var text := Unmarked(decoded);
        if |text| == 0 || text[|text| - 1] != LINE_FEED || CARRIAGE_RETURN in text then Err(FrameInvalid)
        else
          var body := text[..|text| - 1];
          if |body| == 0 || LINE_FEED in body then Err(FrameInvalid) else Ok(body)
  }

  predicate Printable(t: Text) {
    forall i | 0 <= i < |t| :: t[i] >= 0x20
  }

  lemma PrintableTogether(a: Text, b: Text)
    requires Printable(a) && Printable(b)
    ensures Printable(a + b)
  {
  }

  lemma {:induction false} TailIsPrintable(chars: seq<Character>)
    requires AllValid(chars)
    ensures Printable(WrittenTail(chars))
  {
    if |chars| > 0 {
      TailIsPrintable(chars[1..]);
    }
  }

  lemma NumberIsPrintable(parts: NumberParts)
    requires parts.Valid()
    ensures Printable(parts.Written())
  {
  }

  /** No derivation of a printed value holds a control character. */
  lemma {:induction false} PrintedIsPrintable(v: Value)
    requires Lexical(v)
    ensures Printable(Written(PlainTree(v)))
    decreases v
  {
    match v
    case Number(lexeme) => NumberIsPrintable(lexeme);
    case String(text) => TailIsPrintable(CharactersFrom(text, 0));
    case Array(items) => ItemsArePrintable(items);
    case Object(members) => MembersArePrintable(members);
    case _ =>
  }

  lemma {:induction false} ItemsArePrintable(items: seq<Value>)
    requires forall i | 0 <= i < |items| :: Lexical(items[i])
    ensures Printable(WrittenElements(PlainElements(items)))
    decreases items
  {
    if |items| > 0 {
      PrintedIsPrintable(items[0]);
      ItemsArePrintable(items[1..]);
    }
  }

  lemma {:induction false} MembersArePrintable(members: seq<Member>)
    requires forall i | 0 <= i < |members| :: Lexical(members[i].value)
    ensures Printable(WrittenEntries(PlainEntries(members)))
    decreases members
  {
    if |members| > 0 {
      TailIsPrintable(CharactersFrom(members[0].key, 0));
      PrintedIsPrintable(members[0].value);
      MembersArePrintable(members[1..]);
      MemberIsPrintable(WrittenTail(CharactersFrom(members[0].key, 0)), Written(PlainTree(members[0].value)),
        |members| == 1,
                        WrittenEntries(PlainEntries(members[1..])));
    }
  }

  lemma MemberIsPrintable(key: Text, value: Text, last: bool, next: Text)
    requires Printable(key) && Printable(value) && Printable(next)
    ensures Printable([QUOTE] + (key + ([] + ([COLON] + ([] + (value + ([] + if last then [CLOSE_BRACE]
            else [COMMA] + ([] + next))))))))
  {
    var f := [] + if last then [CLOSE_BRACE] else [COMMA] + ([] + next);
    PrintableTogether([COMMA], [] + next);
    PrintableTogether(value, f);
    PrintableTogether([COLON], [] + (value + f));
    PrintableTogether(key, [] + ([COLON] + ([] + (value + f))));
    PrintableTogether([QUOTE], key + ([] + ([COLON] + ([] + (value + f)))));
  }

  // ---------------------------------------------------------------------
  // Printed text is well formed
  // ---------------------------------------------------------------------

  lemma {:induction false} PairedTogether(a: Text, b: Text)
    requires Paired(a) && Paired(b)
    ensures Paired(a + b)
    decreases |a|
  {
    if |a| == 0 {
      assert a + b == b;
    } else if High(a[0]) {
      assert (a + b)[2..] == a[2..] + b;
      PairedTogether(a[2..], b);
    } else {
      assert (a + b)[1..] == a[1..] + b;
      PairedTogether(a[1..], b);
    }
  }

  lemma {:induction false} AsciiIsPaired(t: Text)
    requires forall i | 0 <= i < |t| :: t[i] < 0x80
    ensures Paired(t)
  {
    if |t| > 0 {
      AsciiIsPaired(t[1..]);
    }
  }

  /** A character prints as itself only where it is paired, else in ASCII. */
  lemma CharacterIsAscii(t: Text, i: nat)
    requires i < |t| && (t[i] < 0x80 || !PairedAt(t, i))
    ensures forall k | 0 <= k < |CharacterAt(t, i).Written()| :: CharacterAt(t, i).Written()[k] < 0x80
  {
  }

  /** A surrogate pair prints as itself. */
  lemma PairFrom(t: Text, i: nat)
    requires Inside(t, i + 1)
    ensures WrittenTail(CharactersFrom(t, i)) == [t[i], t[i + 1]] + WrittenTail(CharactersFrom(t, i + 2))
  {
    assert CharacterAt(t, i) == Raw(t[i]) && CharacterAt(t, i + 1) == Raw(t[i + 1]);
    TailFrom(t, i);
    TailFrom(t, i + 1);
  }

  /** The position lies between the two units of a surrogate pair. */
  predicate Inside(t: Text, i: nat) {
    0 < i < |t| && High(t[i - 1]) && Low(t[i])
  }

  lemma {:induction false} TailIsPaired(t: Text, i: nat)
    requires i <= |t| && !Inside(t, i)
    ensures Paired(WrittenTail(CharactersFrom(t, i)))
    decreases |t| - i
  {
    if i == |t| {
      AsciiIsPaired([QUOTE]);
    } else {
      NextOutside(t, i);
      if Inside(t, i + 1) {
        TailIsPaired(t, i + 2);
        PairThenTail(t, i);
      } else {
        TailIsPaired(t, i + 1);
        UnitThenTail(t, i);
      }
    }
  }

  lemma NextOutside(t: Text, i: nat)
    requires i < |t|
    ensures Inside(t, i + 1) ==> i + 2 <= |t| && !Inside(t, i + 2)
  {
  }

  lemma PairThenTail(t: Text, i: nat)
    requires i + 2 <= |t| && Inside(t, i + 1) && Paired(WrittenTail(CharactersFrom(t, i + 2)))
    ensures Paired(WrittenTail(CharactersFrom(t, i)))
  {
    PairFrom(t, i);
    PairedTogether([t[i], t[i + 1]], WrittenTail(CharactersFrom(t, i + 2)));
  }

  lemma UnitThenTail(t: Text, i: nat)
    requires i < |t| && !Inside(t, i) && !Inside(t, i + 1) && Paired(WrittenTail(CharactersFrom(t, i + 1)))
    ensures Paired(WrittenTail(CharactersFrom(t, i)))
  {
    TailFrom(t, i);
    CharacterIsPaired(t, i);
    PairedTogether(CharacterAt(t, i).Written(), WrittenTail(CharactersFrom(t, i + 1)));
  }

  lemma TailFrom(t: Text, i: nat)
    requires i < |t|
    ensures WrittenTail(CharactersFrom(t, i)) == CharacterAt(t, i).Written() + WrittenTail(CharactersFrom(t, i + 1))
  {
    assert CharactersFrom(t, i)[1..] == CharactersFrom(t, i + 1);
  }

  lemma CharacterIsPaired(t: Text, i: nat)
    requires i < |t| && !Inside(t, i) && !Inside(t, i + 1)
    ensures Paired(CharacterAt(t, i).Written())
  {
    if t[i] < 0x80 || !PairedAt(t, i) {
      CharacterIsAscii(t, i);
      AsciiIsPaired(CharacterAt(t, i).Written());
    } else {
      assert !Low(t[i]) && CharacterAt(t, i) == Raw(t[i]);
    }
  }

  lemma {:induction false} PrintedIsPaired(v: Value)
    requires Lexical(v)
    ensures Paired(Written(PlainTree(v)))
    decreases v
  {
    match v
    case Number(lexeme) => NumberIsAscii(lexeme);
    case String(text) =>
      TailIsPaired(text, 0);
      AsciiIsPaired([QUOTE]);
      PairedTogether([QUOTE], WrittenTail(CharactersFrom(text, 0)));
    case Array(items) =>
      ItemsArePaired(items);
      EnclosedIsPaired(OPEN_BRACKET, WrittenElements(PlainElements(items)));
    case Object(members) =>
      MembersArePaired(members);
      EnclosedIsPaired(OPEN_BRACE, WrittenEntries(PlainEntries(members)));
    case _ => AsciiIsPaired(Written(PlainTree(v)));
  }

  lemma EnclosedIsPaired(open: Unit, content: Text)
    requires open < 0x80 && Paired(content)
    ensures Paired([open] + ([] + content))
  {
    AsciiIsPaired([open]);
    assert [] + content == content;
    PairedTogether([open], content);
  }

  lemma NumberIsAscii(parts: NumberParts)
    requires parts.Valid()
    ensures Paired(parts.Written())
  {
    AsciiIsPaired(parts.Written());
  }

  lemma {:induction false} ItemsArePaired(items: seq<Value>)
    requires forall i | 0 <= i < |items| :: Lexical(items[i])
    ensures Paired(WrittenElements(PlainElements(items)))
    decreases items
  {
    if |items| == 0 {
      AsciiIsPaired([CLOSE_BRACKET]);
    } else {
      PrintedIsPaired(items[0]);
      ItemsArePaired(items[1..]);
      FollowingIsPaired(|items| == 1, CLOSE_BRACKET, WrittenElements(PlainElements(items[1..])));
      PairedTogether(Written(PlainTree(items[0])),
                     Following([], |items| == 1, CLOSE_BRACKET, [], WrittenElements(PlainElements(items[1..]))));
    }
  }

  lemma FollowingIsPaired(last: bool, close: Unit, next: Text)
    requires close < 0x80 && Paired(next)
    ensures Paired(Following([], last, close, [], next))
  {
    AsciiIsPaired([close]);
    AsciiIsPaired([COMMA]);
    assert [] + next == next;
    PairedTogether([COMMA], next);
    assert Following([], last, close, [], next) == if last then [close] else [COMMA] + next;
  }

  lemma {:induction false} MembersArePaired(members: seq<Member>)
    requires forall i | 0 <= i < |members| :: Lexical(members[i].value)
    ensures Paired(WrittenEntries(PlainEntries(members)))
    decreases members
  {
    if |members| == 0 {
      AsciiIsPaired([CLOSE_BRACE]);
    } else {
      TailIsPaired(members[0].key, 0);
      PrintedIsPaired(members[0].value);
      MembersArePaired(members[1..]);
      MemberIsPaired(WrittenTail(CharactersFrom(members[0].key, 0)), Written(PlainTree(members[0].value)), |members| ==
        1,
                     WrittenEntries(PlainEntries(members[1..])));
    }
  }

  lemma MemberIsPaired(key: Text, value: Text, last: bool, next: Text)
    requires Paired(key) && Paired(value) && Paired(next)
    ensures Paired([QUOTE] + (key + ([] + ([COLON] + ([] + (value + Following([], last, CLOSE_BRACE, [], next)))))))
  {
    var f := Following([], last, CLOSE_BRACE, [], next);
    FollowingIsPaired(last, CLOSE_BRACE, next);
    PairedTogether(value, f);
    assert [] + (value + f) == value + f && [] + ([COLON] + (value + f)) == [COLON] + (value + f);
    AsciiIsPaired([COLON]);
    PairedTogether([COLON], value + f);
    PairedTogether(key, [COLON] + (value + f));
    AsciiIsPaired([QUOTE]);
    PairedTogether([QUOTE], key + ([COLON] + (value + f)));
  }

  // ---------------------------------------------------------------------
  // End to end
  // ---------------------------------------------------------------------

  lemma LineIsPaired(body: Text)
    requires Paired(body)
    ensures Paired(body + [LINE_FEED])
  {
    AsciiIsPaired([LINE_FEED]);
    PairedTogether(body, [LINE_FEED]);
  }

  lemma EncodedLine(body: Text)
    requires Paired(body) && Printable(body)
    ensures Encoded(body + [LINE_FEED]) == Encoded(body) + [LF] && LF !in Encoded(body)
  {
    EndsPaired(body);
    EncodedInTwo(body, [LINE_FEED]);
    assert Encoded([LINE_FEED]) == [LF];
    AsciiKept(body, LINE_FEED);
  }

  lemma DecodedFrame(bytes: Bytes, inner: Bytes, body: Text)
    requires bytes == inner + [LF] && LF !in inner && |bytes| <= MAX_FRAME_BYTES
    requires Decoded(bytes) == Some(body + [LINE_FEED]) && Printable(body)
    requires |body| > 0 && body[0] != BYTE_ORDER_MARK
    ensures OneFrame(bytes) && FrameBody(bytes) == Ok(body)
  {
    assert bytes[..|inner|] == inner;
    assert (body + [LINE_FEED])[..|body|] == body;
  }

  lemma LineIsFrame(body: Text)
    requires Paired(body) && Printable(body) && |body| > 0 && body[0] != BYTE_ORDER_MARK
    requires |Encoded(body + [LINE_FEED])| <= MAX_FRAME_BYTES
    ensures OneFrame(Encoded(body + [LINE_FEED])) && FrameBody(Encoded(body + [LINE_FEED])) == Ok(body)
  {
    LineIsPaired(body);
    EncodingRoundTrips(body + [LINE_FEED]);
    EncodedLine(body);
    DecodedFrame(Encoded(body + [LINE_FEED]), Encoded(body), body);
  }

  /** An encoded message is one frame, and its body is the JSON text of the message. */
  lemma EncodedIsOneFrame(v: Value)
    requires Lexical(v) && EncodeMessage(v).Ok?
    ensures var frame := Encoded(EncodeMessage(v).value);
            OneFrame(frame) && FrameBody(frame) == Ok(Written(PlainTree(v)))
  {
    PrintedIsPrintable(v);
    PrintedIsPaired(v);
    BeginsSomewhere(v);
    LineIsFrame(Written(PlainTree(v)));
  }

  lemma BeginsSomewhere(v: Value)
    requires Lexical(v)
    ensures |Written(PlainTree(v))| > 0 && Written(PlainTree(v))[0] < 0x80
  {
    PlainDenotes(v);
    Begins(PlainTree(v));
    BeginsInAscii(PlainTree(v));
  }

  lemma BeginsInAscii(t: Tree)
    requires Valid(t)
    ensures |Written(t)| > 0 && Written(t)[0] < 0x80
  {
    if t.NumberTree? {
      assert t.parts.Written()[0] == if t.parts.negative then MINUS else t.parts.whole[0];
    }
  }

  lemma {:induction false} EndsPaired(t: Text)
    requires Paired(t)
    ensures |t| == 0 || !High(t[|t| - 1])
    decreases |t|
  {
    if |t| > 0 {
      EndsPaired(t[if High(t[0]) then 2 else 1..]);
    }
  }

  /** A message survives transport: however its bytes are cut into chunks, and whatever
      arrives later, the frame read is the frame sent, and its body is a JSON text that
      denotes the message. */
  lemma MessagesSurviveTransport(v: Value, chunks: seq<Bytes>, more: seq<SocketEvent>)
    requires Lexical(v) && EncodeMessage(v).Ok? && Joined(chunks) == Encoded(EncodeMessage(v).value)
    ensures Collected([], Delivered(chunks) + more) == Some(Ok(Joined(chunks)))
    ensures FrameBody(Joined(chunks)).Ok? && Denotes(FrameBody(Joined(chunks)).value, v)
  {
    EncodedIsOneFrame(v);
    assert [] + Joined(chunks) == Joined(chunks);
    ChunkingDoesNotMatter([], chunks, more);
    PlainDenotes(v);
    DenotesItself(PlainTree(v));
  }

  lemma DenotesItself(t: Tree)
    requires Valid(t)
    ensures Denotes(Written(t), Denoted(t))
  {
    var none: Text := [];
    assert AllBlank(none) && Written(t) == none + (Written(t) + none);
  }
}
