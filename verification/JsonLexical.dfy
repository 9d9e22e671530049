/** The tokens of JSON text over UTF-16 code units: white space, numbers and strings
    (sections 2, 6 and 7 of RFC 8259), and well-formed Unicode (section 2.1 of
    RFC 7493). */
module JsonLexical {
  import opened Standard

  type Unit = x: int | 0 <= x < 0x1_0000
  type Text = seq<Unit>

  const QUOTE: Unit := 0x22
  const BACKSLASH: Unit := 0x5C
  const PLUS: Unit := 0x2B
  const COMMA: Unit := 0x2C
  const MINUS: Unit := 0x2D
  const POINT: Unit := 0x2E
  const ZERO: Unit := 0x30
  const COLON: Unit := 0x3A
  const OPEN_BRACKET: Unit := 0x5B
  const CLOSE_BRACKET: Unit := 0x5D
  const OPEN_BRACE: Unit := 0x7B
  const CLOSE_BRACE: Unit := 0x7D

  // ---------------------------------------------------------------------
  // White space
  // ---------------------------------------------------------------------

  predicate Blank(u: Unit) {
    u == 0x20 || u == 0x09 || u == 0x0D || u == 0x0A
  }

  predicate AllBlank(t: Text) {
    forall i | 0 <= i < |t| :: Blank(t[i])
  }

  predicate StartsSolid(s: Text) {
    |s| == 0 || !Blank(s[0])
  }

  function Skip(s: Text): (rest: Text)
    ensures |rest| <= |s| && StartsSolid(rest)
  {
    if |s| > 0 && Blank(s[0]) then Skip(s[1..]) else s
  }

  /** What is skipped is blank, and nothing else is lost. */
  lemma {:induction false} SkipSplits(s: Text) returns (blank: Text)
    ensures AllBlank(blank) && s == blank + Skip(s)
  {
    if |s| > 0 && Blank(s[0]) {
      var more := SkipSplits(s[1..]);
      blank := [s[0]] + more;
    } else {
      blank := [];
    }
  }

  lemma {:induction false} SkipOver(blank: Text, s: Text)
    requires AllBlank(blank) && StartsSolid(s)
    ensures Skip(blank + s) == s
  {
    if |blank| == 0 {
      assert blank + s == s;
    } else {
      assert (blank + s)[1..] == blank[1..] + s;
      SkipOver(blank[1..], s);
    }
  }

  // ---------------------------------------------------------------------
  // Numbers
  // ---------------------------------------------------------------------

  predicate Digit(u: Unit) {
    0x30 <= u <= 0x39
  }

  predicate AllDigits(t: Text) {
    forall i | 0 <= i < |t| :: Digit(t[i])
  }

  function DigitRun(s: Text): (n: nat)
    ensures n <= |s| && AllDigits(s[..n]) && (n < |s| ==> !Digit(s[n]))
  {
    if |s| > 0 && Digit(s[0]) then
      var n := DigitRun(s[1..]) + 1;
      assert s[..n] == [s[0]] + s[1..][..n - 1];
      n
    else 0
  }

  lemma {:induction false} DigitRunOver(digits: Text, s: Text)
    requires AllDigits(digits) && (|s| == 0 || !Digit(s[0]))
    ensures DigitRun(digits + s) == |digits|
  {
    if |digits| == 0 {
      assert digits + s == s;
    } else {
      assert (digits + s)[1..] == digits[1..] + s;
      DigitRunOver(digits[1..], s);
    }
  }

  predicate ExponentMark(u: Unit) {
    u == 0x65 || u == 0x45
  }

  predicate Sign(u: Unit) {
    u == PLUS || u == MINUS
  }

  /** A number's parts; an empty fraction or exponent is an absent one. */
  datatype NumberParts = NumberParts(negative: bool, whole: Text, fraction: Text, exponent: Exponent)
  {
    predicate Valid() {
      ValidWhole(whole) && AllDigits(fraction) && exponent.Valid()
    }

    function Written(): (t: Text)
      ensures Valid() ==> |t| > 0
    {
      (if negative then [MINUS] else []) + (whole + (WrittenFraction(fraction) + exponent.Written()))
    }
  }

  datatype Exponent = NoExponent | Exponent(mark: Unit, sign: Option<Unit>, digits: Text)
  {
    predicate Valid() {
      Exponent? ==> ExponentMark(mark) && (sign.Some? ==> Sign(sign.value)) && |digits| > 0 && AllDigits(digits)
    }

    function Written(): Text {
      if NoExponent? then [] else [mark] + ((if sign.Some? then [sign.value] else []) + digits)
    }
  }

  function WrittenFraction(fraction: Text): Text {
    if |fraction| > 0 then [POINT] + fraction else []
  }

  datatype DigitsRead = DigitsRead(digits: Text, rest: Text)
  datatype ExponentRead = ExponentRead(exponent: Exponent, rest: Text)
  datatype NumberRead = NumberRead(parts: NumberParts, rest: Text)

  lemma Regroup(a: Text, b: Text, c: Text)
    ensures a + (b + c) == (a + b) + c
  {
  }

  /** The optional fraction: a point with at least one digit after it. */
  function ReadFraction(s: Text): (r: DigitsRead)
    ensures s == WrittenFraction(r.digits) + r.rest && AllDigits(r.digits)
  {
    if |s| > 0 && s[0] == POINT && DigitRun(s[1..]) > 0 then
      var n := DigitRun(s[1..]);
      assert s == [POINT] + (s[1..][..n] + s[1..][n..]);
      assert s == ([POINT] + s[1..][..n]) + s[1..][n..];
      DigitsRead(s[1..][..n], s[1..][n..])
    else DigitsRead([], s)
  }

  /** The optional exponent: a mark, an optional sign and at least one digit. */
  function ReadExponent(s: Text): (r: ExponentRead)
    ensures s == r.exponent.Written() + r.rest && r.exponent.Valid()
  {
    if |s| == 0 || !ExponentMark(s[0]) then ExponentRead(NoExponent, s)
    else if |s| > 1 && Sign(s[1]) then
      assert s == [s[0]] + ([s[1]] + s[2..]);
      ReadExponentDigits(s, Some(s[1]), s[2..])
    else
      assert s == [s[0]] + ([] + s[1..]);
      ReadExponentDigits(s, None, s[1..])
  }

  function ReadExponentDigits(s: Text, sign: Option<Unit>, after: Text): (r: ExponentRead)
    requires |s| > 0 && ExponentMark(s[0]) && (sign.Some? ==> Sign(sign.value))
    requires s == [s[0]] + ((if sign.Some? then [sign.value] else []) + after)
    ensures s == r.exponent.Written() + r.rest && r.exponent.Valid()
  {
    var n := DigitRun(after);
    if n == 0 then ExponentRead(NoExponent, s)
    else
      var exponent := Exponent(s[0], sign, after[..n]);
      var signed := if sign.Some? then [sign.value] else [];
      assert after == after[..n] + after[n..];
      Regroup(signed, after[..n], after[n..]);
      Regroup([s[0]], signed + after[..n], after[n..]);
      ExponentRead(exponent, after[n..])
  }

  predicate ValidWhole(whole: Text) {
    |whole| > 0 && AllDigits(whole) && (whole[0] == ZERO ==> |whole| == 1)
  }

  /** The digits before the point: a zero alone, or a run that does not start with one. */
  function ReadWhole(s: Text): (r: Option<DigitsRead>)
    ensures r.Some? ==> ValidWhole(r.value.digits) && s == r.value.digits + r.value.rest
  {
    var digits := DigitRun(s);
    if digits == 0 then None
    else
      var n := if s[0] == ZERO then 1 else digits;
      assert s[..n] == s[..digits][..n];
      Some(DigitsRead(s[..n], s[n..]))
  }

  /** The longest number at the start, as the number pattern matches it. */
  function ReadNumber(s: Text): (r: Option<NumberRead>)
    ensures r.Some? ==> r.value.parts.Valid() && s == r.value.parts.Written() + r.value.rest
  {
    var negative := |s| > 0 && s[0] == MINUS;
    var unsigned := if negative then s[1..] else s;
    match ReadWhole(unsigned)
    case None => None
    case Some(whole) =>
      var fraction := ReadFraction(whole.rest);
      var exponent := ReadExponent(fraction.rest);
      var parts := NumberParts(negative, whole.digits, fraction.digits, exponent.exponent);
      PartsJoin(s, unsigned, parts, whole.rest, fraction.rest, exponent.rest);
      Some(NumberRead(parts, exponent.rest))
  }

  lemma PartsJoin(s: Text, unsigned: Text, parts: NumberParts, afterWhole: Text, afterFraction: Text, rest: Text)
    requires s == (if parts.negative then [MINUS] else []) + unsigned
    requires unsigned == parts.whole + afterWhole
    requires afterWhole == WrittenFraction(parts.fraction) + afterFraction
    requires afterFraction == parts.exponent.Written() + rest
    ensures s == parts.Written() + rest
  {
    var f, e := WrittenFraction(parts.fraction), parts.exponent.Written();
    assert unsigned == (parts.whole + (f + e)) + rest;
  }

  /** What may follow a number without extending it. */
  predicate EndsNumber(s: Text) {
    |s| == 0 || (!Digit(s[0]) && s[0] != POINT && !ExponentMark(s[0]))
  }

  lemma DigitsReadBack(digits: Text, s: Text)
    requires AllDigits(digits) && (|s| == 0 || !Digit(s[0]))
    ensures DigitRun(digits + s) == |digits| && (digits + s)[..|digits|] == digits && (digits + s)[|digits|..] == s
  {
    DigitRunOver(digits, s);
  }

  lemma ExponentText(exponent: Exponent, s: Text)
    requires exponent.Exponent?
    ensures exponent.Written() + s ==
            [exponent.mark] + ((if exponent.sign.Some? then [exponent.sign.value] else []) + (exponent.digits + s))
  {
  }

  lemma ExponentReadBack(exponent: Exponent, s: Text)
    requires exponent.Valid() && EndsNumber(s)
    ensures ReadExponent(exponent.Written() + s) == ExponentRead(exponent, s)
  {
    if exponent.NoExponent? {
      assert exponent.Written() + s == s;
    } else {
      ExponentText(exponent, s);
      DigitsReadBack(exponent.digits, s);
      assert (exponent.digits + s)[0] == exponent.digits[0];
      ExponentStarts(exponent.Written() + s, exponent, exponent.digits + s);
    }
  }

  lemma ExponentStarts(t: Text, exponent: Exponent, after: Text)
    requires exponent.Exponent? && exponent.Valid() && |after| > 0 && Digit(after[0])
    requires t == [exponent.mark] + ((if exponent.sign.Some? then [exponent.sign.value] else []) + after)
    ensures ReadExponent(t) == ReadExponentDigits(t, exponent.sign, after)
  {
    if exponent.sign.Some? {
      assert t[1] == exponent.sign.value && t[2..] == after;
    } else {
      assert t[1] == after[0] && t[1..] == after;
    }
  }

  lemma FractionReadBack(fraction: Text, s: Text)
    requires AllDigits(fraction) && (|s| == 0 || (!Digit(s[0]) && s[0] != POINT))
    ensures ReadFraction(WrittenFraction(fraction) + s) == DigitsRead(fraction, s)
  {
    var t := WrittenFraction(fraction) + s;
    if |fraction| > 0 {
      assert t[1..] == fraction + s;
      DigitRunOver(fraction, s);
    } else {
      assert t == s;
    }
  }

  /** A written number is read back whole. */
  lemma NumberReadBack(parts: NumberParts, s: Text)
    requires parts.Valid() && EndsNumber(s)
    ensures ReadNumber(parts.Written() + s) == Some(NumberRead(parts, s))
  {
    var t := parts.Written() + s;
    var fromExponent := parts.exponent.Written() + s;
    var fromFraction := WrittenFraction(parts.fraction) + fromExponent;
    var unsigned := parts.whole + fromFraction;
    PartsJoin((if parts.negative then [MINUS] else []) + unsigned, unsigned, parts, fromFraction, fromExponent, s);
    assert t[0] == MINUS <==> parts.negative;
    assert (if parts.negative then t[1..] else t) == unsigned;
    ExponentReadBack(parts.exponent, s);
    FractionReadBack(parts.fraction, fromExponent);
    WholeReadBack(parts.whole, fromFraction);
  }

  lemma WholeReadBack(whole: Text, s: Text)
    requires ValidWhole(whole) && (|s| == 0 || !Digit(s[0]))
    ensures ReadWhole(whole + s) == Some(DigitsRead(whole, s))
  {
    DigitRunOver(whole, s);
    assert (whole + s)[..|whole|] == whole && (whole + s)[|whole|..] == s;
  }

  // ---------------------------------------------------------------------
  // The finite numbers
  // ---------------------------------------------------------------------

  function Power(base: nat, n: nat): (p: nat)
    ensures base > 0 ==> p > 0
  {
    if n == 0 then 1 else base * Power(base, n - 1)
  }

  function Decimal(digits: Text): nat
    requires AllDigits(digits)
  {
    if |digits| == 0 then 0 else 10 * Decimal(digits[..|digits| - 1]) + (digits[|digits| - 1] - ZERO)
  }

  /** The magnitude at and above which rounding to a double overflows: 2^1024 - 2^970. */
  const OVERFLOW: nat := 0xFFFFFFFFFFFFFC00000000000000000000000000000000000000000000000000000000000000000000000000000000000000000000000000000000000000000000000000000000000000000000000000000000000000000000000000000000000000000000000000000000000000000000000000000000000000000000000000

  /** The number is finite as an IEEE 754 double: its exact decimal value, scaled to a
      whole number, stays under the equally scaled overflow threshold. */
  predicate Finite(parts: NumberParts)
    requires parts.Valid()
  {
    var digits := Decimal(parts.whole + parts.fraction);
    var scale := |parts.fraction|;
    match parts.exponent
    case NoExponent => digits < OVERFLOW * Power(10, scale)
    case Exponent(_, sign, exponent) =>
      if sign == Some(MINUS) then digits < OVERFLOW * Power(10, scale + Decimal(exponent))
      else digits * Power(10, Decimal(exponent)) < OVERFLOW * Power(10, scale)
  }

  // ---------------------------------------------------------------------
  // Strings
  // ---------------------------------------------------------------------

  predicate HexDigit(u: Unit) {
    Digit(u) || 0x41 <= u <= 0x46 || 0x61 <= u <= 0x66
  }

  function HexValue(u: Unit): (v: nat)
    requires HexDigit(u)
    ensures v < 16
  {
    if Digit(u) then u - 0x30 else if u <= 0x46 then u - 0x37 else u - 0x57
  }

  /** The letters that may follow a backslash, and what each stands for. */
  function Escapes(letter: Unit): Option<Unit> {
    if letter == QUOTE || letter == BACKSLASH || letter == 0x2F then Some(letter)
    else if letter == 0x62 then Some(0x08)
    else if letter == 0x66 then Some(0x0C)
    else if letter == 0x6E then Some(0x0A)
    else if letter == 0x72 then Some(0x0D)
    else if letter == 0x74 then Some(0x09)
    else None
  }

  const UNICODE_ESCAPE: Unit := 0x75

  datatype Character = Raw(unit: Unit) | Escape(letter: Unit) | Hex(digits: Text)
  {
    predicate Valid() {
      match this
      case Raw(u) => u >= 0x20 && u != QUOTE && u != BACKSLASH
      case Escape(letter) => Escapes(letter).Some?
      case Hex(digits) => |digits| == 4 && forall i | 0 <= i < 4 :: HexDigit(digits[i])
    }

    function Written(): (t: Text)
      ensures |t| > 0
    {
      match this
      case Raw(u) => [u]
      case Escape(letter) => [BACKSLASH, letter]
      case Hex(digits) => [BACKSLASH, UNICODE_ESCAPE] + digits
    }

    function Decoded(): Unit
      requires Valid()
    {
      match this
      case Raw(u) => u
      case Escape(letter) => Escapes(letter).value
      case Hex(d) => 0x1000 * HexValue(d[0]) + 0x100 * HexValue(d[1]) + 0x10 * HexValue(d[2]) + HexValue(d[3])
    }
  }

  predicate AllValid(chars: seq<Character>) {
    forall i | 0 <= i < |chars| :: chars[i].Valid()
  }

  /** The characters of a string and its closing quotation mark. */
  function WrittenTail(chars: seq<Character>): (t: Text)
    ensures |t| > 0
  {
    if |chars| == 0 then [QUOTE] else chars[0].Written() + WrittenTail(chars[1..])
  }

  function DecodedAll(chars: seq<Character>): (t: Text)
    requires AllValid(chars)
    ensures |t| == |chars|
  {
    if |chars| == 0 then [] else [chars[0].Decoded()] + DecodedAll(chars[1..])
  }

  /** The character at the start, or None where the source rejects the string. */
  function NextCharacter(s: Text): (c: Option<Character>)
    ensures c.Some? ==> c.value.Valid() && |c.value.Written()| <= |s| && c.value.Written() == s[..|c.value.Written()|]
  {
    if |s| == 0 || s[0] == QUOTE then None
    else if s[0] == BACKSLASH then
      if |s| == 1 then None
      else if s[1] == UNICODE_ESCAPE then
        if |s| >= 6 && forall i | 2 <= i < 6 :: HexDigit(s[i]) then
          assert forall i | 0 <= i < 4 :: s[2..6][i] == s[i + 2];
          Some(Hex(s[2..6]))
        else None
      else if Escapes(s[1]).Some? then Some(Escape(s[1]))
      else None
    else if s[0] < 0x20 then None
    else Some(Raw(s[0]))
  }

  datatype Scan = Scan(chars: seq<Character>, rest: Text)

  lemma TailGrows(c: Character, chars: seq<Character>, rest: Text)
    ensures WrittenTail([c] + chars) + rest == c.Written() + (WrittenTail(chars) + rest)
    ensures c.Valid() && AllValid(chars) ==> AllValid([c] + chars)
  {
    assert ([c] + chars)[1..] == chars;
  }

  /** The string whose opening quotation mark has just been read. */
  function ScanString(s: Text): (scan: Option<Scan>)
    ensures scan.Some? ==> AllValid(scan.value.chars) && s == WrittenTail(scan.value.chars) + scan.value.rest
  {
    if |s| > 0 && s[0] == QUOTE then
      assert s == [QUOTE] + s[1..];
      Some(Scan([], s[1..]))
    else match NextCharacter(s)
      case None => None
      case Some(c) =>
        match ScanString(s[|c.Written()|..])
        case None => None
        case Some(tail) =>
          TailGrows(c, tail.chars, tail.rest);
          assert s == c.Written() + s[|c.Written()|..];
          Some(Scan([c] + tail.chars, tail.rest))
  }

  lemma NextOver(c: Character, s: Text)
    requires c.Valid()
    ensures NextCharacter(c.Written() + s) == Some(c)
  {
    if c.Hex? {
      assert (c.Written() + s)[2..6] == c.digits;
    }
  }

  /** A written character is scanned first. */
  lemma ScanStep(c: Character, s: Text)
    requires c.Valid()
    ensures ScanString(c.Written() + s) ==
            match ScanString(s) case None => None case Some(tail) => Some(Scan([c] + tail.chars, tail.rest))
  {
    var t := c.Written() + s;
    NextOver(c, s);
    assert t[0] == c.Written()[0] != QUOTE;
    assert t[|c.Written()|..] == s;
  }

  /** A written string is scanned back to its characters. */
  lemma {:induction false} ScanOver(chars: seq<Character>, s: Text)
    requires AllValid(chars)
    ensures ScanString(WrittenTail(chars) + s) == Some(Scan(chars, s))
  {
    if |chars| > 0 {
      assert [chars[0]] + chars[1..] == chars;
      TailGrows(chars[0], chars[1..], s);
      ScanOver(chars[1..], s);
      ScanStep(chars[0], WrittenTail(chars[1..]) + s);
    }
  }

  // ---------------------------------------------------------------------
  // Surrogates
  // ---------------------------------------------------------------------

  predicate High(u: Unit) {
    0xD800 <= u <= 0xDBFF
  }

  predicate Low(u: Unit) {
    0xDC00 <= u <= 0xDFFF
  }

  /** Every high surrogate is followed by a low one, and no other low one occurs. */
  predicate Paired(t: Text) {
    if |t| == 0 then true
    else if High(t[0]) then |t| > 1 && Low(t[1]) && Paired(t[2..])
    else !Low(t[0]) && Paired(t[1..])
  }

  predicate PairedAt(t: Text, i: nat)
    requires i < |t|
  {
    && (High(t[i]) ==> i + 1 < |t| && Low(t[i + 1]))
    && (Low(t[i]) ==> i > 0 && High(t[i - 1]))
  }

  lemma {:induction false} PairedExactly(t: Text)
    ensures Paired(t) <==> forall i | 0 <= i < |t| :: PairedAt(t, i)
  {
    if |t| > 0 && High(t[0]) {
      if |t| > 1 && Low(t[1]) {
        PairedExactly(t[2..]);
        assert forall i | 0 <= i < |t| - 2 :: PairedAt(t[2..], i) <==> PairedAt(t, i + 2);
        assert forall i | 2 <= i < |t| :: PairedAt(t, i) <==> PairedAt(t[2..], i - 2);
      } else {
        assert !PairedAt(t, 0);
      }
    } else if |t| > 0 {
      PairedExactly(t[1..]);
      assert forall i | 0 <= i < |t| - 1 :: PairedAt(t[1..], i) <==> PairedAt(t, i + 1);
      assert forall i | 1 <= i < |t| :: PairedAt(t, i) <==> PairedAt(t[1..], i - 1);
      assert Low(t[0]) ==> !PairedAt(t, 0);
    }
  }

  /** The source's check, which steps over each pair. */
  method RequireValidUnicode(t: Text) returns (ok: bool)
    ensures ok == Paired(t)
  {
    var i := 0;
    while i < |t|
      invariant i <= |t| && Paired(t) == Paired(t[i..])
    {
      assert t[i..][1..] == t[i + 1..];
      if High(t[i]) {
        if i + 1 == |t| || !Low(t[i + 1]) {
          return false;
        }
        assert t[i..][2..] == t[i + 2..];
        i := i + 2;
      } else if Low(t[i]) {
        return false;
      } else {
        i := i + 1;
      }
    }
    ok := true;
  }
}
