/** UTF-8 over UTF-16 code units (section 3 of RFC 3629). */
module Utf8 {
  import opened Standard
  import opened JsonLexical

  type Byte = x: int | 0 <= x < 256
  type Bytes = seq<Byte>

  /** The code point of a surrogate pair. */
  function PairValue(high: Unit, low: Unit): (v: nat)
    requires High(high) && Low(low)
    ensures 0x10000 <= v <= 0x10FFFF
  {
    0x10000 + 0x400 * (high - 0xD800) + (low - 0xDC00)
  }

  /** The bytes of one unit; a lone surrogate becomes the replacement character. */
  function EncodedUnit(u: Unit): (b: Bytes)
    ensures 1 <= |b| <= 3
  {
    if u < 0x80 then [u]
    else if u < 0x800 then [0xC0 + u / 0x40, 0x80 + u % 0x40]
    else if High(u) || Low(u) then [0xEF, 0xBF, 0xBD]
    else [0xE0 + u / 0x1000, 0x80 + u / 0x40 % 0x40, 0x80 + u % 0x40]
  }

  function EncodedPair(high: Unit, low: Unit): (b: Bytes)
    requires High(high) && Low(low)
    ensures |b| == 4
  {
    InFourBytes(PairValue(high, low))
  }

  function InFourBytes(v: nat): (b: Bytes)
    requires 0x10000 <= v <= 0x10FFFF
    ensures |b| == 4
  {
    [0xF0 + v / 0x40000, 0x80 + v / 0x1000 % 0x40, 0x80 + v / 0x40 % 0x40, 0x80 + v % 0x40]
  }

  function Encoded(t: Text): Bytes {
    if |t| == 0 then []
    else if |t| > 1 && High(t[0]) && Low(t[1]) then EncodedPair(t[0], t[1]) + Encoded(t[2..])
    else EncodedUnit(t[0]) + Encoded(t[1..])
  }

  predicate Continues(b: Byte) {
    0x80 <= b < 0xC0
  }

  /** The six bits of a continuation byte. */
  function Bits(b: Byte): (v: nat)
    requires Continues(b)
    ensures v < 0x40 && b == 0x80 + v
  {
    var v: int := b;
    v - 0x80
  }

  /** The code point at the start and how many bytes it takes, or None where the decoder
      rejects them: no overlong form, no surrogate, nothing above 0x10FFFF. */
  function NextPoint(b: Bytes): (p: Option<(nat, nat)>)
    ensures p.Some? ==> 1 <= p.value.1 <= |b|
  {
    if |b| == 0 then None
    else
      var lead: int := b[0];
      if lead < 0x80 then Some((lead, 1))
      else if 0xC2 <= lead <= 0xDF && |b| > 1 && Continues(b[1]) then Some((0x40 * (lead - 0xC0) + Bits(b[1]), 2))
      else if 0xE0 <= lead <= 0xEF && |b| > 2 && Continues(b[1]) && Continues(b[2]) then
        var v := 0x1000 * (lead - 0xE0) + 0x40 * Bits(b[1]) + Bits(b[2]);
        if v < 0x800 || 0xD800 <= v <= 0xDFFF then None else Some((v, 3))
      else if 0xF0 <= lead <= 0xF4 && |b| > 3 && Continues(b[1]) && Continues(b[2]) && Continues(b[3]) then
        var v := 0x40000 * (lead - 0xF0) + 0x1000 * Bits(b[1]) + 0x40 * Bits(b[2]) + Bits(b[3]);
        if v < 0x10000 || v > 0x10FFFF then None else Some((v, 4))
      else None
  }

  function UnitsOf(v: nat): (t: Text)
    requires v <= 0x10FFFF && !(0xD800 <= v <= 0xDFFF)
  {
    if v < 0x10000 then [v] else [0xD800 + (v - 0x10000) / 0x400, 0xDC00 + (v - 0x10000) % 0x400]
  }

  lemma PointIsScalar(b: Bytes)
    requires NextPoint(b).Some?
    ensures NextPoint(b).value.0 <= 0x10FFFF && !(0xD800 <= NextPoint(b).value.0 <= 0xDFFF)
  {
  }

  function Decoded(b: Bytes): Option<Text> {
    if |b| == 0 then Some([])
    else match NextPoint(b)
      case None => None
      case Some((v, n)) =>
        PointIsScalar(b);
        match Decoded(b[n..])
        case None => None
        case Some(rest) => Some(UnitsOf(v) + rest)
  }

  lemma UnitDecodes(u: Unit, rest: Bytes)
    requires !High(u) && !Low(u)
    ensures NextPoint(EncodedUnit(u) + rest) == Some((u, |EncodedUnit(u)|))
  {
    var b := EncodedUnit(u) + rest;
    if u >= 0x800 {
      var q := u / 0x40;
      assert u == 0x40 * q + u % 0x40 && q == 0x40 * (u / 0x1000) + q % 0x40;
      assert b[0] == 0xE0 + u / 0x1000 && b[1] == 0x80 + q % 0x40 && b[2] == 0x80 + u % 0x40;
    } else if u >= 0x80 {
      assert b[0] == 0xC0 + u / 0x40 && b[1] == 0x80 + u % 0x40;
    }
  }

  /** A point is made of its lead and three times six bits. */
  lemma SixBits(v: nat)
    requires v <= 0x10FFFF
    ensures v == 0x40000 * (v / 0x40000) + 0x1000 * (v / 0x1000 % 0x40) + 0x40 * (v / 0x40 % 0x40) + v % 0x40
    ensures v / 0x40000 <= 4
  {
    assert v / 0x1000 == v / 0x40 / 0x40 && v / 0x40000 == v / 0x40 / 0x40 / 0x40;
  }

  lemma NextOfFour(b: Bytes, v: nat)
    requires |b| > 3 && 0xF0 <= b[0] <= 0xF4 && Continues(b[1]) && Continues(b[2]) && Continues(b[3])
    requires 0x10000 <= v <= 0x10FFFF
    requires v == 0x40000 * (b[0] - 0xF0) + 0x1000 * Bits(b[1]) + 0x40 * Bits(b[2]) + Bits(b[3])
    ensures NextPoint(b) == Some((v, 4))
  {
  }

  lemma PairDecodes(high: Unit, low: Unit, rest: Bytes)
    requires High(high) && Low(low)
    ensures NextPoint(EncodedPair(high, low) + rest) == Some((PairValue(high, low), 4))
    ensures UnitsOf(PairValue(high, low)) == [high, low]
  {
    FourDecode(PairValue(high, low), rest);
    PairUnits(high, low);
  }

  lemma FourDecode(v: nat, rest: Bytes)
    requires 0x10000 <= v <= 0x10FFFF
    ensures NextPoint(InFourBytes(v) + rest) == Some((v, 4))
  {
    SixBits(v);
    NextOfFour(InFourBytes(v) + rest, v);
  }

  lemma PairUnits(high: Unit, low: Unit)
    requires High(high) && Low(low)
    ensures UnitsOf(PairValue(high, low)) == [high, low]
  {
    var v := PairValue(high, low) - 0x10000;
    assert v == 0x400 * (high - 0xD800) + (low - 0xDC00);
  }

  /** The bytes of a text begin with those of its first character. */
  lemma EncodedFirst(t: Text)
    requires Paired(t) && |t| > 0
    ensures High(t[0]) ==> |t| > 1 && Low(t[1]) && Encoded(t) == EncodedPair(t[0], t[1]) + Encoded(t[2..])
    ensures !High(t[0]) ==> !Low(t[0]) && Encoded(t) == EncodedUnit(t[0]) + Encoded(t[1..])
  {
  }

  /** What the decoder makes of bytes whose first point it knows. */
  lemma DecodedFirst(first: Bytes, rest: Bytes, v: nat, units: Text, text: Text)
    requires |first| > 0 && NextPoint(first + rest) == Some((v, |first|)) && Decoded(rest) == Some(text)
    requires v <= 0x10FFFF && !(0xD800 <= v <= 0xDFFF) && UnitsOf(v) == units
    ensures Decoded(first + rest) == Some(units + text)
  {
    assert (first + rest)[|first|..] == rest;
  }

  /** Well-formed text survives encoding and decoding. */
  lemma {:induction false} EncodingRoundTrips(t: Text)
    requires Paired(t)
    ensures Decoded(Encoded(t)) == Some(t)
    decreases |t|
  {
    if |t| > 0 {
      EncodedFirst(t);
      if High(t[0]) {
        EncodingRoundTrips(t[2..]);
        PairDecodes(t[0], t[1], Encoded(t[2..]));
        DecodedFirst(EncodedPair(t[0], t[1]), Encoded(t[2..]), PairValue(t[0], t[1]), [t[0], t[1]], t[2..]);
        assert t == [t[0], t[1]] + t[2..];
      } else {
        EncodingRoundTrips(t[1..]);
        UnitDecodes(t[0], Encoded(t[1..]));
        DecodedFirst(EncodedUnit(t[0]), Encoded(t[1..]), t[0], [t[0]], t[1..]);
        assert t == [t[0]] + t[1..];
      }
    }
  }

  // ---------------------------------------------------------------------
  // The decoder is strict
  // ---------------------------------------------------------------------

  function EncodedPoint(v: nat): Bytes
    requires v <= 0x10FFFF && !(0xD800 <= v <= 0xDFFF)
  {
    if v < 0x10000 then EncodedUnit(v) else EncodedPair(UnitsOf(v)[0], UnitsOf(v)[1])
  }

  lemma ShortPoint(b: Bytes)
    requires NextPoint(b).Some? && NextPoint(b).value.1 <= 2
    ensures NextPoint(b).value.0 < 0x800 && EncodedUnit(NextPoint(b).value.0) == b[..NextPoint(b).value.1]
  {
    var n := NextPoint(b).value.1;
    assert b[..n] == if n == 1 then [b[0]] else [b[0], b[1]];
  }

  lemma ThreeBytePoint(b: Bytes)
    requires NextPoint(b).Some? && NextPoint(b).value.1 == 3
    ensures NextPoint(b).value.0 < 0x10000 && EncodedUnit(NextPoint(b).value.0) == b[..3]
  {
    ThreeBytes(b[0] - 0xE0, Bits(b[1]), Bits(b[2]));
    assert b[..3] == [b[0], b[1], b[2]];
  }

  lemma PairBytes(v: nat)
    requires 0x10000 <= v <= 0x10FFFF
    ensures EncodedPoint(v) == InFourBytes(v)
  {
    PairOf(v);
  }

  lemma LongPoint(b: Bytes)
    requires NextPoint(b).Some? && NextPoint(b).value.1 == 4
    ensures |b| > 3 && Continues(b[1]) && Continues(b[2]) && Continues(b[3]) && 0xF0 <= b[0]
    ensures NextPoint(b).value.0 == 0x40000 * (b[0] - 0xF0) + 0x1000 * Bits(b[1]) + 0x40 * Bits(b[2]) + Bits(b[3])
    ensures 0x10000 <= NextPoint(b).value.0 <= 0x10FFFF
  {
  }

  lemma FourByteCode(v: nat, a: nat, b: nat, c: nat, d: nat)
    requires b < 0x40 && c < 0x40 && d < 0x40 && 0x10000 <= v <= 0x10FFFF
    requires v == 0x40000 * a + 0x1000 * b + 0x40 * c + d
    ensures a <= 4 && InFourBytes(v) == [0xF0 + a, 0x80 + b, 0x80 + c, 0x80 + d]
  {
    FourBytes(a, b, c, d);
  }

  lemma FourBytePoint(b: Bytes, v: nat)
    requires |b| > 3 && Continues(b[1]) && Continues(b[2]) && Continues(b[3]) && 0xF0 <= b[0]
    requires v == 0x40000 * (b[0] - 0xF0) + 0x1000 * Bits(b[1]) + 0x40 * Bits(b[2]) + Bits(b[3])
    requires 0x10000 <= v <= 0x10FFFF
    ensures EncodedPoint(v) == b[..4]
  {
    FourByteCode(v, b[0] - 0xF0, Bits(b[1]), Bits(b[2]), Bits(b[3]));
    PairBytes(v);
    assert b[..4] == [b[0], b[1], b[2], b[3]];
  }

  lemma PairOf(v: nat)
    requires 0x10000 <= v <= 0x10FFFF
    ensures |UnitsOf(v)| == 2 && High(UnitsOf(v)[0]) && Low(UnitsOf(v)[1])
    ensures PairValue(UnitsOf(v)[0], UnitsOf(v)[1]) == v
  {
  }

  /** The bytes that a point takes are the only ones that encode it. */
  lemma PointIsEncoded(b: Bytes)
    requires NextPoint(b).Some?
    ensures NextPoint(b).value.0 <= 0x10FFFF && !(0xD800 <= NextPoint(b).value.0 <= 0xDFFF)
    ensures EncodedPoint(NextPoint(b).value.0) == b[..NextPoint(b).value.1]
  {
    PointIsScalar(b);
    PointLength(b);
    if NextPoint(b).value.1 <= 2 {
      ShortPoint(b);
    } else if NextPoint(b).value.1 == 3 {
      ThreeBytePoint(b);
    } else {
      LongPoint(b);
      FourBytePoint(b, NextPoint(b).value.0);
    }
  }

  lemma PointLength(b: Bytes)
    requires NextPoint(b).Some?
    ensures 1 <= NextPoint(b).value.1 <= 4
  {
  }

  lemma ThreeBytes(a: nat, b: nat, c: nat)
    requires b < 0x40 && c < 0x40
    ensures var v := 0x1000 * a + 0x40 * b + c; v / 0x1000 == a && v / 0x40 % 0x40 == b && v % 0x40 == c
  {
    assert (0x1000 * a + 0x40 * b + c) / 0x40 == 0x40 * a + b;
  }

  lemma FourBytes(a: nat, b: nat, c: nat, d: nat)
    requires b < 0x40 && c < 0x40 && d < 0x40
    ensures var v := 0x40000 * a + 0x1000 * b + 0x40 * c + d;
            v / 0x40000 == a && v / 0x1000 % 0x40 == b && v / 0x40 % 0x40 == c && v % 0x40 == d
  {
    var v := 0x40000 * a + 0x1000 * b + 0x40 * c + d;
    assert v / 0x40 == 0x1000 * a + 0x40 * b + c;
    assert v / 0x1000 == 0x40 * a + b;
  }

  lemma EncodedJoins(v: nat, rest: Text)
    requires v <= 0x10FFFF && !(0xD800 <= v <= 0xDFFF) && Paired(rest)
    ensures Paired(UnitsOf(v) + rest) && Encoded(UnitsOf(v) + rest) == EncodedPoint(v) + Encoded(rest)
  {
    var t := UnitsOf(v) + rest;
    if v < 0x10000 {
      assert t[1..] == rest;
    } else {
      PairOf(v);
      assert t[2..] == rest;
    }
  }

  lemma DecodedStep(b: Bytes, p: Option<(nat, nat)>)
    requires |b| > 0 && Decoded(b).Some? && p == NextPoint(b)
    ensures p.Some? && 1 <= p.value.1 <= |b| && Decoded(b[p.value.1..]).Some?
    ensures p.value.0 <= 0x10FFFF && !(0xD800 <= p.value.0 <= 0xDFFF)
    ensures Decoded(b).value == UnitsOf(p.value.0) + Decoded(b[p.value.1..]).value
  {
    if p.Some? {
      PointIsScalar(b);
    }
  }

  lemma PointThenRest(b: Bytes, v: nat, n: nat, rest: Text)
    requires v <= 0x10FFFF && !(0xD800 <= v <= 0xDFFF) && n <= |b| && EncodedPoint(v) == b[..n]
    requires Paired(rest) && Encoded(rest) == b[n..]
    ensures Paired(UnitsOf(v) + rest) && Encoded(UnitsOf(v) + rest) == b
  {
    EncodedJoins(v, rest);
    assert b == b[..n] + b[n..];
  }

  lemma {:induction false} DecodedIsEncoded(b: Bytes)
    requires Decoded(b).Some?
    ensures Paired(Decoded(b).value) && Encoded(Decoded(b).value) == b
    decreases |b|
  {
    if |b| > 0 {
      DecodedStep(b, NextPoint(b));
      PointIsEncoded(b);
      var (v, n) := NextPoint(b).value;
      DecodedIsEncoded(b[n..]);
      PointThenRest(b, v, n, Decoded(b[n..]).value);
    }
  }

  /** Nothing is decoded but what was encoded: bytes decode to a text exactly when the text
      is well formed and they are its encoding. */
  lemma DecodedExactly(b: Bytes, t: Text)
    ensures Decoded(b) == Some(t) <==> Paired(t) && Encoded(t) == b
  {
    if Decoded(b) == Some(t) {
      DecodedIsEncoded(b);
    } else if Paired(t) && Encoded(t) == b {
      EncodingRoundTrips(t);
    }
  }

  /** A lone surrogate is encoded as the replacement character. */
  lemma LoneSurrogates(u: Unit)
    requires High(u) || Low(u)
    ensures Encoded([u]) == Encoded([0xFFFD])
  {
    assert [u][1..] == [] && [0xFFFD][1..] == [];
  }

  /** A unit below 0x80 is found in the bytes exactly where it is in the text. */
  lemma {:induction false} AsciiKept(t: Text, u: Unit)
    requires u < 0x80
    ensures u in Encoded(t) <==> u in t
    decreases |t|
  {
    if |t| > 1 && High(t[0]) && Low(t[1]) {
      AsciiKept(t[2..], u);
      assert t == [t[0], t[1]] + t[2..];
      assert u !in EncodedPair(t[0], t[1]);
    } else if |t| > 0 {
      AsciiKept(t[1..], u);
      assert t == [t[0]] + t[1..];
      assert u in EncodedUnit(t[0]) <==> u == t[0];
    }
  }

  lemma {:induction false} EncodedInTwo(a: Text, b: Text)
    requires |a| == 0 || !High(a[|a| - 1]) || |b| == 0 || !Low(b[0])
    ensures Encoded(a + b) == Encoded(a) + Encoded(b)
    decreases |a|
  {
    if |a| == 0 {
      assert a + b == b;
    } else if |a| > 1 && High(a[0]) && Low(a[1]) {
      assert (a + b)[2..] == a[2..] + b;
      EncodedInTwo(a[2..], b);
    } else {
      assert (a + b)[1..] == a[1..] + b;
      EncodedInTwo(a[1..], b);
    }
  }
}
