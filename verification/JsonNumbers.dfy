/** What a JSON number is worth, and which numbers are finite as doubles. */
module JsonNumbers {
  import opened Standard
  import opened JsonLexical

  // ---------------------------------------------------------------------
  // Reading digits
  // ---------------------------------------------------------------------

  function Distance(n: int): nat {
    if n < 0 then -n else n
  }

  function TenTo(n: int): real
    decreases Distance(n)
  {
    if n == 0 then 1.0 else if n > 0 then 10.0 * TenTo(n - 1) else TenTo(n + 1) / 10.0
  }

  /** What one digit is worth in its place. */
  function Worth(u: Unit, place: int): real
    requires Digit(u)
  {
    (u - '0' as int) as real * TenTo(place)
  }

  /** The value of digits the first of which stands in this place. */
  function Placed(digits: Text, place: int): real
    requires AllDigits(digits)
  {
    if |digits| == 0 then 0.0 else Worth(digits[0], place) + Placed(digits[1..], place - 1)
  }

  /** The whole number that the digits continue, read from the left. */
  function ReadOn(digits: Text, before: nat): nat
    requires AllDigits(digits)
  {
    if |digits| == 0 then before else ReadOn(digits[1..], 10 * before + (digits[0] - '0' as int))
  }

  /** The power of ten that an exponent stands for. */
  function ScaleOf(exponent: Exponent): int
    requires exponent.Valid()
  {
    match exponent
    case NoExponent => 0
    case Exponent(_, sign, digits) =>
      var size: int := ReadOn(digits, 0);
      if sign == Some('-' as int) then -size else size
  }

  /** The absolute value of a number (section 6 of RFC 8259). */
  function Magnitude(parts: NumberParts): real
    requires parts.Valid()
  {
    Placed(parts.whole + parts.fraction, |parts.whole| - 1 + ScaleOf(parts.exponent))
  }

  lemma WorthHigher(u: Unit, place: int)
    requires Digit(u)
    ensures Worth(u, place + 1) == 10.0 * Worth(u, place)
  {
    assert TenTo(place + 1) == 10.0 * TenTo(place);
  }

  lemma {:induction false} PlacedHigher(digits: Text, place: int)
    requires AllDigits(digits)
    ensures Placed(digits, place + 1) == 10.0 * Placed(digits, place)
    decreases |digits|
  {
    if |digits| > 0 {
      PlacedHigher(digits[1..], place - 1);
      WorthHigher(digits[0], place);
    }
  }

  lemma {:induction false} PlacedLast(a: Text, u: Unit, place: int, last: real)
    requires AllDigits(a) && Digit(u) && last == Worth(u, place - |a|)
    ensures AllDigits(a + [u]) && Placed(a + [u], place) == Placed(a, place) + last
    decreases |a|
  {
    if |a| == 0 {
      assert a + [u] == [u] && [u][1..] == [];
    } else {
      assert (a + [u])[1..] == a[1..] + [u];
      PlacedLast(a[1..], u, place - 1, last);
    }
  }

  lemma {:induction false} PlacedIsDecimal(digits: Text)
    requires AllDigits(digits)
    ensures Placed(digits, |digits| - 1) == Decimal(digits) as real
  {
    if |digits| > 0 {
      var last := |digits| - 1;
      PlacedIsDecimal(digits[..last]);
      PlacedHigher(digits[..last], last - 1);
      PlacedLast(digits[..last], digits[last], last, (digits[last] - ZERO) as real);
      assert digits[..last] + [digits[last]] == digits;
    }
  }

  function TimesTen(x: real, n: nat): real {
    if n == 0 then x else 10.0 * TimesTen(x, n - 1)
  }

  lemma {:induction false} TimesTenNat(x: nat, n: nat)
    ensures TimesTen(x as real, n) == (x * Power(10, n)) as real
  {
    if n > 0 {
      TimesTenNat(x, n - 1);
      assert x * (10 * Power(10, n - 1)) == 10 * (x * Power(10, n - 1));
    }
  }

  lemma {:induction false} Raised(digits: Text, place: int, bound: real, n: nat)
    requires AllDigits(digits)
    ensures Placed(digits, place + n) == TimesTen(Placed(digits, place), n)
    ensures Placed(digits, place) < bound <==> Placed(digits, place + n) < TimesTen(bound, n)
  {
    if n > 0 {
      Raised(digits, place, bound, n - 1);
      PlacedHigher(digits, place + n - 1);
    }
  }

  lemma {:induction false} ReadOnLast(digits: Text, before: nat)
    requires AllDigits(digits) && |digits| > 0
    ensures ReadOn(digits, before) == 10 * ReadOn(digits[..|digits| - 1], before) + (digits[|digits| - 1] - ZERO)
    decreases |digits|
  {
    if |digits| > 1 {
      assert digits[..|digits| - 1][1..] == digits[1..][..|digits| - 2];
      ReadOnLast(digits[1..], 10 * before + (digits[0] - ZERO));
    } else {
      assert digits[1..] == [] && digits[..0] == [];
    }
  }

  lemma {:induction false} ReadOnIsDecimal(digits: Text)
    requires AllDigits(digits)
    ensures ReadOn(digits, 0) == Decimal(digits)
  {
    if |digits| > 0 {
      ReadOnLast(digits, 0);
      ReadOnIsDecimal(digits[..|digits| - 1]);
    }
  }

  /** Both sides of a comparison, scaled to whole numbers. */
  lemma Compared(digits: Text, place: int, bound: nat, e: nat, n: nat)
    requires AllDigits(digits) && place + n == |digits| - 1 + e
    ensures Placed(digits, place) < bound as real <==> Decimal(digits) * Power(10, e) < bound * Power(10, n)
  {
    Raised(digits, place, bound as real, n);
    Raised(digits, |digits| - 1, 0.0, e);
    PlacedIsDecimal(digits);
    TimesTenNat(Decimal(digits), e);
    TimesTenNat(bound, n);
  }

  /** The decimal digits of a number, and the places after its point. */
  lemma FinitePlain(parts: NumberParts, digits: Text, low: nat)
    requires parts.Valid() && digits == parts.whole + parts.fraction && low == |parts.fraction|
    requires parts.exponent.NoExponent?
    ensures Finite(parts) <==> Magnitude(parts) < OVERFLOW as real
  {
    Compared(digits, |parts.whole| - 1, OVERFLOW, 0, low);
  }

  lemma FiniteScaled(parts: NumberParts, digits: Text, low: nat, e: nat)
    requires parts.Valid() && digits == parts.whole + parts.fraction && low == |parts.fraction|
    requires parts.exponent.Exponent? && e == Decimal(parts.exponent.digits)
    ensures Finite(parts) <==> Magnitude(parts) < OVERFLOW as real
  {
    ReadOnIsDecimal(parts.exponent.digits);
    if parts.exponent.sign == Some(MINUS) {
      Compared(digits, |parts.whole| - 1 - e, OVERFLOW, 0, low + e);
    } else {
      Compared(digits, |parts.whole| - 1 + e, OVERFLOW, e, low);
    }
  }

  lemma FiniteBelow(parts: NumberParts)
    requires parts.Valid()
    ensures Finite(parts) <==> Magnitude(parts) < OVERFLOW as real
  {
    match parts.exponent
    case NoExponent => FinitePlain(parts, parts.whole + parts.fraction, |parts.fraction|);
    case Exponent(_, _, digits) => FiniteScaled(parts, parts.whole + parts.fraction, |parts.fraction|, Decimal(digits));
  }

  // ---------------------------------------------------------------------
  // The threshold
  // ---------------------------------------------------------------------

  lemma Doubled(a: nat, b: nat)
    ensures (2 * a) * b == 2 * (a * b)
  {
  }

  lemma {:induction false} Product(m: nat, n: nat, p: nat, q: nat)
    requires Power(2, m) == p && Power(2, n) == q
    ensures Power(2, m + n) == p * q
    decreases m
  {
    if m > 0 {
      Product(m - 1, n, Power(2, m - 1), q);
      Doubled(Power(2, m - 1), q);
    }
  }

  const TWO_80: nat := 0x100000000000000000000
  const TWO_320: nat := TWO_80 * TWO_80 * TWO_80 * TWO_80

  lemma TwoTo10()
    ensures Power(2, 10) == 0x400
  {
    assert Power(2, 5) == 32;
    Product(5, 5, 32, 32);
  }

  lemma TwoTo20()
    ensures Power(2, 20) == 0x10_0000
  {
    TwoTo10();
    Product(10, 10, 0x400, 0x400);
  }

  lemma TwoTo40()
    ensures Power(2, 40) == 0x100_0000_0000
  {
    TwoTo20();
    Product(20, 20, 0x10_0000, 0x10_0000);
  }

  lemma TwoTo80()
    ensures Power(2, 80) == TWO_80
  {
    TwoTo40();
    Product(40, 40, 0x100_0000_0000, 0x100_0000_0000);
  }

  lemma TwoTo160()
    ensures Power(2, 160) == TWO_80 * TWO_80
  {
    TwoTo80();
    Product(80, 80, TWO_80, TWO_80);
  }

  lemma TwoTo320()
    ensures Power(2, 320) == TWO_320
  {
    TwoTo160();
    Product(160, 160, TWO_80 * TWO_80, TWO_80 * TWO_80);
  }

  lemma TwoTo640()
    ensures Power(2, 640) == TWO_320 * TWO_320
  {
    TwoTo320();
    Product(320, 320, TWO_320, TWO_320);
  }

  lemma TwoTo960()
    ensures Power(2, 960) == TWO_320 * TWO_320 * TWO_320
  {
    TwoTo320();
    TwoTo640();
    Product(640, 320, TWO_320 * TWO_320, TWO_320);
  }

  lemma TwoTo970()
    ensures Power(2, 970) == TWO_320 * TWO_320 * TWO_320 * 0x400
  {
    TwoTo10();
    TwoTo960();
    Product(960, 10, TWO_320 * TWO_320 * TWO_320, 0x400);
  }

  lemma TwoTo14()
    ensures Power(2, 14) == 0x4000
  {
    TwoTo10();
    assert Power(2, 4) == 16;
    Product(10, 4, 0x400, 16);
  }

  lemma TwoTo54()
    ensures Power(2, 54) == 0x40_0000_0000_0000
  {
    TwoTo40();
    TwoTo14();
    Product(40, 14, 0x100_0000_0000, 0x4000);
  }

  /** The threshold is half a unit past the largest double. */
  lemma OverflowValue()
    ensures OVERFLOW == Power(2, 1024) - Power(2, 970)
  {
    TwoTo54();
    TwoTo970();
    Product(970, 54, TWO_320 * TWO_320 * TWO_320 * 0x400, 0x40_0000_0000_0000);
  }

  /** A number is taken as finite exactly when its value lies below 2^1024 - 2^970, the
      threshold from which rounding to a double gives infinity. */
  lemma FiniteExactly(parts: NumberParts)
    requires parts.Valid()
    ensures Finite(parts) <==> Magnitude(parts) < (Power(2, 1024) - Power(2, 970)) as real
  {
    OverflowValue();
    FiniteBelow(parts);
  }
}
