/** The lexical tables of JSON, character by character, and what the parser makes of
    them (sections 2, 3 and 7 of RFC 8259). */
module JsonTables {
  import opened Standard
  import opened JsonLexical
  import opened JsonGrammar
  import opened StrictJson

  /** The code units of an ASCII string. */
  function Units(s: string): (t: Text)
    requires forall i | 0 <= i < |s| :: s[i] as int < 0x80
    ensures |t| == |s| && forall i | 0 <= i < |s| :: t[i] == s[i] as int
  {
    seq(|s|, i requires 0 <= i < |s| => s[i] as int)
  }

  const LOWER := "0123456789abcdef"
  const UPPER := "0123456789ABCDEF"

  // ---------------------------------------------------------------------
  // Characters
  // ---------------------------------------------------------------------

  /** The hexadecimal digits, either case, and what each is worth. */
  lemma HexValueExactly(u: Unit, i: nat)
    ensures HexDigit(u) && HexValue(u) == i <==> i < 16 && (u == LOWER[i] as int || u == UPPER[i] as int)
  {
  }

  /** A letter may follow a backslash and stand for this unit. */
  predicate StandsFor(letter: Unit, u: Unit) {
    || (letter == '\"' as int && u == 0x22)
    || (letter == '\\' as int && u == 0x5C)
    || (letter == '/' as int && u == 0x2F)
    || (letter == 'b' as int && u == 0x08)
    || (letter == 'f' as int && u == 0x0C)
    || (letter == 'n' as int && u == 0x0A)
    || (letter == 'r' as int && u == 0x0D)
    || (letter == 't' as int && u == 0x09)
  }

  lemma EscapesExactly(letter: Unit, u: Unit)
    ensures Escapes(letter) == Some(u) <==> StandsFor(letter, u)
  {
  }

  /** Blanks are the space, the tab, the line feed and the carriage return; digits, exponent
      marks, signs and the fixed texts are the characters that the grammar names. */
  lemma TablesExactly(u: Unit)
    ensures Blank(u) <==> exists i :: 0 <= i < 4 && u == " \t\n\r"[i] as int
    ensures Digit(u) <==> exists i :: 0 <= i < 10 && u == "0123456789"[i] as int
    ensures ExponentMark(u) <==> u == 'e' as int || u == 'E' as int
    ensures Sign(u) <==> u == '+' as int || u == '-' as int
    ensures [QUOTE, BACKSLASH, MINUS, POINT, ZERO] == Units("\"\\-.0")
    ensures [COMMA, COLON, OPEN_BRACKET, CLOSE_BRACKET, OPEN_BRACE, CLOSE_BRACE] == Units(",:[]{}")
    ensures NULL_TEXT == Units("null") && TRUE_TEXT == Units("true") && FALSE_TEXT == Units("false")
  {
    var blanks, digits := " \t\n\r", "0123456789";
    if Blank(u) {
      var i := if u == 0x20 then 0 else if u == 0x09 then 1 else if u == 0x0A then 2 else 3;
      assert u == blanks[i] as int;
    }
    if Digit(u) {
      assert u == digits[u - 0x30] as int;
    }
  }

  // ---------------------------------------------------------------------
  // Strings, parsed
  // ---------------------------------------------------------------------

  predicate InRange(maxDepth: int, maxNodes: int) {
    1 <= maxDepth <= MAX_SAFE && 1 <= maxNodes <= MAX_SAFE
  }

  /** A quoted text parses to its decoded characters, if they pair their surrogates. */
  lemma StringParses(chars: seq<Character>, maxDepth: int, maxNodes: int)
    requires AllValid(chars) && InRange(maxDepth, maxNodes)
    ensures Parse([QUOTE] + WrittenTail(chars), maxDepth, maxNodes) ==
            if Paired(DecodedAll(chars)) then Ok(String(DecodedAll(chars))) else Err(InvalidIJson)
  {
    var s := [QUOTE] + WrittenTail(chars);
    ScanOver(chars, []);
    assert s[1..] == WrittenTail(chars) && WrittenTail(chars) + [] == WrittenTail(chars);
    assert ScanString(s[1..]) == Some(Scan(chars, []));
    assert Skip(s) == s;
  }

  lemma OneCharacter(c: Character)
    requires c.Valid()
    ensures WrittenTail([c]) == c.Written() + [QUOTE] && DecodedAll([c]) == [c.Decoded()]
  {
    assert [c][1..] == [];
  }

  /** The text of a letter after a backslash, in quotes, parses to what the letter stands
      for; after any other letter than u there is no value. */
  lemma EscapeParses(letter: Unit, u: Unit, maxDepth: int, maxNodes: int)
    requires InRange(maxDepth, maxNodes)
    ensures letter != 'u' as int ==>
              (Parse([QUOTE, BACKSLASH, letter, QUOTE], maxDepth, maxNodes) == Ok(String([u])) <==>
                StandsFor(letter, u))
  {
    var s := [QUOTE, BACKSLASH, letter, QUOTE];
    EscapesExactly(letter, u);
    if Escapes(letter).Some? {
      OneCharacter(Escape(letter));
      StringParses([Escape(letter)], maxDepth, maxNodes);
      assert s == [QUOTE] + ([BACKSLASH, letter] + [QUOTE]);
      var w := Escapes(letter).value;
      EscapesExactly(letter, w);
      assert Paired([w]);
      assert Parse(s, maxDepth, maxNodes) == Ok(String([w]));
      assert [w] == [u] ==> w == u;
    } else if letter != UNICODE_ESCAPE {
      assert s[1..] == [BACKSLASH, letter, QUOTE];
      assert NextCharacter(s[1..]).None?;
      assert Skip(s) == s;
    }
  }

  /** This unit is the hexadecimal digit of that worth, in one case or the other. */
  predicate IsHex(u: Unit, i: nat) {
    i < 16 && (u == LOWER[i] as int || u == UPPER[i] as int)
  }

  lemma HexDecodes(digits: Text, worths: seq<nat>)
    requires |digits| == |worths| == 4 && forall k | 0 <= k < 4 :: IsHex(digits[k], worths[k])
    ensures Hex(digits).Valid() && Hex(digits).Decoded() == Spelled(worths)
  {
    HexValueExactly(digits[0], worths[0]);
    HexValueExactly(digits[1], worths[1]);
    HexValueExactly(digits[2], worths[2]);
    HexValueExactly(digits[3], worths[3]);
  }

  /** The text of four hexadecimal digits after a backslash and a u, in quotes, parses to
      the unit they spell, in either case of letters; half a surrogate pair is refused. */
  lemma HexParses(digits: Text, worths: seq<nat>, maxDepth: int, maxNodes: int)
    requires InRange(maxDepth, maxNodes)
    requires |digits| == |worths| == 4 && forall k | 0 <= k < 4 :: IsHex(digits[k], worths[k])
    ensures Spelled(worths) < 0x1_0000
    ensures Parse([QUOTE] + ([BACKSLASH, 'u' as int] + digits + [QUOTE]), maxDepth, maxNodes) ==
            if 0xD800 <= Spelled(worths) <= 0xDFFF then Err(InvalidIJson) else Ok(String([Spelled(worths)]))
  {
    HexDecodes(digits, worths);
    OneCharacter(Hex(digits));
    StringParses([Hex(digits)], maxDepth, maxNodes);
    SingleUnit(Hex(digits).Decoded());
  }

  lemma SingleUnit(u: Unit)
    ensures Paired([u]) <==> !(0xD800 <= u <= 0xDFFF)
  {
    assert [u][1..] == [];
  }

  /** Two such escapes that spell a surrogate pair are taken together. */
  lemma HexPairParses(high: seq<Unit>, low: seq<Unit>, h: seq<nat>, l: seq<nat>, maxDepth: int, maxNodes: int)
    requires InRange(maxDepth, maxNodes)
    requires |high| == |low| == |h| == |l| == 4
    requires forall k | 0 <= k < 4 :: IsHex(high[k], h[k]) && IsHex(low[k], l[k])
    requires 0xD800 <= Spelled(h) <= 0xDBFF && 0xDC00 <= Spelled(l) <= 0xDFFF
    ensures Parse([QUOTE] + ([BACKSLASH, 'u' as int] + high + ([BACKSLASH, 'u' as int] + low + [QUOTE])), maxDepth,
            maxNodes)
            == Ok(String([Spelled(h), Spelled(l)]))
  {
    HexDecodes(high, h);
    HexDecodes(low, l);
    OneCharacter(Hex(low));
    assert [Hex(high), Hex(low)][1..] == [Hex(low)];
    StringParses([Hex(high), Hex(low)], maxDepth, maxNodes);
    assert DecodedAll([Hex(high), Hex(low)]) == [Spelled(h), Spelled(l)];
    assert [Spelled(h), Spelled(l)][2..] == [];
  }

  /** The number that four digits spell. */
  function Spelled(digits: seq<nat>): nat
    requires |digits| == 4
  {
    0x1000 * digits[0] + 0x100 * digits[1] + 0x10 * digits[2] + digits[3]
  }
}
