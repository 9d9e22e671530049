/** The canonical printer: object members sorted by name, no blanks. */
module CanonicalJson {
  import opened JsonLexical
  import opened JsonGrammar

  // ---------------------------------------------------------------------
  // Strings
  // ---------------------------------------------------------------------

  function HexUnit(v: nat): (u: Unit)
    requires v < 16
    ensures HexDigit(u) && HexValue(u) == v
  {
    if v < 10 then 0x30 + v else 0x57 + v
  }

  function HexOf(u: Unit): (c: Character)
    ensures c.Valid() && c.Decoded() == u
  {
    var a := u / 16;
    var b := a / 16;
    var digits := [HexUnit(b / 16), HexUnit(b % 16), HexUnit(a % 16), HexUnit(u % 16)];
    assert HexValue(digits[0]) == b / 16 && HexValue(digits[1]) == b % 16;
    assert HexValue(digits[2]) == a % 16 && HexValue(digits[3]) == u % 16;
    Hex(digits)
  }

  /** How the host prints one code unit: short escapes where they exist, other controls
      and lone surrogates in hexadecimal, everything else as it is. */
  function CharacterAt(t: Text, i: nat): (c: Character)
    requires i < |t|
    ensures c.Valid() && c.Decoded() == t[i]
  {
    var u := t[i];
    if u == QUOTE || u == BACKSLASH then Escape(u)
    else if u == 0x08 then Escape(0x62)
    else if u == 0x0C then Escape(0x66)
    else if u == 0x0A then Escape(0x6E)
    else if u == 0x0D then Escape(0x72)
    else if u == 0x09 then Escape(0x74)
    else if u < 0x20 || !PairedAt(t, i) then HexOf(u)
    else Raw(u)
  }

  function CharactersFrom(t: Text, i: nat): (chars: seq<Character>)
    requires i <= |t|
    ensures AllValid(chars) && DecodedAll(chars) == t[i..]
    decreases |t| - i
  {
    if i == |t| then []
    else
      assert t[i..] == [t[i]] + t[i + 1..];
      [CharacterAt(t, i)] + CharactersFrom(t, i + 1)
  }

  function PrintString(t: Text): Text {
    [QUOTE] + WrittenTail(CharactersFrom(t, 0))
  }

  // ---------------------------------------------------------------------
  // Member order
  // ---------------------------------------------------------------------

  /** Names compare by code units, a prefix first. */
  predicate Before(a: Text, b: Text) {
    if |a| == 0 then |b| > 0
    else |b| > 0 && (a[0] < b[0] || (a[0] == b[0] && Before(a[1..], b[1..])))
  }

  /** A member goes in front of the first one not named before it. */
  function Insert(m: Member, sorted: seq<Member>): (r: seq<Member>)
    ensures |r| == |sorted| + 1 && multiset(r) == multiset(sorted) + multiset{m}
    ensures NodesOfMembers(r) == Nodes(m.value) + NodesOfMembers(sorted)
  {
    if |sorted| > 0 && Before(sorted[0].key, m.key) then
      var tail := Insert(m, sorted[1..]);
      assert sorted == [sorted[0]] + sorted[1..];
      assert ([sorted[0]] + tail)[1..] == tail;
      [sorted[0]] + tail
    else
      assert ([m] + sorted)[1..] == sorted;
      [m] + sorted
  }

  function Sorted(members: seq<Member>): (r: seq<Member>)
    ensures |r| == |members| && multiset(r) == multiset(members)
    ensures NodesOfMembers(r) == NodesOfMembers(members)
  {
    if |members| == 0 then []
    else
      assert members == [members[0]] + members[1..];
      Insert(members[0], Sorted(members[1..]))
  }

  // ---------------------------------------------------------------------
  // The printer
  // ---------------------------------------------------------------------

  function Print(v: Value): Text
    decreases Nodes(v), 0
  {
    match v
    case Null => NULL_TEXT
    case Boolean(truth) => if truth then TRUE_TEXT else FALSE_TEXT
    case Number(lexeme) => lexeme.Written()
    case String(text) => PrintString(text)
    case Array(items) => [OPEN_BRACKET] + PrintItems(items)
    case Object(members) => [OPEN_BRACE] + PrintMembers(Sorted(members))
  }

  /** The items joined by commas, and the closing bracket. */
  function PrintItems(items: seq<Value>): Text
    decreases NodesOfItems(items), 1, |items|
  {
    if |items| == 0 then [CLOSE_BRACKET]
    else Print(items[0]) + if |items| == 1 then [CLOSE_BRACKET] else [COMMA] + PrintItems(items[1..])
  }

  function PrintMembers(members: seq<Member>): Text
    decreases NodesOfMembers(members), 1, |members|
  {
    if |members| == 0 then [CLOSE_BRACE]
    else PrintString(members[0].key) + ([COLON] + (Print(members[0].value) +
           if |members| == 1 then [CLOSE_BRACE] else [COMMA] + PrintMembers(members[1..])))
  }

  /** The same value with every object's members in printing order. */
  function Ordered(v: Value): Value
    decreases Nodes(v), 0
  {
    match v
    case Array(items) => Array(OrderedItems(items))
    case Object(members) => Object(OrderedMembers(Sorted(members)))
    case _ => v
  }

  function OrderedItems(items: seq<Value>): (r: seq<Value>)
    ensures |r| == |items|
    decreases NodesOfItems(items), 1, |items|
  {
    if |items| == 0 then [] else [Ordered(items[0])] + OrderedItems(items[1..])
  }

  function OrderedMembers(members: seq<Member>): (r: seq<Member>)
    ensures |r| == |members|
    decreases NodesOfMembers(members), 1, |members|
  {
    if |members| == 0 then [] else [Member(members[0].key, Ordered(members[0].value))] + OrderedMembers(members[1..])
  }
}
