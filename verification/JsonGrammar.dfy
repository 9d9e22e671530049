/** JSON texts as derivations of the grammar of RFC 8259, the values they denote, and
    the limits that RFC 7493 and the caller put on them. */
module JsonGrammar {
  import opened JsonLexical

  /** A number is known by its lexeme; an object's members are in insertion order. */
  datatype Value =
    | Null
    | Boolean(truth: bool)
    | Number(lexeme: NumberParts)
    | String(text: Text)
    | Array(items: seq<Value>)
    | Object(members: seq<Member>)

  datatype Member = Member(key: Text, value: Value)

  const NULL_TEXT: Text := [0x6E, 0x75, 0x6C, 0x6C]
  const TRUE_TEXT: Text := [0x74, 0x72, 0x75, 0x65]
  const FALSE_TEXT: Text := [0x66, 0x61, 0x6C, 0x73, 0x65]

  // ---------------------------------------------------------------------
  // Derivations
  // ---------------------------------------------------------------------

  /** A derivation keeps every blank: after an opening bracket (lead), around a colon
      (before, gap), before a delimiter (after) and behind a comma (comma). */
  datatype Tree =
    | NullTree
    | BooleanTree(truth: bool)
    | NumberTree(parts: NumberParts)
    | StringTree(chars: seq<Character>)
    | ArrayTree(lead: Text, elements: Elements)
    | ObjectTree(lead: Text, entries: Entries)

  datatype Elements = NoElements | Element(value: Tree, after: Text, comma: Text, rest: Elements)

  datatype Entries =
    | NoEntries
    | Entry(key: seq<Character>, before: Text, gap: Text, value: Tree, after: Text, comma: Text, rest: Entries)

  predicate Valid(t: Tree) {
    match t
    case NumberTree(parts) => parts.Valid()
    case StringTree(chars) => AllValid(chars)
    case ArrayTree(lead, elements) => AllBlank(lead) && ValidElements(elements)
    case ObjectTree(lead, entries) => AllBlank(lead) && ValidEntries(entries)
    case _ => true
  }

  predicate ValidElements(e: Elements) {
    e.Element? ==>
      && Valid(e.value) && AllBlank(e.after) && AllBlank(e.comma) && ValidElements(e.rest)
      && (e.rest.NoElements? ==> e.comma == [])
  }

  predicate ValidEntries(e: Entries) {
    e.Entry? ==>
      && AllValid(e.key) && AllBlank(e.before) && AllBlank(e.gap)
      && Valid(e.value) && AllBlank(e.after) && AllBlank(e.comma) && ValidEntries(e.rest)
      && (e.rest.NoEntries? ==> e.comma == [])
  }

  /** The text of a derivation. */
  function Written(t: Tree): Text {
    match t
    case NullTree => NULL_TEXT
    case BooleanTree(truth) => if truth then TRUE_TEXT else FALSE_TEXT
    case NumberTree(parts) => parts.Written()
    case StringTree(chars) => [QUOTE] + WrittenTail(chars)
    case ArrayTree(lead, elements) => [OPEN_BRACKET] + (lead + WrittenElements(elements))
    case ObjectTree(lead, entries) => [OPEN_BRACE] + (lead + WrittenEntries(entries))
  }

  /** The elements still to come, up to and with the closing bracket. */
  function WrittenElements(e: Elements): Text {
    match e
    case NoElements => [CLOSE_BRACKET]
    case Element(value, after, comma, rest) =>
      Written(value) + (after + if rest.NoElements? then [CLOSE_BRACKET] else [COMMA] + (comma + WrittenElements(rest)))
  }

  function WrittenEntries(e: Entries): Text {
    match e
    case NoEntries => [CLOSE_BRACE]
    case Entry(key, before, gap, value, after, comma, rest) =>
      [QUOTE] + (WrittenTail(key) + (before + ([COLON] + (gap + (Written(value) +
        (after + if rest.NoEntries? then [CLOSE_BRACE] else [COMMA] + (comma + WrittenEntries(rest))))))))
  }

  /** What a derivation denotes. */
  function Denoted(t: Tree): Value
    requires Valid(t)
  {
    match t
    case NullTree => Null
    case BooleanTree(truth) => Boolean(truth)
    case NumberTree(parts) => Number(parts)
    case StringTree(chars) => String(DecodedAll(chars))
    case ArrayTree(_, elements) => Array(DenotedElements(elements))
    case ObjectTree(_, entries) => Object(DenotedEntries(entries))
  }

  function DenotedElements(e: Elements): seq<Value>
    requires ValidElements(e)
  {
    if e.NoElements? then [] else [Denoted(e.value)] + DenotedElements(e.rest)
  }

  function DenotedEntries(e: Entries): seq<Member>
    requires ValidEntries(e)
  {
    if e.NoEntries? then [] else [Member(DecodedAll(e.key), Denoted(e.value))] + DenotedEntries(e.rest)
  }

  // ---------------------------------------------------------------------
  // What a denoted value must satisfy
  // ---------------------------------------------------------------------

  /** Strings pair their surrogates, numbers are finite and names are distinct. */
  predicate Interoperable(v: Value)
    decreases v
  {
    match v
    case Number(lexeme) => lexeme.Valid() && Finite(lexeme)
    case String(text) => Paired(text)
    case Array(items) => forall i | 0 <= i < |items| :: Interoperable(items[i])
    case Object(members) =>
      && (forall i | 0 <= i < |members| :: Paired(members[i].key) && Interoperable(members[i].value))
      && (forall i, j | 0 <= i < j < |members| :: members[i].key != members[j].key)
    case _ => true
  }

  function Max(a: nat, b: nat): nat {
    if a >= b then a else b
  }

  /** A scalar, and an empty array or object, is one level deep. */
  function Depth(v: Value): nat
    decreases v
  {
    match v
    case Array(items) => 1 + DepthOfItems(items)
    case Object(members) => 1 + DepthOfMembers(members)
    case _ => 1
  }

  function DepthOfItems(items: seq<Value>): nat {
    if |items| == 0 then 0 else Max(Depth(items[0]), DepthOfItems(items[1..]))
  }

  function DepthOfMembers(members: seq<Member>): nat {
    if |members| == 0 then 0 else Max(Depth(members[0].value), DepthOfMembers(members[1..]))
  }

  /** How many values there are, names not counted. */
  function Nodes(v: Value): nat
    decreases v
  {
    match v
    case Array(items) => 1 + NodesOfItems(items)
    case Object(members) => 1 + NodesOfMembers(members)
    case _ => 1
  }

  function NodesOfItems(items: seq<Value>): nat {
    if |items| == 0 then 0 else Nodes(items[0]) + NodesOfItems(items[1..])
  }

  function NodesOfMembers(members: seq<Member>): nat {
    if |members| == 0 then 0 else Nodes(members[0].value) + NodesOfMembers(members[1..])
  }

  datatype Limits = Limits(maxDepth: nat, maxNodes: nat)

  predicate WithinLimits(v: Value, limits: Limits) {
    Depth(v) <= limits.maxDepth && Nodes(v) <= limits.maxNodes
  }
}
