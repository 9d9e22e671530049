/** The strict JSON parser: a recursive descent over code units with a depth and a node
    limit, first as functions on the remaining text, then as the source's class. */
module StrictJson {
  import opened Standard
  import opened JsonLexical
  import opened JsonGrammar

  datatype Error = InvalidJson | InvalidIJson | TooComplex | OutOfRange

  /** What was read, the text that remains and how many values have been counted. */
  datatype Read<+T> = Read(value: T, rest: Text, nodes: nat)

  predicate StartsWith(s: Text, prefix: Text) {
    |prefix| <= |s| && s[..|prefix|] == prefix
  }

  function ReadLiteral(s: Text, literal: Text, value: Value, nodes: nat): (r: Result<Read<Value>, Error>)
    ensures r.Ok? ==> s == literal + r.value.rest && r.value.value == value && r.value.nodes == nodes
  {
    if StartsWith(s, literal) then Ok(Read(value, s[|literal|..], nodes)) else Err(InvalidJson)
  }

  function ReadString(s: Text): (r: Result<Read<Text>, Error>)
    requires |s| > 0 && s[0] == QUOTE
    ensures r.Ok? ==> |r.value.rest| < |s|
  {
    match ScanString(s[1..])
    case None => Err(InvalidJson)
    case Some(scan) =>
      var text := DecodedAll(scan.chars);
      if Paired(text) then Ok(Read(text, scan.rest, 0)) else Err(InvalidIJson)
  }

  function ParseNumber(s: Text, nodes: nat): (r: Result<Read<Value>, Error>)
    ensures r.Ok? ==> |r.value.rest| < |s|
  {
    match ReadNumber(s)
    case None => Err(InvalidJson)
    case Some(number) =>
      if Finite(number.parts) then Ok(Read(Number(number.parts), number.rest, nodes)) else Err(InvalidIJson)
  }

  /** A string, a literal or a number; already counted. */
  function ParseScalar(s: Text, nodes: nat): (r: Result<Read<Value>, Error>)
    requires |s| > 0
    ensures r.Ok? ==> |r.value.rest| < |s|
  {
    if s[0] == QUOTE then
      match ReadString(s)
      case Err(error) => Err(error)
      case Ok(text) => Ok(Read(String(text.value), text.rest, nodes))
    else if s[0] == TRUE_TEXT[0] then ReadLiteral(s, TRUE_TEXT, Boolean(true), nodes)
    else if s[0] == FALSE_TEXT[0] then ReadLiteral(s, FALSE_TEXT, Boolean(false), nodes)
    else if s[0] == NULL_TEXT[0] then ReadLiteral(s, NULL_TEXT, Null, nodes)
    else if s[0] == MINUS || Digit(s[0]) then ParseNumber(s, nodes)
    else Err(InvalidJson)
  }

  /** One value at the given depth, when this many have been counted before it. */
  function ParseValue(s: Text, limits: Limits, depth: nat, nodes: nat): (r: Result<Read<Value>, Error>)
    ensures r.Ok? ==> |r.value.rest| < |s|
    decreases |s|, 1
  {
    if depth > limits.maxDepth || nodes + 1 > limits.maxNodes then Err(TooComplex)
    else if |s| == 0 then Err(InvalidJson)
    else if s[0] == OPEN_BRACE then ParseObject(s, limits, depth, nodes + 1)
    else if s[0] == OPEN_BRACKET then ParseArray(s, limits, depth, nodes + 1)
    else ParseScalar(s, nodes + 1)
  }

  function ParseArray(s: Text, limits: Limits, depth: nat, nodes: nat): (r: Result<Read<Value>, Error>)
    requires |s| > 0
    ensures r.Ok? ==> |r.value.rest| < |s|
    decreases |s|, 0
  {
    var inside := Skip(s[1..]);
    if |inside| > 0 && inside[0] == CLOSE_BRACKET then Ok(Read(Array([]), inside[1..], nodes))
    else match ParseItems(inside, limits, depth, nodes)
      case Err(error) => Err(error)
      case Ok(items) => Ok(Read(Array(items.value), items.rest, items.nodes))
  }

  function ParseObject(s: Text, limits: Limits, depth: nat, nodes: nat): (r: Result<Read<Value>, Error>)
    requires |s| > 0
    ensures r.Ok? ==> |r.value.rest| < |s|
    decreases |s|, 0
  {
    var inside := Skip(s[1..]);
    if |inside| > 0 && inside[0] == CLOSE_BRACE then Ok(Read(Object([]), inside[1..], nodes))
    else match ParseMembers(inside, limits, depth, nodes, {})
      case Err(error) => Err(error)
      case Ok(members) => Ok(Read(Object(members.value), members.rest, members.nodes))
  }

  /** The elements from here to the closing bracket; at least one. */
  function ParseItems(s: Text, limits: Limits, depth: nat, nodes: nat): (r: Result<Read<seq<Value>>, Error>)
    ensures r.Ok? ==> |r.value.rest| < |s|
    decreases |s|, 2
  {
    if |s| == 0 then Err(InvalidJson)
    else match ParseValue(s, limits, depth + 1, nodes)
      case Err(error) => Err(error)
      case Ok(item) =>
        var t := Skip(item.rest);
        if |t| > 0 && t[0] == CLOSE_BRACKET then Ok(Read([item.value], t[1..], item.nodes))
        else if |t| == 0 || t[0] != COMMA then Err(InvalidJson)
        else match ParseItems(Skip(t[1..]), limits, depth, item.nodes)
          case Err(error) => Err(error)
          case Ok(more) => Ok(Read([item.value] + more.value, more.rest, more.nodes))
  }

  /** The members from here to the closing brace; at least one, and none named as seen. */
  function ParseMembers(s: Text, limits: Limits, depth: nat, nodes: nat,
                        seen: set<Text>): (r: Result<Read<seq<Member>>, Error>)
    ensures r.Ok? ==> |r.value.rest| < |s|
    decreases |s|, 2
  {
    if |s| == 0 || s[0] != QUOTE then Err(InvalidJson)
    else match ReadString(s)
      case Err(error) => Err(error)
      case Ok(key) =>
        if key.value in seen then Err(InvalidJson)
        else
          var t := Skip(key.rest);
          if |t| == 0 || t[0] != COLON then Err(InvalidJson)
          else match ParseValue(Skip(t[1..]), limits, depth + 1, nodes)
            case Err(error) => Err(error)
            case Ok(item) => ParseDelimiter(Member(key.value, item.value), item, limits, depth, seen + {key.value})
  }

  function ParseDelimiter(member: Member, item: Read<Value>, limits: Limits, depth: nat,
                          seen: set<Text>): (r: Result<Read<seq<Member>>, Error>)
    ensures r.Ok? ==> |r.value.rest| < |item.rest|
    decreases |item.rest|, 3
  {
    var t := Skip(item.rest);
    if |t| > 0 && t[0] == CLOSE_BRACE then Ok(Read([member], t[1..], item.nodes))
    else if |t| == 0 || t[0] != COMMA then Err(InvalidJson)
    else match ParseMembers(Skip(t[1..]), limits, depth, item.nodes, seen)
      case Err(error) => Err(error)
      case Ok(more) => Ok(Read([member] + more.value, more.rest, more.nodes))
  }

  const MAX_SAFE: nat := 0x1F_FFFF_FFFF_FFFF

  function Parse(source: Text, maxDepth: int, maxNodes: int): Result<Value, Error> {
    if !(1 <= maxDepth <= MAX_SAFE) || !(1 <= maxNodes <= MAX_SAFE) then Err(OutOfRange)
    else
      var s := Skip(source);
      if |s| == 0 then Err(InvalidJson)
      else match ParseValue(s, Limits(maxDepth, maxNodes), 1, 0)
        case Err(error) => Err(error)
        case Ok(read) => if |Skip(read.rest)| == 0 then Ok(read.value) else Err(InvalidJson)
  }
}
