/** Everything that is JSON, and within every limit, is accepted with its own value;
    everything else is refused. */
module JsonCompleteness {
  import opened Standard
  import opened JsonLexical
  import opened JsonGrammar
  import opened StrictJson
  import opened JsonSoundness

  predicate Fits(v: Value, limits: Limits, depth: nat, nodes: nat) {
    Interoperable(v) && depth + Depth(v) <= limits.maxDepth + 1 && nodes + Nodes(v) <= limits.maxNodes
  }

  predicate ItemsFit(items: seq<Value>, limits: Limits, depth: nat, nodes: nat) {
    && (forall i | 0 <= i < |items| :: Interoperable(items[i]))
    && depth + DepthOfItems(items) <= limits.maxDepth && nodes + NodesOfItems(items) <= limits.maxNodes
  }

  predicate MembersFit(members: seq<Member>, limits: Limits, depth: nat, nodes: nat, seen: set<Text>) {
    && Interoperable(Object(members)) && (forall i | 0 <= i < |members| :: members[i].key !in seen)
    && depth + DepthOfMembers(members) <= limits.maxDepth && nodes + NodesOfMembers(members) <= limits.maxNodes
  }

  /** A value's text begins with a unit that is not blank and tells its kind. */
  lemma Begins(t: Tree)
    requires Valid(t)
    ensures |Written(t)| > 0 && !Blank(Written(t)[0])
    ensures t.ArrayTree? <==> Written(t)[0] == OPEN_BRACKET
    ensures t.ObjectTree? <==> Written(t)[0] == OPEN_BRACE
    ensures Written(t)[0] != CLOSE_BRACKET
  {
    if t.NumberTree? {
      assert t.parts.Written()[0] == if t.parts.negative then MINUS else t.parts.whole[0];
    }
  }

  /** What reading a value that derives a text must give: the value, or an error. */
  predicate Reads(r: Result<Read<Value>, Error>, v: Value, rest: Text, limits: Limits, depth: nat, nodes: nat) {
    if Fits(v, limits, depth, nodes) then r == Ok(Read(v, rest, nodes + Nodes(v))) else r.Err?
  }

  predicate ScalarReads(r: Result<Read<Value>, Error>, v: Value, rest: Text, nodes: nat) {
    if Interoperable(v) then r == Ok(Read(v, rest, nodes)) else r.Err?
  }

  lemma StringComplete(chars: seq<Character>, rest: Text, nodes: nat)
    requires AllValid(chars)
    ensures ScalarReads(ParseScalar([QUOTE] + (WrittenTail(chars) + rest), nodes), String(DecodedAll(chars)), rest,
            nodes)
  {
    assert ([QUOTE] + (WrittenTail(chars) + rest))[1..] == WrittenTail(chars) + rest;
    ScanOver(chars, rest);
  }

  /** A number begins like no other scalar. */
  lemma NumeralIsDistinct(u: Unit)
    requires u == MINUS || Digit(u)
    ensures u != QUOTE && u != TRUE_TEXT[0] && u != FALSE_TEXT[0] && u != NULL_TEXT[0]
  {
  }

  lemma NumberToken(s: Text, nodes: nat)
    requires |s| > 0 && (s[0] == MINUS || Digit(s[0]))
    ensures ParseScalar(s, nodes) == ParseNumber(s, nodes)
  {
    NumeralIsDistinct(s[0]);
  }

  lemma NumberBegins(parts: NumberParts, rest: Text)
    requires parts.Valid()
    ensures var s := parts.Written() + rest; |s| > 0 && (s[0] == MINUS || Digit(s[0]))
  {
    assert parts.Written()[0] == if parts.negative then MINUS else parts.whole[0];
  }

  lemma NumberComplete(parts: NumberParts, rest: Text, nodes: nat)
    requires parts.Valid() && EndsNumber(rest)
    ensures |parts.Written() + rest| > 0
    ensures ScalarReads(ParseScalar(parts.Written() + rest, nodes), Number(parts), rest, nodes)
  {
    NumberBegins(parts, rest);
    NumberReadBack(parts, rest);
    NumberToken(parts.Written() + rest, nodes);
  }

  lemma LiteralComplete(s: Text, literal: Text, v: Value, rest: Text, nodes: nat)
    requires s == literal + rest
    ensures ReadLiteral(s, literal, v, nodes) == Ok(Read(v, rest, nodes))
  {
    assert s[..|literal|] == literal && s[|literal|..] == rest;
  }

  lemma ScalarComplete(t: Tree, rest: Text, nodes: nat)
    requires Valid(t) && !t.ArrayTree? && !t.ObjectTree? && EndsNumber(rest)
    ensures |Written(t) + rest| > 0 && ScalarReads(ParseScalar(Written(t) + rest, nodes), Denoted(t), rest, nodes)
  {
    var s := Written(t) + rest;
    Begins(t);
    match t
    case StringTree(chars) =>
      assert s == [QUOTE] + (WrittenTail(chars) + rest);
      StringComplete(chars, rest, nodes);
    case NumberTree(parts) => NumberComplete(parts, rest, nodes);
    case NullTree => LiteralComplete(s, NULL_TEXT, Null, rest, nodes);
    case BooleanTree(truth) =>
      if truth {
        LiteralComplete(s, TRUE_TEXT, Boolean(true), rest, nodes);
      } else {
        LiteralComplete(s, FALSE_TEXT, Boolean(false), rest, nodes);
      }
  }

  lemma ScalarFits(t: Tree, r: Result<Read<Value>, Error>, rest: Text, limits: Limits, depth: nat, nodes: nat)
    requires Valid(t) && !t.ArrayTree? && !t.ObjectTree? && depth <= limits.maxDepth && nodes + 1 <= limits.maxNodes
    requires ScalarReads(r, Denoted(t), rest, nodes + 1)
    ensures Reads(r, Denoted(t), rest, limits, depth, nodes)
  {
    assert Depth(Denoted(t)) == 1 && Nodes(Denoted(t)) == 1;
  }

  /** The text of any derivation is read as what it denotes, with what follows it left
      over, exactly when the value fits the limits. */
  lemma {:induction false} ValueComplete(t: Tree, rest: Text, limits: Limits, depth: nat, nodes: nat)
    requires Valid(t) && EndsNumber(rest)
    ensures Reads(ParseValue(Written(t) + rest, limits, depth, nodes), Denoted(t), rest, limits, depth, nodes)
    decreases t
  {
    Begins(t);
    var s := Written(t) + rest;
    assert s[0] == Written(t)[0];
    if depth > limits.maxDepth || nodes + 1 > limits.maxNodes {
      Positive(Denoted(t));
    } else {
      match t
      case ArrayTree(_, _) =>
        ArrayComplete(t, rest, limits, depth, nodes);
        assert ParseValue(s, limits, depth, nodes) == ParseArray(s, limits, depth, nodes + 1);
      case ObjectTree(_, _) =>
        ObjectComplete(t, rest, limits, depth, nodes);
        assert ParseValue(s, limits, depth, nodes) == ParseObject(s, limits, depth, nodes + 1);
      case _ =>
        ScalarComplete(t, rest, nodes + 1);
        assert ParseValue(s, limits, depth, nodes) == ParseScalar(s, nodes + 1);
        ScalarFits(t, ParseScalar(s, nodes + 1), rest, limits, depth, nodes);
    }
  }

  lemma Positive(v: Value)
    ensures Depth(v) >= 1 && Nodes(v) >= 1
  {
  }

  lemma BracketText(open: Unit, lead: Text, content: Text, rest: Text)
    ensures var s := ([open] + (lead + content)) + rest;
            |s| > 0 && s[0] == open && s[1..] == lead + (content + rest)
  {
  }

  lemma ArrayText(lead: Text, e: Elements, rest: Text)
    ensures var s := Written(ArrayTree(lead, e)) + rest;
            |s| > 0 && s[0] == OPEN_BRACKET && s[1..] == lead + (WrittenElements(e) + rest)
  {
    BracketText(OPEN_BRACKET, lead, WrittenElements(e), rest);
  }

  /** How an array is read once its leading blanks are known. */
  lemma ArrayStep(s: Text, lead: Text, inside: Text, limits: Limits, depth: nat, nodes: nat)
    requires |s| > 0 && s[1..] == lead + inside && AllBlank(lead) && |inside| > 0 && !Blank(inside[0])
    ensures ParseArray(s, limits, depth, nodes) ==
            if inside[0] == CLOSE_BRACKET then Ok(Read(Array([]), inside[1..], nodes))
            else match ParseItems(inside, limits, depth, nodes)
              case Err(error) => Err(error)
              case Ok(items) => Ok(Read(Array(items.value), items.rest, items.nodes))
  {
    SkipOver(lead, inside);
  }

  lemma ArrayFits(items: seq<Value>, limits: Limits, depth: nat, nodes: nat)
    requires depth <= limits.maxDepth && nodes + 1 <= limits.maxNodes
    ensures Fits(Array(items), limits, depth, nodes) <==> ItemsFit(items, limits, depth, nodes + 1)
    ensures Nodes(Array(items)) == 1 + NodesOfItems(items)
  {
  }

  predicate ItemsRead(r: Result<Read<seq<Value>>, Error>, items: seq<Value>, rest: Text, limits: Limits, depth: nat,
                      nodes: nat) {
    if ItemsFit(items, limits, depth, nodes) then r == Ok(Read(items, rest, nodes + NodesOfItems(items))) else r.Err?
  }

  lemma {:induction false} ArrayComplete(t: Tree, rest: Text, limits: Limits, depth: nat, nodes: nat)
    requires t.ArrayTree? && Valid(t) && depth <= limits.maxDepth && nodes + 1 <= limits.maxNodes
    ensures |Written(t) + rest| > 0
    ensures Reads(ParseArray(Written(t) + rest, limits, depth, nodes + 1), Denoted(t), rest, limits, depth, nodes)
    decreases t, 0
  {
    var e := t.elements;
    var inside := WrittenElements(e) + rest;
    ArrayText(t.lead, e, rest);
    ElementsBegin(e, rest);
    ArrayStep(Written(t) + rest, t.lead, inside, limits, depth, nodes + 1);
    ArrayFits(DenotedElements(e), limits, depth, nodes);
    if e.NoElements? {
      assert inside[1..] == rest;
    } else {
      ItemsComplete(e, rest, limits, depth, nodes + 1);
    }
  }

  lemma ElementsBegin(e: Elements, rest: Text)
    requires ValidElements(e)
    ensures var inside := WrittenElements(e) + rest;
            |inside| > 0 && !Blank(inside[0]) && (inside[0] == CLOSE_BRACKET <==> e.NoElements?)
  {
    if e.Element? {
      Begins(e.value);
      assert WrittenElements(e)[0] == Written(e.value)[0];
    }
  }

  /** The text after an element's value, from its blanks on. */
  function Following(after: Text, last: bool, close: Unit, comma: Text, next: Text): Text {
    after + if last then [close] else [COMMA] + (comma + next)
  }

  /** The delimiter found after a value, and what is found behind it. */
  predicate Delimits(f: Text, last: bool, close: Unit, next: Text, rest: Text) {
    && EndsNumber(f) && |Skip(f)| > 0
    && (if last then Skip(f)[0] == close && Skip(f)[1..] == rest
        else Skip(f)[0] == COMMA && Skip(Skip(f)[1..]) == next + rest)
  }

  lemma CloseDelimits(after: Text, close: Unit, rest: Text)
    requires AllBlank(after) && (close == CLOSE_BRACKET || close == CLOSE_BRACE)
    ensures Delimits((after + [close]) + rest, true, close, [], rest)
  {
    assert (after + [close]) + rest == after + ([close] + rest);
    SkipOver(after, [close] + rest);
    assert ((after + [close]) + rest)[0] == if |after| > 0 then after[0] else close;
  }

  lemma CommaDelimits(after: Text, comma: Text, next: Text, rest: Text, close: Unit)
    requires AllBlank(after) && AllBlank(comma) && |next| > 0 && !Blank(next[0])
    ensures Delimits((after + ([COMMA] + (comma + next))) + rest, false, close, next, rest)
  {
    var f := (after + ([COMMA] + (comma + next))) + rest;
    var d := [COMMA] + (comma + (next + rest));
    assert f == after + d;
    SkipOver(after, d);
    assert d[1..] == comma + (next + rest);
    SkipOver(comma, next + rest);
    assert f[0] == if |after| > 0 then after[0] else COMMA;
  }

  lemma FollowingDelimits(after: Text, last: bool, close: Unit, comma: Text, next: Text, rest: Text)
    requires AllBlank(after) && AllBlank(comma) && (close == CLOSE_BRACKET || close == CLOSE_BRACE)
    requires |next| > 0 && !Blank(next[0])
    ensures Delimits(Following(after, last, close, comma, next) + rest, last, close, next, rest)
  {
    if last {
      CloseDelimits(after, close, rest);
    } else {
      CommaDelimits(after, comma, next, rest, close);
    }
  }

  lemma ElementText(e: Elements, rest: Text)
    requires e.Element?
    ensures WrittenElements(e) + rest ==
            Written(e.value) + (Following(e.after, e.rest.NoElements?, CLOSE_BRACKET, e.comma,
              WrittenElements(e.rest)) + rest)
  {
  }

  /** How the elements are read once the first value and its delimiter are known. */
  lemma ItemsStep(s: Text, v: Value, f: Text, last: bool, next: Text, rest: Text, more: seq<Value>,
                  limits: Limits, depth: nat, nodes: nat)
    requires |s| > 0 && Reads(ParseValue(s, limits, depth + 1, nodes), v, f, limits, depth + 1, nodes)
    requires Delimits(f, last, CLOSE_BRACKET, next, rest) && (last ==> more == [])
    requires !last && Fits(v, limits, depth + 1, nodes) ==>
               ItemsRead(ParseItems(next + rest, limits, depth, nodes + Nodes(v)), more, rest, limits, depth,
                 nodes + Nodes(v))
    ensures ItemsRead(ParseItems(s, limits, depth, nodes), [v] + more, rest, limits, depth, nodes)
  {
    ItemsFitTogether(v, more, limits, depth, nodes);
    assert last ==> [v] + more == [v];
  }

  lemma {:induction false} ItemsComplete(e: Elements, rest: Text, limits: Limits, depth: nat, nodes: nat)
    requires e.Element? && ValidElements(e)
    ensures ItemsRead(ParseItems(WrittenElements(e) + rest, limits, depth, nodes), DenotedElements(e), rest, limits,
            depth, nodes)
    decreases e
  {
    var last, next := e.rest.NoElements?, WrittenElements(e.rest);
    var follows := Following(e.after, last, CLOSE_BRACKET, e.comma, next) + rest;
    ElementText(e, rest);
    Begins(e.value);
    ElementsBegin(e.rest, []);
    assert next + [] == next;
    FollowingDelimits(e.after, last, CLOSE_BRACKET, e.comma, next, rest);
    ValueComplete(e.value, follows, limits, depth + 1, nodes);
    var v := Denoted(e.value);
    if !last && Fits(v, limits, depth + 1, nodes) {
      ItemsComplete(e.rest, rest, limits, depth, nodes + Nodes(v));
    }
    ItemsStep(WrittenElements(e) + rest, v, follows, last, next, rest, DenotedElements(e.rest), limits, depth, nodes);
  }

  lemma ItemsFitTogether(v: Value, more: seq<Value>, limits: Limits, depth: nat, nodes: nat)
    ensures ItemsFit([v] + more, limits, depth, nodes) <==>
            Fits(v, limits, depth + 1, nodes) && ItemsFit(more, limits, depth, nodes + Nodes(v))
    ensures NodesOfItems([v] + more) == Nodes(v) + NodesOfItems(more)
  {
    assert ([v] + more)[1..] == more;
    if ItemsFit([v] + more, limits, depth, nodes) {
      assert ([v] + more)[0] == v;
      assert forall i | 0 <= i < |more| :: more[i] == ([v] + more)[i + 1];
    }
  }

  lemma ObjectText(lead: Text, e: Entries, rest: Text)
    ensures var s := Written(ObjectTree(lead, e)) + rest;
            |s| > 0 && s[0] == OPEN_BRACE && s[1..] == lead + (WrittenEntries(e) + rest)
  {
    BracketText(OPEN_BRACE, lead, WrittenEntries(e), rest);
  }

  lemma EntriesBegin(e: Entries, rest: Text)
    ensures var inside := WrittenEntries(e) + rest;
            |inside| > 0 && inside[0] == if e.NoEntries? then CLOSE_BRACE else QUOTE
  {
  }

  lemma ObjectStep(s: Text, lead: Text, inside: Text, limits: Limits, depth: nat, nodes: nat)
    requires |s| > 0 && s[1..] == lead + inside && AllBlank(lead) && |inside| > 0 && !Blank(inside[0])
    ensures ParseObject(s, limits, depth, nodes) ==
            if inside[0] == CLOSE_BRACE then Ok(Read(Object([]), inside[1..], nodes))
            else match ParseMembers(inside, limits, depth, nodes, {})
              case Err(error) => Err(error)
              case Ok(members) => Ok(Read(Object(members.value), members.rest, members.nodes))
  {
    SkipOver(lead, inside);
  }

  lemma ObjectFits(members: seq<Member>, limits: Limits, depth: nat, nodes: nat)
    requires depth <= limits.maxDepth && nodes + 1 <= limits.maxNodes
    ensures Fits(Object(members), limits, depth, nodes) <==> MembersFit(members, limits, depth, nodes + 1, {})
    ensures Nodes(Object(members)) == 1 + NodesOfMembers(members)
  {
  }

  predicate MembersRead(r: Result<Read<seq<Member>>, Error>, members: seq<Member>, rest: Text,
                        limits: Limits, depth: nat, nodes: nat, seen: set<Text>) {
    if MembersFit(members, limits, depth, nodes, seen) then r ==
      Ok(Read(members, rest, nodes + NodesOfMembers(members)))
    else r.Err?
  }

  lemma ObjectResult(r: Result<Read<Value>, Error>, m: Result<Read<seq<Member>>, Error>, members: seq<Member>,
                     rest: Text,
                     limits: Limits, depth: nat, nodes: nat)
    requires depth <= limits.maxDepth && nodes + 1 <= limits.maxNodes
    requires MembersRead(m, members, rest, limits, depth, nodes + 1, {})
    requires r == match m
                  case Err(error) => Err(error)
                  case Ok(read) => Ok(Read(Object(read.value), read.rest, read.nodes))
    ensures Reads(r, Object(members), rest, limits, depth, nodes)
  {
    ObjectFits(members, limits, depth, nodes);
  }

  lemma {:induction false} ObjectComplete(t: Tree, rest: Text, limits: Limits, depth: nat, nodes: nat)
    requires t.ObjectTree? && Valid(t) && depth <= limits.maxDepth && nodes + 1 <= limits.maxNodes
    ensures |Written(t) + rest| > 0
    ensures Reads(ParseObject(Written(t) + rest, limits, depth, nodes + 1), Denoted(t), rest, limits, depth, nodes)
    decreases t, 0
  {
    var e := t.entries;
    var inside := WrittenEntries(e) + rest;
    ObjectText(t.lead, e, rest);
    EntriesBegin(e, rest);
    ObjectStep(Written(t) + rest, t.lead, inside, limits, depth, nodes + 1);
    if e.NoEntries? {
      assert inside[1..] == rest;
      assert DenotedEntries(e) == [];
      ObjectFits([], limits, depth, nodes);
    } else {
      MembersComplete(e, rest, limits, depth, nodes + 1, {});
      ObjectResult(ParseObject(Written(t) + rest, limits, depth, nodes + 1),
        ParseMembers(inside, limits, depth, nodes + 1, {}),
                   DenotedEntries(e), rest, limits, depth, nodes);
    }
  }

  lemma EntryText(e: Entries, rest: Text)
    requires e.Entry?
    ensures var f := Following(e.after, e.rest.NoEntries?, CLOSE_BRACE, e.comma, WrittenEntries(e.rest)) + rest;
            WrittenEntries(e) + rest ==
            [QUOTE] + (WrittenTail(e.key) + (e.before + ([COLON] + (e.gap + (Written(e.value) + f)))))
  {
    MemberTextSplits(WrittenTail(e.key), e.before, e.gap, Written(e.value),
                     Following(e.after, e.rest.NoEntries?, CLOSE_BRACE, e.comma, WrittenEntries(e.rest)), rest);
  }

  lemma MemberTextSplits(key: Text, before: Text, gap: Text, value: Text, f: Text, rest: Text)
    ensures ([QUOTE] + (key + (before + ([COLON] + (gap + (value + f)))))) + rest ==
            [QUOTE] + (key + (before + ([COLON] + (gap + (value + (f + rest))))))
  {
  }

  /** A member's name is read, unless its surrogates are unpaired, and a colon after it. */
  predicate NameReads(s: Text, key: Text, u: Text) {
    && |s| > 0 && s[0] == QUOTE && ReadString(s).Ok? == Paired(key)
    && (Paired(key) ==>
          && ReadString(s).value.value == key
          && var t := Skip(ReadString(s).value.rest); |t| > 0 && t[0] == COLON && Skip(t[1..]) == u)
  }

  lemma NameComplete(key: seq<Character>, before: Text, gap: Text, u: Text)
    requires AllValid(key) && AllBlank(before) && AllBlank(gap) && StartsSolid(u)
    ensures NameReads([QUOTE] + (WrittenTail(key) + (before + ([COLON] + (gap + u)))), DecodedAll(key), u)
  {
    var t := [COLON] + (gap + u);
    var s := [QUOTE] + (WrittenTail(key) + (before + t));
    assert s[1..] == WrittenTail(key) + (before + t);
    ScanOver(key, before + t);
    SkipOver(before, t);
    assert t[1..] == gap + u;
    SkipOver(gap, u);
  }

  /** The outcome for a member and those after it, once both are known. */
  function Prepended(member: Member, more: Result<Read<seq<Member>>, Error>): Result<Read<seq<Member>>, Error> {
    match more
    case Err(error) => Err(error)
    case Ok(read) => Ok(Read([member] + read.value, read.rest, read.nodes))
  }

  lemma DelimiterCloses(member: Member, item: Read<Value>, next: Text, rest: Text, limits: Limits, depth: nat,
                        seen: set<Text>)
    requires Delimits(item.rest, true, CLOSE_BRACE, next, rest)
    ensures ParseDelimiter(member, item, limits, depth, seen) == Ok(Read([member], rest, item.nodes))
  {
  }

  lemma DelimiterGoesOn(member: Member, item: Read<Value>, next: Text, rest: Text, limits: Limits, depth: nat,
                        seen: set<Text>)
    requires Delimits(item.rest, false, CLOSE_BRACE, next, rest)
    ensures ParseDelimiter(member, item, limits, depth, seen) ==
            Prepended(member, ParseMembers(next + rest, limits, depth, item.nodes, seen))
  {
  }

  /** A member that the parser does not refuse for itself. */
  predicate Readable(member: Member, limits: Limits, depth: nat, nodes: nat, seen: set<Text>) {
    Paired(member.key) && member.key !in seen && Fits(member.value, limits, depth + 1, nodes)
  }

  lemma MembersOpen(s: Text, key: Text, u: Text, v: Value, item: Read<Value>, limits: Limits, depth: nat, nodes: nat,
                    seen: set<Text>)
    requires NameReads(s, key, u) && item.value == v && item.nodes == nodes + Nodes(v)
    requires Reads(ParseValue(u, limits, depth + 1, nodes), v, item.rest, limits, depth + 1, nodes)
    ensures var r := ParseMembers(s, limits, depth, nodes, seen);
            if Readable(Member(key, v), limits, depth, nodes, seen)
            then r == ParseDelimiter(Member(key, v), item, limits, depth, seen + {key}) else r.Err?
  {
    assert item == Read(v, item.rest, nodes + Nodes(v));
  }

  /** The outcome once the first name, value and delimiter are known. */
  lemma MembersResult(r: Result<Read<seq<Member>>, Error>, member: Member, more: seq<Member>, rest: Text,
                      limits: Limits, depth: nat, nodes: nat, seen: set<Text>)
    requires if Readable(member, limits, depth, nodes, seen)
             && MembersFit(more, limits, depth, nodes + Nodes(member.value), seen + {member.key})
             then r == Ok(Read([member] + more, rest, nodes + Nodes(member.value) + NodesOfMembers(more))) else r.Err?
    ensures MembersRead(r, [member] + more, rest, limits, depth, nodes, seen)
  {
    MembersFitTogether(member, more, limits, depth, nodes, seen);
  }

  lemma LastResult(r: Result<Read<seq<Member>>, Error>, member: Member, rest: Text,
                   limits: Limits, depth: nat, nodes: nat, seen: set<Text>)
    requires Readable(member, limits, depth, nodes, seen)
    requires r == Ok(Read([member], rest, nodes + Nodes(member.value)))
    ensures MembersRead(r, [member], rest, limits, depth, nodes, seen)
  {
    Positive(member.value);
    assert [member] + [] == [member];
    MembersResult(r, member, [], rest, limits, depth, nodes, seen);
  }

  lemma MoreResult(r: Result<Read<seq<Member>>, Error>, tail: Result<Read<seq<Member>>, Error>, member: Member,
                   more: seq<Member>,
                   rest: Text, limits: Limits, depth: nat, nodes: nat, after: nat, seen: set<Text>)
    requires Readable(member, limits, depth, nodes, seen) && after == nodes + Nodes(member.value)
    requires MembersRead(tail, more, rest, limits, depth, after, seen + {member.key}) && r == Prepended(member, tail)
    ensures MembersRead(r, [member] + more, rest, limits, depth, nodes, seen)
  {
    MembersResult(r, member, more, rest, limits, depth, nodes, seen);
  }

  lemma EntryDenoted(e: Entries)
    requires e.Entry? && ValidEntries(e)
    ensures DenotedEntries(e) == [Member(DecodedAll(e.key), Denoted(e.value))] + DenotedEntries(e.rest)
    ensures e.rest.NoEntries? ==> DenotedEntries(e.rest) == []
  {
  }

  /** A member's name, its colon, its value and its delimiter, as they are found. */
  lemma EntryReads(e: Entries, rest: Text)
    requires e.Entry? && ValidEntries(e)
    ensures Delimits(Follows(e, rest), e.rest.NoEntries?, CLOSE_BRACE, WrittenEntries(e.rest), rest)
    ensures NameReads(WrittenEntries(e) + rest, DecodedAll(e.key), Written(e.value) + Follows(e, rest))
  {
    var last, next, follows := e.rest.NoEntries?, WrittenEntries(e.rest), Follows(e, rest);
    EntryText(e, rest);
    Begins(e.value);
    assert (Written(e.value) + follows)[0] == Written(e.value)[0];
    NameComplete(e.key, e.before, e.gap, Written(e.value) + follows);
    EntriesBegin(e.rest, []);
    assert next + [] == next;
    FollowingDelimits(e.after, last, CLOSE_BRACE, e.comma, next, rest);
  }

  function FirstMember(e: Entries): Member
    requires e.Entry? && ValidEntries(e)
  {
    Member(DecodedAll(e.key), Denoted(e.value))
  }

  /** What stands after the first member's value. */
  function Follows(e: Entries, rest: Text): Text
    requires e.Entry?
  {
    Following(e.after, e.rest.NoEntries?, CLOSE_BRACE, e.comma, WrittenEntries(e.rest)) + rest
  }

  /** The first member's value as it is read, and what is left then. */
  function FirstItem(e: Entries, rest: Text, nodes: nat): Read<Value>
    requires e.Entry? && ValidEntries(e)
  {
    Read(Denoted(e.value), Follows(e, rest), nodes + Nodes(Denoted(e.value)))
  }

  lemma FirstRead(e: Entries, rest: Text, limits: Limits, depth: nat, nodes: nat, seen: set<Text>)
    requires e.Entry? && ValidEntries(e)
    ensures var r, member := ParseMembers(WrittenEntries(e) + rest, limits, depth, nodes, seen), FirstMember(e);
            if Readable(member, limits, depth, nodes, seen)
            then r == ParseDelimiter(member, FirstItem(e, rest, nodes), limits, depth, seen + {member.key})
            else r.Err?
    decreases e, 0
  {
    EntryReads(e, rest);
    ValueComplete(e.value, Follows(e, rest), limits, depth + 1, nodes);
    MembersOpen(WrittenEntries(e) + rest, DecodedAll(e.key), Written(e.value) + Follows(e, rest), Denoted(e.value),
                FirstItem(e, rest, nodes), limits, depth, nodes, seen);
  }

  lemma FollowsDelimits(e: Entries, rest: Text)
    requires e.Entry? && ValidEntries(e)
    ensures Delimits(Follows(e, rest), e.rest.NoEntries?, CLOSE_BRACE, WrittenEntries(e.rest), rest)
  {
    EntryReads(e, rest);
  }

  /** What a delimiter makes of a first part of the members already read. */
  lemma Delimited(r: Result<Read<seq<Member>>, Error>, member: Member, item: Read<Value>, last: bool, next: Text,
                  rest: Text,
                  limits: Limits, depth: nat, seen: set<Text>)
    requires r == ParseDelimiter(member, item, limits, depth, seen)
    requires Delimits(item.rest, last, CLOSE_BRACE, next, rest)
    ensures r == if last then Ok(Read([member], rest, item.nodes))
                 else Prepended(member, ParseMembers(next + rest, limits, depth, item.nodes, seen))
  {
    if last {
      DelimiterCloses(member, item, next, rest, limits, depth, seen);
    } else {
      DelimiterGoesOn(member, item, next, rest, limits, depth, seen);
    }
  }

  /** What the members give once the first of them is known. */
  lemma FirstThenRest(e: Entries, rest: Text, limits: Limits, depth: nat, nodes: nat, seen: set<Text>)
    requires e.Entry? && ValidEntries(e) && Readable(FirstMember(e), limits, depth, nodes, seen)
    ensures var r, member, item := ParseMembers(WrittenEntries(e) + rest, limits, depth, nodes, seen), FirstMember(e),
            FirstItem(e, rest, nodes);
            r == if e.rest.NoEntries? then Ok(Read([member], rest, item.nodes))
                 else Prepended(member,
                   ParseMembers(WrittenEntries(e.rest) + rest, limits, depth, item.nodes, seen + {member.key}))
    decreases e, 1
  {
    FirstRead(e, rest, limits, depth, nodes, seen);
    FollowsDelimits(e, rest);
    Delimited(ParseMembers(WrittenEntries(e) + rest, limits, depth, nodes, seen), FirstMember(e),
      FirstItem(e, rest, nodes),
              e.rest.NoEntries?, WrittenEntries(e.rest), rest, limits, depth, seen + {FirstMember(e).key});
  }

  /** The members derived by some entries are read, when they fit. */
  ghost predicate EntriesRead(e: Entries, rest: Text, limits: Limits, depth: nat, nodes: nat, seen: set<Text>)
    requires ValidEntries(e)
  {
    MembersRead(ParseMembers(WrittenEntries(e) + rest, limits, depth, nodes, seen), DenotedEntries(e), rest, limits,
      depth, nodes, seen)
  }

  lemma RefusedComplete(e: Entries, rest: Text, limits: Limits, depth: nat, nodes: nat, seen: set<Text>)
    requires e.Entry? && ValidEntries(e) && !Readable(FirstMember(e), limits, depth, nodes, seen)
    ensures EntriesRead(e, rest, limits, depth, nodes, seen)
    decreases e, 1
  {
    EntryDenoted(e);
    FirstRead(e, rest, limits, depth, nodes, seen);
    MembersResult(ParseMembers(WrittenEntries(e) + rest, limits, depth, nodes, seen), FirstMember(e),
      DenotedEntries(e.rest), rest,
                  limits, depth, nodes, seen);
  }

  lemma LastComplete(e: Entries, rest: Text, limits: Limits, depth: nat, nodes: nat, seen: set<Text>)
    requires e.Entry? && ValidEntries(e) && e.rest.NoEntries? && Readable(FirstMember(e), limits, depth, nodes, seen)
    ensures EntriesRead(e, rest, limits, depth, nodes, seen)
    decreases e, 2
  {
    EntryDenoted(e);
    assert [FirstMember(e)] + [] == [FirstMember(e)];
    FirstThenRest(e, rest, limits, depth, nodes, seen);
    LastResult(ParseMembers(WrittenEntries(e) + rest, limits, depth, nodes, seen), FirstMember(e), rest, limits, depth,
      nodes, seen);
  }

  lemma NextComplete(e: Entries, rest: Text, limits: Limits, depth: nat, nodes: nat, seen: set<Text>)
    requires e.Entry? && ValidEntries(e) && e.rest.Entry? && Readable(FirstMember(e), limits, depth, nodes, seen)
    requires EntriesRead(e.rest, rest, limits, depth, FirstItem(e, rest, nodes).nodes, seen + {FirstMember(e).key})
    ensures EntriesRead(e, rest, limits, depth, nodes, seen)
    decreases e, 2
  {
    var member, item := FirstMember(e), FirstItem(e, rest, nodes);
    EntryDenoted(e);
    FirstThenRest(e, rest, limits, depth, nodes, seen);
    MoreResult(ParseMembers(WrittenEntries(e) + rest, limits, depth, nodes, seen),
               ParseMembers(WrittenEntries(e.rest) + rest, limits, depth, item.nodes, seen + {member.key}),
               member, DenotedEntries(e.rest), rest, limits, depth, nodes, item.nodes, seen);
  }

  lemma {:induction false} MembersComplete(e: Entries, rest: Text, limits: Limits, depth: nat, nodes: nat,
                                           seen: set<Text>)
    requires e.Entry? && ValidEntries(e)
    ensures EntriesRead(e, rest, limits, depth, nodes, seen)
    decreases e, 3
  {
    if !Readable(FirstMember(e), limits, depth, nodes, seen) {
      RefusedComplete(e, rest, limits, depth, nodes, seen);
    } else if e.rest.NoEntries? {
      LastComplete(e, rest, limits, depth, nodes, seen);
    } else {
      MembersComplete(e.rest, rest, limits, depth, FirstItem(e, rest, nodes).nodes, seen + {FirstMember(e).key});
      NextComplete(e, rest, limits, depth, nodes, seen);
    }
  }

  lemma MembersFitTogether(member: Member, more: seq<Member>, limits: Limits, depth: nat, nodes: nat, seen: set<Text>)
    ensures MembersFit([member] + more, limits, depth, nodes, seen) <==>
            && Readable(member, limits, depth, nodes, seen)
            && MembersFit(more, limits, depth, nodes + Nodes(member.value), seen + {member.key})
    ensures NodesOfMembers([member] + more) == Nodes(member.value) + NodesOfMembers(more)
  {
    var all := [member] + more;
    assert all[1..] == more;
    assert all[0] == member && forall i | 0 <= i < |more| :: more[i] == all[i + 1];
    if MembersFit(all, limits, depth, nodes, seen) {
      assert forall i | 0 <= i < |more| :: more[i].key != all[0].key;
    }
  }

  // ---------------------------------------------------------------------
  // Whole texts
  // ---------------------------------------------------------------------

  /** The source is a JSON text of the grammar, and this is what it denotes. */
  ghost predicate Denotes(source: Text, v: Value) {
    exists lead: Text, t: Tree, trail: Text ::
      AllBlank(lead) && AllBlank(trail) && Valid(t) && source == lead + (Written(t) + trail) && Denoted(t) == v
  }

  lemma AcceptedDenotes(source: Text, limits: Limits, v: Value)
    requires 1 <= limits.maxDepth <= MAX_SAFE && 1 <= limits.maxNodes <= MAX_SAFE
    requires Parse(source, limits.maxDepth, limits.maxNodes) == Ok(v)
    ensures Denotes(source, v) && Interoperable(v) && WithinLimits(v, limits)
  {
    var s := Skip(source);
    var lead := SkipSplits(source);
    var t := ValueIsDerived(s, limits, 1, 0);
    var read := ParseValue(s, limits, 1, 0).value;
    var trail := SkipSplits(read.rest);
    assert Skip(read.rest) == [];
    assert source == lead + (Written(t) + trail);
  }

  lemma DenotedIsAccepted(source: Text, limits: Limits, lead: Text, t: Tree, trail: Text)
    requires 1 <= limits.maxDepth <= MAX_SAFE && 1 <= limits.maxNodes <= MAX_SAFE
    requires AllBlank(lead) && AllBlank(trail) && Valid(t) && source == lead + (Written(t) + trail)
    requires Interoperable(Denoted(t)) && WithinLimits(Denoted(t), limits)
    ensures Parse(source, limits.maxDepth, limits.maxNodes) == Ok(Denoted(t))
  {
    Begins(t);
    assert (Written(t) + trail)[0] == Written(t)[0];
    SkipOver(lead, Written(t) + trail);
    ValueComplete(t, trail, limits, 1, 0);
    assert trail + [] == trail;
    SkipOver(trail, []);
  }

  /** The parser accepts a source, with a value, exactly when the source is a JSON text
      denoting that value, the value is interoperable and it is within both limits. */
  lemma AcceptedExactly(source: Text, limits: Limits, v: Value)
    requires 1 <= limits.maxDepth <= MAX_SAFE && 1 <= limits.maxNodes <= MAX_SAFE
    ensures Parse(source, limits.maxDepth, limits.maxNodes) == Ok(v) <==>
            Denotes(source, v) && Interoperable(v) && WithinLimits(v, limits)
  {
    if Parse(source, limits.maxDepth, limits.maxNodes) == Ok(v) {
      AcceptedDenotes(source, limits, v);
    } else if Denotes(source, v) && Interoperable(v) && WithinLimits(v, limits) {
      var lead: Text, t: Tree, trail: Text :|
        AllBlank(lead) && AllBlank(trail) && Valid(t) && source == lead + (Written(t) + trail) && Denoted(t) == v;
      DenotedIsAccepted(source, limits, lead, t, trail);
    }
  }
}
