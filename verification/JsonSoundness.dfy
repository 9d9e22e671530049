/** Everything the parser accepts is JSON, within every limit. */
module JsonSoundness {
  import opened Standard
  import opened JsonLexical
  import opened JsonGrammar
  import opened StrictJson

  /** Text that was read as a value is that value's derivation, and the value meets
      every constraint: pairing, finiteness, distinct names, depth and count. */
  predicate Derives(t: Tree, s: Text, read: Read<Value>, limits: Limits, depth: nat, nodes: nat) {
    && Valid(t) && s == Written(t) + read.rest && read.value == Denoted(t)
    && Interoperable(read.value)
    && depth + Depth(read.value) <= limits.maxDepth + 1
    && nodes + Nodes(read.value) == read.nodes <= limits.maxNodes
  }

  predicate DerivesItems(e: Elements, s: Text, read: Read<seq<Value>>, limits: Limits, depth: nat, nodes: nat) {
    && e.Element? && ValidElements(e) && s == WrittenElements(e) + read.rest && read.value == DenotedElements(e)
    && (forall i | 0 <= i < |read.value| :: Interoperable(read.value[i]))
    && depth + DepthOfItems(read.value) <= limits.maxDepth
    && nodes + NodesOfItems(read.value) == read.nodes <= limits.maxNodes
  }

  predicate DerivesMembers(e: Entries, s: Text, read: Read<seq<Member>>, limits: Limits, depth: nat, nodes: nat,
                           seen: set<Text>) {
    && e.Entry? && ValidEntries(e) && s == WrittenEntries(e) + read.rest && read.value == DenotedEntries(e)
    && Interoperable(Object(read.value))
    && (forall i | 0 <= i < |read.value| :: read.value[i].key !in seen)
    && depth + DepthOfMembers(read.value) <= limits.maxDepth
    && nodes + NodesOfMembers(read.value) == read.nodes <= limits.maxNodes
  }

  /** A scalar that was read is derived as itself. */
  predicate DerivesScalar(t: Tree, s: Text, read: Read<Value>) {
    && Valid(t) && !t.ArrayTree? && !t.ObjectTree?
    && s == Written(t) + read.rest && read.value == Denoted(t) && Interoperable(read.value)
  }

  lemma StringIsDerived(s: Text, nodes: nat) returns (t: Tree)
    requires |s| > 0 && s[0] == QUOTE && ReadString(s).Ok?
    ensures DerivesScalar(t, s, Read(String(ReadString(s).value.value), ReadString(s).value.rest, nodes))
  {
    var scan := ScanString(s[1..]).value;
    t := StringTree(scan.chars);
    assert s == [QUOTE] + s[1..];
    assert s == ([QUOTE] + WrittenTail(scan.chars)) + scan.rest;
  }

  lemma NumberIsDerived(s: Text, nodes: nat) returns (t: Tree)
    requires ParseNumber(s, nodes).Ok?
    ensures DerivesScalar(t, s, ParseNumber(s, nodes).value)
  {
    var number := ReadNumber(s).value;
    t := NumberTree(number.parts);
    NumberDerives(number.parts, s, number.rest, nodes);
  }

  lemma NumberDerives(parts: NumberParts, s: Text, rest: Text, nodes: nat)
    requires parts.Valid() && Finite(parts) && s == parts.Written() + rest
    ensures DerivesScalar(NumberTree(parts), s, Read(Number(parts), rest, nodes))
  {
  }

  lemma ScalarIsDerived(s: Text, nodes: nat) returns (t: Tree)
    requires |s| > 0 && ParseScalar(s, nodes).Ok?
    ensures DerivesScalar(t, s, ParseScalar(s, nodes).value) && ParseScalar(s, nodes).value.nodes == nodes
  {
    if s[0] == QUOTE {
      t := StringIsDerived(s, nodes);
    } else if s[0] == TRUE_TEXT[0] {
      t := BooleanTree(true);
    } else if s[0] == FALSE_TEXT[0] {
      t := BooleanTree(false);
    } else if s[0] == NULL_TEXT[0] {
      t := NullTree;
    } else {
      t := NumberIsDerived(s, nodes);
    }
  }

  lemma ScalarDerives(t: Tree, s: Text, read: Read<Value>, limits: Limits, depth: nat, nodes: nat)
    requires DerivesScalar(t, s, read) && read.nodes == nodes + 1 <= limits.maxNodes && depth <= limits.maxDepth
    ensures Derives(t, s, read, limits, depth, nodes)
  {
    assert Depth(read.value) == 1 && Nodes(read.value) == 1;
  }

  /** Which reader a value goes to, once it is within the limits. */
  lemma ValueOpens(s: Text, limits: Limits, depth: nat, nodes: nat)
    requires ParseValue(s, limits, depth, nodes).Ok?
    ensures |s| > 0 && depth <= limits.maxDepth && nodes + 1 <= limits.maxNodes
    ensures ParseValue(s, limits, depth, nodes) ==
            if s[0] == OPEN_BRACE then ParseObject(s, limits, depth, nodes + 1)
            else if s[0] == OPEN_BRACKET then ParseArray(s, limits, depth, nodes + 1)
            else ParseScalar(s, nodes + 1)
  {
  }

  lemma ScalarIsDerivedAt(s: Text, limits: Limits, depth: nat, nodes: nat) returns (t: Tree)
    requires |s| > 0 && ParseScalar(s, nodes + 1).Ok? && depth <= limits.maxDepth && nodes + 1 <= limits.maxNodes
    ensures Derives(t, s, ParseScalar(s, nodes + 1).value, limits, depth, nodes)
  {
    t := ScalarIsDerived(s, nodes + 1);
    ScalarDerives(t, s, ParseScalar(s, nodes + 1).value, limits, depth, nodes);
  }

  lemma {:induction false} ValueIsDerived(s: Text, limits: Limits, depth: nat, nodes: nat) returns (t: Tree)
    requires ParseValue(s, limits, depth, nodes).Ok?
    ensures Derives(t, s, ParseValue(s, limits, depth, nodes).value, limits, depth, nodes)
    decreases |s|, 1
  {
    ValueOpens(s, limits, depth, nodes);
    if s[0] == OPEN_BRACE {
      t := ObjectIsDerived(s, limits, depth, nodes);
    } else if s[0] == OPEN_BRACKET {
      t := ArrayIsDerived(s, limits, depth, nodes);
    } else {
      t := ScalarIsDerivedAt(s, limits, depth, nodes);
    }
  }

  lemma WrittenArrayText(s: Text, lead: Text, inside: Text, elements: Text, rest: Text)
    requires |s| > 0 && s[0] == OPEN_BRACKET && s[1..] == lead + inside && inside == elements + rest
    ensures s == ([OPEN_BRACKET] + (lead + elements)) + rest
  {
  }

  lemma ArrayDerives(s: Text, lead: Text, e: Elements, items: Read<seq<Value>>, limits: Limits, depth: nat, nodes: nat)
    requires AllBlank(lead) && ValidElements(e) && s == ([OPEN_BRACKET] + (lead + WrittenElements(e))) + items.rest
    requires items.value == DenotedElements(e) && forall i | 0 <= i < |items.value| :: Interoperable(items.value[i])
    requires depth + DepthOfItems(items.value) <= limits.maxDepth
    requires nodes + 1 + NodesOfItems(items.value) == items.nodes <= limits.maxNodes
    ensures Derives(ArrayTree(lead, e), s, Read(Array(items.value), items.rest, items.nodes), limits, depth, nodes)
  {
  }

  lemma ObjectDerives(s: Text, lead: Text, e: Entries, members: Read<seq<Member>>, limits: Limits, depth: nat,
                      nodes: nat)
    requires AllBlank(lead) && ValidEntries(e) && s == ([OPEN_BRACE] + (lead + WrittenEntries(e))) + members.rest
    requires members.value == DenotedEntries(e) && Interoperable(Object(members.value))
    requires depth + DepthOfMembers(members.value) <= limits.maxDepth
    requires nodes + 1 + NodesOfMembers(members.value) == members.nodes <= limits.maxNodes
    ensures Derives(ObjectTree(lead, e), s, Read(Object(members.value), members.rest, members.nodes), limits, depth,
            nodes)
  {
  }

  lemma ArrayOpens(s: Text, limits: Limits, depth: nat, nodes: nat)
    requires |s| > 0 && ParseArray(s, limits, depth, nodes).Ok?
    ensures var inside := Skip(s[1..]);
            ParseArray(s, limits, depth, nodes) ==
            if |inside| > 0 && inside[0] == CLOSE_BRACKET then Ok(Read(Array([]), inside[1..], nodes))
            else match ParseItems(inside, limits, depth, nodes)
              case Err(error) => Err(error)
              case Ok(items) => Ok(Read(Array(items.value), items.rest, items.nodes))
  {
  }

  lemma {:induction false} ArrayIsDerived(s: Text, limits: Limits, depth: nat, nodes: nat) returns (t: Tree)
    requires |s| > 0 && s[0] == OPEN_BRACKET && ParseArray(s, limits, depth, nodes + 1).Ok?
    requires depth <= limits.maxDepth && nodes + 1 <= limits.maxNodes
    ensures Derives(t, s, ParseArray(s, limits, depth, nodes + 1).value, limits, depth, nodes)
    decreases |s|, 0
  {
    ArrayOpens(s, limits, depth, nodes + 1);
    var lead := SkipSplits(s[1..]);
    var inside := Skip(s[1..]);
    if |inside| > 0 && inside[0] == CLOSE_BRACKET {
      t := ArrayTree(lead, NoElements);
      WrittenArrayText(s, lead, inside, [CLOSE_BRACKET], inside[1..]);
      ArrayDerives(s, lead, NoElements, Read([], inside[1..], nodes + 1), limits, depth, nodes);
    } else {
      var elements := ItemsAreDerived(inside, limits, depth, nodes + 1);
      t := ArrayTree(lead, elements);
      var items := ParseItems(inside, limits, depth, nodes + 1).value;
      WrittenArrayText(s, lead, inside, WrittenElements(elements), items.rest);
      ArrayDerives(s, lead, elements, items, limits, depth, nodes);
    }
  }

  /** Text after a value: blanks, a comma, blanks and what follows. */
  lemma AfterValue(s: Text, value: Text, after: Text, t: Text, comma: Text, next: Text, rest: Text)
    requires |t| > 0 && t[0] == COMMA && t[1..] == comma + (next + rest) && s == value + (after + t)
    ensures s == (value + (after + ([COMMA] + (comma + next)))) + rest
  {
    assert t == [COMMA] + t[1..];
  }

  lemma AfterLast(s: Text, value: Text, after: Text, t: Text, close: Unit)
    requires |t| > 0 && t[0] == close && s == value + (after + t)
    ensures s == (value + (after + [close])) + t[1..]
  {
    assert t == [close] + t[1..];
  }

  lemma LastElement(value: Tree, after: Text, s: Text, item: Read<Value>, t: Text, limits: Limits, depth: nat,
                    nodes: nat)
    requires Derives(value, s, item, limits, depth + 1, nodes) && AllBlank(after)
    requires item.rest == after + t && |t| > 0 && t[0] == CLOSE_BRACKET
    ensures DerivesItems(Element(value, after, [], NoElements), s, Read([item.value], t[1..], item.nodes), limits,
            depth, nodes)
  {
    AfterLast(s, Written(value), after, t, CLOSE_BRACKET);
    assert [item.value][1..] == [];
  }

  lemma OneMoreElement(value: Tree, after: Text, comma: Text, rest: Elements, s: Text, item: Read<Value>, t: Text,
                       more: Read<seq<Value>>, limits: Limits, depth: nat, nodes: nat)
    requires Derives(value, s, item, limits, depth + 1, nodes) && AllBlank(after) && AllBlank(comma)
    requires item.rest == after + t && |t| > 0 && t[0] == COMMA
    requires t[1..] == comma + Skip(t[1..]) && DerivesItems(rest, Skip(t[1..]), more, limits, depth, item.nodes)
    ensures DerivesItems(Element(value, after, comma, rest), s, Read([item.value] + more.value, more.rest, more.nodes),
                         limits, depth, nodes)
  {
    AfterValue(s, Written(value), after, t, comma, WrittenElements(rest), more.rest);
    assert ([item.value] + more.value)[1..] == more.value;
  }

  lemma {:induction false} ItemsAreDerived(s: Text, limits: Limits, depth: nat, nodes: nat) returns (e: Elements)
    requires ParseItems(s, limits, depth, nodes).Ok?
    ensures DerivesItems(e, s, ParseItems(s, limits, depth, nodes).value, limits, depth, nodes)
    decreases |s|, 2
  {
    var value := ValueIsDerived(s, limits, depth + 1, nodes);
    var item := ParseValue(s, limits, depth + 1, nodes).value;
    var after := SkipSplits(item.rest);
    var t := Skip(item.rest);
    if t[0] == CLOSE_BRACKET {
      e := Element(value, after, [], NoElements);
      LastElement(value, after, s, item, t, limits, depth, nodes);
    } else {
      var comma := SkipSplits(t[1..]);
      var rest := ItemsAreDerived(Skip(t[1..]), limits, depth, item.nodes);
      var more := ParseItems(Skip(t[1..]), limits, depth, item.nodes).value;
      e := Element(value, after, comma, rest);
      OneMoreElement(value, after, comma, rest, s, item, t, more, limits, depth, nodes);
    }
  }

  lemma WrittenObjectText(s: Text, lead: Text, inside: Text, entries: Text, rest: Text)
    requires |s| > 0 && s[0] == OPEN_BRACE && s[1..] == lead + inside && inside == entries + rest
    ensures s == ([OPEN_BRACE] + (lead + entries)) + rest
  {
  }

  lemma ObjectOpens(s: Text, limits: Limits, depth: nat, nodes: nat)
    requires |s| > 0 && ParseObject(s, limits, depth, nodes).Ok?
    ensures var inside := Skip(s[1..]);
            ParseObject(s, limits, depth, nodes) ==
            if |inside| > 0 && inside[0] == CLOSE_BRACE then Ok(Read(Object([]), inside[1..], nodes))
            else match ParseMembers(inside, limits, depth, nodes, {})
              case Err(error) => Err(error)
              case Ok(members) => Ok(Read(Object(members.value), members.rest, members.nodes))
  {
  }

  lemma {:induction false} ObjectIsDerived(s: Text, limits: Limits, depth: nat, nodes: nat) returns (t: Tree)
    requires |s| > 0 && s[0] == OPEN_BRACE && ParseObject(s, limits, depth, nodes + 1).Ok?
    requires depth <= limits.maxDepth && nodes + 1 <= limits.maxNodes
    ensures Derives(t, s, ParseObject(s, limits, depth, nodes + 1).value, limits, depth, nodes)
    decreases |s|, 0
  {
    ObjectOpens(s, limits, depth, nodes + 1);
    var lead := SkipSplits(s[1..]);
    var inside := Skip(s[1..]);
    if |inside| > 0 && inside[0] == CLOSE_BRACE {
      t := ObjectTree(lead, NoEntries);
      WrittenObjectText(s, lead, inside, [CLOSE_BRACE], inside[1..]);
      ObjectDerives(s, lead, NoEntries, Read([], inside[1..], nodes + 1), limits, depth, nodes);
    } else {
      var entries := MembersAreDerived(inside, limits, depth, nodes + 1, {});
      t := ObjectTree(lead, entries);
      var members := ParseMembers(inside, limits, depth, nodes + 1, {}).value;
      WrittenObjectText(s, lead, inside, WrittenEntries(entries), members.rest);
      ObjectDerives(s, lead, entries, members, limits, depth, nodes);
    }
  }

  lemma WrittenEntryText(s: Text, key: Text, before: Text, gap: Text, tail: Text, written: Text, rest: Text)
    requires s == [QUOTE] + (key + (before + ([COLON] + (gap + tail)))) && tail == written + rest
    ensures s == ([QUOTE] + (key + (before + ([COLON] + (gap + written))))) + rest
  {
  }

  lemma MemberText(s: Text, key: Text, afterKey: Text, before: Text, t: Text, gap: Text, u: Text)
    requires |s| > 0 && s[0] == QUOTE && s[1..] == key + afterKey && afterKey == before + t
    requires |t| > 0 && t[0] == COLON && t[1..] == gap + u
    ensures s == [QUOTE] + (key + (before + ([COLON] + (gap + u))))
  {
    assert t == [COLON] + t[1..];
    assert s == [QUOTE] + s[1..];
  }

  /** What precedes a member's value: its name, blanks, a colon, blanks. */
  datatype Name = Name(chars: seq<Character>, before: Text, gap: Text)

  predicate Names(n: Name, s: Text, key: Text, u: Text) {
    && AllValid(n.chars) && AllBlank(n.before) && AllBlank(n.gap) && key == DecodedAll(n.chars) && Paired(key)
    && s == [QUOTE] + (WrittenTail(n.chars) + (n.before + ([COLON] + (n.gap + u))))
  }

  lemma NameIsDerived(s: Text) returns (n: Name)
    requires |s| > 0 && s[0] == QUOTE && ReadString(s).Ok?
    requires |Skip(ReadString(s).value.rest)| > 0 && Skip(ReadString(s).value.rest)[0] == COLON
    ensures Names(n, s, ReadString(s).value.value, Skip(Skip(ReadString(s).value.rest)[1..]))
  {
    var scan := ScanString(s[1..]).value;
    var before := SkipSplits(scan.rest);
    var t := Skip(scan.rest);
    var gap := SkipSplits(t[1..]);
    MemberText(s, WrittenTail(scan.chars), scan.rest, before, t, gap, Skip(t[1..]));
    n := Name(scan.chars, before, gap);
  }

  lemma LastMember(n: Name, value: Tree, after: Text, s: Text, key: Text, u: Text, item: Read<Value>, t: Text,
                   limits: Limits, depth: nat, nodes: nat, seen: set<Text>)
    requires Names(n, s, key, u) && key !in seen && Derives(value, u, item, limits, depth + 1, nodes) && AllBlank(after)
    requires item.rest == after + t && |t| > 0 && t[0] == CLOSE_BRACE
    ensures DerivesMembers(Entry(n.chars, n.before, n.gap, value, after, [], NoEntries), s,
                           Read([Member(key, item.value)], t[1..], item.nodes), limits, depth, nodes, seen)
  {
    AfterLast(u, Written(value), after, t, CLOSE_BRACE);
    WrittenEntryText(s, WrittenTail(n.chars), n.before, n.gap, u, Written(value) + (after + [CLOSE_BRACE]), t[1..]);
    OneMember(Member(key, item.value));
  }

  lemma OneMoreMember(n: Name, value: Tree, after: Text, comma: Text, rest: Entries, s: Text, key: Text, u: Text,
                      item: Read<Value>, t: Text, more: Read<seq<Member>>, limits: Limits, depth: nat, nodes: nat,
                        seen: set<Text>)
    requires Names(n, s, key, u) && key !in seen && Derives(value, u, item, limits, depth + 1, nodes)
    requires AllBlank(after) && AllBlank(comma) && item.rest == after + t && |t| > 0 && t[0] == COMMA
    requires t[1..] == comma + Skip(t[1..])
    requires DerivesMembers(rest, Skip(t[1..]), more, limits, depth, item.nodes, seen + {key})
    ensures DerivesMembers(Entry(n.chars, n.before, n.gap, value, after, comma, rest), s,
                           Read([Member(key, item.value)] + more.value, more.rest, more.nodes), limits, depth, nodes,
                             seen)
  {
    AfterValue(u, Written(value), after, t, comma, WrittenEntries(rest), more.rest);
    WrittenEntryText(s, WrittenTail(n.chars), n.before, n.gap, u,
                     Written(value) + (after + ([COMMA] + (comma + WrittenEntries(rest)))), more.rest);
    MoreMembers(Member(key, item.value), more.value, seen);
  }

  lemma {:induction false} MembersAreDerived(s: Text, limits: Limits, depth: nat, nodes: nat,
      seen: set<Text>) returns (e: Entries)
    requires ParseMembers(s, limits, depth, nodes, seen).Ok?
    ensures DerivesMembers(e, s, ParseMembers(s, limits, depth, nodes, seen).value, limits, depth, nodes, seen)
    decreases |s|, 2
  {
    var key := ReadString(s).value;
    var n := NameIsDerived(s);
    var u := Skip(Skip(key.rest)[1..]);
    var value := ValueIsDerived(u, limits, depth + 1, nodes);
    var item := ParseValue(u, limits, depth + 1, nodes).value;
    var after := SkipSplits(item.rest);
    var t := Skip(item.rest);
    if t[0] == CLOSE_BRACE {
      e := Entry(n.chars, n.before, n.gap, value, after, [], NoEntries);
      LastMember(n, value, after, s, key.value, u, item, t, limits, depth, nodes, seen);
    } else {
      var comma := SkipSplits(t[1..]);
      var rest := MembersAreDerived(Skip(t[1..]), limits, depth, item.nodes, seen + {key.value});
      var more := ParseMembers(Skip(t[1..]), limits, depth, item.nodes, seen + {key.value}).value;
      e := Entry(n.chars, n.before, n.gap, value, after, comma, rest);
      OneMoreMember(n, value, after, comma, rest, s, key.value, u, item, t, more, limits, depth, nodes, seen);
    }
  }

  lemma OneMember(member: Member)
    requires Paired(member.key) && Interoperable(member.value)
    ensures Interoperable(Object([member]))
    ensures DepthOfMembers([member]) == Depth(member.value) && NodesOfMembers([member]) == Nodes(member.value)
  {
    assert [member][1..] == [];
  }

  lemma MoreMembers(member: Member, more: seq<Member>, seen: set<Text>)
    requires Paired(member.key) && Interoperable(member.value) && Interoperable(Object(more)) && member.key !in seen
    requires forall i | 0 <= i < |more| :: more[i].key !in seen + {member.key}
    ensures var members := [member] + more;
            && Interoperable(Object(members)) && (forall i | 0 <= i < |members| :: members[i].key !in seen)
            && DepthOfMembers(members) == Max(Depth(member.value), DepthOfMembers(more))
            && NodesOfMembers(members) == Nodes(member.value) + NodesOfMembers(more)
  {
    assert ([member] + more)[1..] == more;
  }
}
