/** Parsing a canonical print gives the value back, and the print does not depend on
    the order in which members were inserted. */
module CanonicalRoundTrip {
  import opened Standard
  import opened JsonLexical
  import opened JsonGrammar
  import opened StrictJson
  import opened JsonCompleteness
  import opened CanonicalJson

  // ---------------------------------------------------------------------
  // The derivation of a print
  // ---------------------------------------------------------------------

  /** Every number is known by a lexeme of the grammar. */
  predicate Lexical(v: Value) {
    match v
    case Number(lexeme) => lexeme.Valid()
    case Array(items) => forall i | 0 <= i < |items| :: Lexical(items[i])
    case Object(members) => forall i | 0 <= i < |members| :: Lexical(members[i].value)
    case _ => true
  }

  function PlainTree(v: Value): Tree {
    match v
    case Null => NullTree
    case Boolean(truth) => BooleanTree(truth)
    case Number(lexeme) => NumberTree(lexeme)
    case String(text) => StringTree(CharactersFrom(text, 0))
    case Array(items) => ArrayTree([], PlainElements(items))
    case Object(members) => ObjectTree([], PlainEntries(members))
  }

  function PlainElements(items: seq<Value>): Elements {
    if |items| == 0 then NoElements else Element(PlainTree(items[0]), [], [], PlainElements(items[1..]))
  }

  function PlainEntries(members: seq<Member>): Entries {
    if |members| == 0 then NoEntries
    else Entry(CharactersFrom(members[0].key, 0), [], [], PlainTree(members[0].value), [], [],
      PlainEntries(members[1..]))
  }

  lemma {:induction false} PlainDenotes(v: Value)
    requires Lexical(v)
    ensures Valid(PlainTree(v)) && Denoted(PlainTree(v)) == v
    decreases v
  {
    match v
    case String(text) => assert text[0..] == text;
    case Array(items) => PlainItemsDenote(items);
    case Object(members) => PlainMembersDenote(members);
    case _ =>
  }

  lemma {:induction false} PlainItemsDenote(items: seq<Value>)
    requires forall i | 0 <= i < |items| :: Lexical(items[i])
    ensures ValidElements(PlainElements(items)) && DenotedElements(PlainElements(items)) == items
    decreases items
  {
    if |items| > 0 {
      PlainDenotes(items[0]);
      PlainItemsDenote(items[1..]);
      assert items == [items[0]] + items[1..];
    }
  }

  lemma {:induction false} PlainMembersDenote(members: seq<Member>)
    requires forall i | 0 <= i < |members| :: Lexical(members[i].value)
    ensures ValidEntries(PlainEntries(members)) && DenotedEntries(PlainEntries(members)) == members
    decreases members
  {
    if |members| > 0 {
      PlainDenotes(members[0].value);
      PlainMembersDenote(members[1..]);
      assert members[0].key[0..] == members[0].key;
      assert members == [members[0]] + members[1..];
    }
  }

  lemma Bracketed(open: Unit, content: Text)
    ensures [open] + ([] + content) == [open] + content
  {
  }

  /** The print is the text of a derivation of the ordered value. */
  lemma {:induction false} PrintIsWritten(v: Value)
    ensures Print(v) == Written(PlainTree(Ordered(v)))
    decreases Nodes(v), 0
  {
    match v
    case Array(items) =>
      PrintedItemsAreWritten(items);
      Bracketed(OPEN_BRACKET, PrintItems(items));
    case Object(members) =>
      PrintedMembersAreWritten(Sorted(members));
      Bracketed(OPEN_BRACE, PrintMembers(Sorted(members)));
    case _ =>
  }

  lemma {:induction false} PrintedItemsAreWritten(items: seq<Value>)
    ensures PrintItems(items) == WrittenElements(PlainElements(OrderedItems(items)))
    decreases NodesOfItems(items), 1, |items|
  {
    if |items| > 0 {
      PrintIsWritten(items[0]);
      PrintedItemsAreWritten(items[1..]);
      var ordered := OrderedItems(items);
      assert ordered[1..] == OrderedItems(items[1..]);
      assert PlainElements(ordered).rest == PlainElements(OrderedItems(items[1..]));
      Unblanked(Print(items[0]), if |items| == 1 then [CLOSE_BRACKET] else [COMMA] + PrintItems(items[1..]),
        PrintItems(items[1..]));
    }
  }

  lemma Unblanked(value: Text, follows: Text, next: Text)
    ensures [] + follows == follows && [] + next == next && [] + (value + follows) == value + follows
    ensures [] + ([COLON] + (value + follows)) == [COLON] + (value + follows)
  {
  }

  lemma {:induction false} PrintedMembersAreWritten(members: seq<Member>)
    ensures PrintMembers(members) == WrittenEntries(PlainEntries(OrderedMembers(members)))
    decreases NodesOfMembers(members), 1, |members|
  {
    if |members| > 0 {
      PrintIsWritten(members[0].value);
      PrintedMembersAreWritten(members[1..]);
      var ordered := OrderedMembers(members);
      assert ordered[1..] == OrderedMembers(members[1..]);
      MemberIsWritten(members[0].key, Print(members[0].value), |members| == 1, PrintMembers(members[1..]));
    }
  }

  lemma MemberIsWritten(key: Text, value: Text, last: bool, next: Text)
    ensures var follows := if last then [CLOSE_BRACE] else [COMMA] + next;
            PrintString(key) + ([COLON] + (value + follows)) ==
            [QUOTE] + (WrittenTail(CharactersFrom(key, 0)) + ([] + ([COLON] + ([] + (value +
              ([] + if last then [CLOSE_BRACE] else [COMMA] + ([] + next)))))))
  {
    var follows := if last then [CLOSE_BRACE] else [COMMA] + next;
    Unblanked(value, follows, next);
  }

  // ---------------------------------------------------------------------
  // Ordering changes no constraint
  // ---------------------------------------------------------------------

  lemma {:induction false} InsertKeepsDepth(m: Member, sorted: seq<Member>)
    ensures DepthOfMembers(Insert(m, sorted)) == Max(Depth(m.value), DepthOfMembers(sorted))
  {
    if |sorted| > 0 && Before(sorted[0].key, m.key) {
      InsertKeepsDepth(m, sorted[1..]);
      assert Insert(m, sorted)[1..] == Insert(m, sorted[1..]);
    } else {
      assert ([m] + sorted)[1..] == sorted;
    }
  }

  lemma {:induction false} SortedKeepsDepth(members: seq<Member>)
    ensures DepthOfMembers(Sorted(members)) == DepthOfMembers(members)
  {
    if |members| > 0 {
      SortedKeepsDepth(members[1..]);
      InsertKeepsDepth(members[0], Sorted(members[1..]));
    }
  }

  lemma {:induction false} OrderedKeepsSize(v: Value)
    ensures Depth(Ordered(v)) == Depth(v) && Nodes(Ordered(v)) == Nodes(v)
    decreases Nodes(v), 0
  {
    match v
    case Array(items) => OrderedItemsKeepSize(items);
    case Object(members) =>
      OrderedMembersKeepSize(Sorted(members));
      SortedKeepsDepth(members);
    case _ =>
  }

  lemma {:induction false} OrderedItemsKeepSize(items: seq<Value>)
    ensures DepthOfItems(OrderedItems(items)) == DepthOfItems(items)
    ensures NodesOfItems(OrderedItems(items)) == NodesOfItems(items)
    decreases NodesOfItems(items), 1, |items|
  {
    if |items| > 0 {
      OrderedKeepsSize(items[0]);
      OrderedItemsKeepSize(items[1..]);
      assert OrderedItems(items)[1..] == OrderedItems(items[1..]);
    }
  }

  lemma {:induction false} OrderedMembersKeepSize(members: seq<Member>)
    ensures DepthOfMembers(OrderedMembers(members)) == DepthOfMembers(members)
    ensures NodesOfMembers(OrderedMembers(members)) == NodesOfMembers(members)
    decreases NodesOfMembers(members), 1, |members|
  {
    if |members| > 0 {
      OrderedKeepsSize(members[0].value);
      OrderedMembersKeepSize(members[1..]);
      assert OrderedMembers(members)[1..] == OrderedMembers(members[1..]);
    }
  }

  /** The elements of an ordered list, one by one. */
  lemma {:induction false} OrderedItemAt(items: seq<Value>, i: nat)
    requires i < |items|
    ensures OrderedItems(items)[i] == Ordered(items[i])
  {
    if i > 0 {
      OrderedItemAt(items[1..], i - 1);
    }
  }

  lemma {:induction false} OrderedMemberAt(members: seq<Member>, i: nat)
    requires i < |members|
    ensures OrderedMembers(members)[i] == Member(members[i].key, Ordered(members[i].value))
  {
    if i > 0 {
      OrderedMemberAt(members[1..], i - 1);
    }
  }

  lemma {:induction false} NodesOfItem(items: seq<Value>, i: nat)
    requires i < |items|
    ensures Nodes(items[i]) <= NodesOfItems(items)
  {
    if i > 0 {
      NodesOfItem(items[1..], i - 1);
    }
  }

  lemma {:induction false} NodesOfMember(members: seq<Member>, i: nat)
    requires i < |members|
    ensures Nodes(members[i].value) <= NodesOfMembers(members)
  {
    if i > 0 {
      NodesOfMember(members[1..], i - 1);
    }
  }

  predicate DistinctKeys(members: seq<Member>) {
    forall i, j | 0 <= i < j < |members| :: members[i].key != members[j].key
  }

  lemma InBoth(a: seq<Member>, b: seq<Member>, m: Member)
    requires multiset(a) == multiset(b)
    ensures m in a <==> m in b
  {
    assert m in a <==> m in multiset(a);
    assert m in b <==> m in multiset(b);
  }

  lemma {:induction false} InsertKeepsDistinct(m: Member, sorted: seq<Member>)
    ensures DistinctKeys(Insert(m, sorted)) <==> DistinctKeys(sorted) && forall i | 0 <= i < |sorted| ::
            sorted[i].key != m.key
  {
    if |sorted| > 0 && Before(sorted[0].key, m.key) {
      var tail := Insert(m, sorted[1..]);
      InsertKeepsDistinct(m, sorted[1..]);
      Irreflexive(m.key);
      assert sorted[0].key != m.key;
      KeysOfInsert(m, sorted[1..], sorted[0].key);
      DistinctCons(sorted[0], tail);
      DistinctCons(sorted[0], sorted[1..]);
      assert sorted == [sorted[0]] + sorted[1..];
    } else {
      DistinctCons(m, sorted);
    }
  }

  predicate HasKey(members: seq<Member>, key: Text) {
    exists i :: 0 <= i < |members| && members[i].key == key
  }

  lemma DistinctCons(m: Member, members: seq<Member>)
    ensures DistinctKeys([m] + members) <==> DistinctKeys(members) && !HasKey(members, m.key)
  {
    var all := [m] + members;
    assert forall i | 0 <= i < |members| :: members[i] == all[i + 1];
    if DistinctKeys(all) {
      forall i | 0 <= i < |members|
        ensures members[i].key != m.key
      {
        assert all[0].key != all[i + 1].key;
      }
    }
  }

  lemma KeysOfInsert(m: Member, sorted: seq<Member>, key: Text)
    ensures HasKey(Insert(m, sorted), key) <==> key == m.key || HasKey(sorted, key)
  {
    var r := Insert(m, sorted);
    if HasKey(r, key) {
      var i :| 0 <= i < |r| && r[i].key == key;
      assert r[i] in multiset(r);
      assert r[i] == m || r[i] in multiset(sorted);
      if r[i] != m {
        assert r[i] in sorted;
      }
    } else {
      assert m in multiset(r);
      assert m in r;
      forall i | 0 <= i < |sorted|
        ensures sorted[i].key != key
      {
        assert sorted[i] in multiset(sorted);
        assert sorted[i] in multiset(r);
        assert sorted[i] in r;
      }
    }
  }

  lemma {:induction false} Irreflexive(a: Text)
    ensures !Before(a, a)
  {
    if |a| > 0 {
      Irreflexive(a[1..]);
    }
  }

  lemma {:induction false} SortedKeepsKey(members: seq<Member>, key: Text)
    ensures HasKey(Sorted(members), key) <==> HasKey(members, key)
  {
    if |members| > 0 {
      SortedKeepsKey(members[1..], key);
      KeysOfInsert(members[0], Sorted(members[1..]), key);
      HasKeyCons(members[0], members[1..], key);
      assert members == [members[0]] + members[1..];
    }
  }

  lemma {:induction false} SortedKeepsDistinct(members: seq<Member>)
    ensures DistinctKeys(Sorted(members)) <==> DistinctKeys(members)
  {
    if |members| > 0 {
      var m, rest := members[0], members[1..];
      SortedKeepsDistinct(rest);
      SortedKeepsKey(rest, m.key);
      InsertIsDistinct(m, Sorted(rest));
      assert members == [m] + rest;
      DistinctCons(m, rest);
    }
  }

  lemma InsertIsDistinct(m: Member, sorted: seq<Member>)
    ensures DistinctKeys(Insert(m, sorted)) <==> DistinctKeys(sorted) && !HasKey(sorted, m.key)
  {
    InsertKeepsDistinct(m, sorted);
  }

  lemma HasKeyCons(m: Member, rest: seq<Member>, key: Text)
    ensures HasKey([m] + rest, key) <==> key == m.key || HasKey(rest, key)
  {
    var all := [m] + rest;
    assert all[0] == m && forall i | 0 <= i < |rest| :: all[i + 1] == rest[i];
    if HasKey(all, key) {
      var i :| 0 <= i < |all| && all[i].key == key;
      assert i > 0 ==> rest[i - 1].key == key;
    }
  }

  lemma {:induction false} OrderedKeepsMeaning(v: Value)
    ensures Interoperable(Ordered(v)) <==> Interoperable(v)
    ensures Lexical(Ordered(v)) <==> Lexical(v)
    decreases Nodes(v)
  {
    match v
    case Array(items) =>
      forall i | 0 <= i < |items|
        ensures OrderedItems(items)[i] == Ordered(items[i])
        ensures Interoperable(Ordered(items[i])) <==> Interoperable(items[i])
        ensures Lexical(Ordered(items[i])) <==> Lexical(items[i])
      {
        OrderedItemAt(items, i);
        NodesOfItem(items, i);
        OrderedKeepsMeaning(items[i]);
      }
    case Object(members) => OrderedObjectKeepsMeaning(members);
    case _ =>
  }

  lemma {:induction false} OrderedObjectKeepsMeaning(members: seq<Member>)
    ensures Interoperable(Ordered(Object(members))) <==> Interoperable(Object(members))
    ensures Lexical(Ordered(Object(members))) <==> Lexical(Object(members))
    decreases Nodes(Object(members)), 0
  {
    var sorted := Sorted(members);
    var ordered := OrderedMembers(sorted);
    forall i | 0 <= i < |sorted|
      ensures ordered[i] == Member(sorted[i].key, Ordered(sorted[i].value))
      ensures Interoperable(ordered[i].value) <==> Interoperable(sorted[i].value)
      ensures Lexical(ordered[i].value) <==> Lexical(sorted[i].value)
    {
      OrderedMemberAt(sorted, i);
      NodesOfMember(sorted, i);
      OrderedKeepsMeaning(sorted[i].value);
    }
    SortedKeepsDistinct(members);
    SameMeaning(members, sorted, ordered);
  }

  lemma SameMeaning(members: seq<Member>, sorted: seq<Member>, ordered: seq<Member>)
    requires multiset(members) == multiset(sorted) && (DistinctKeys(sorted) <==> DistinctKeys(members))
    requires |ordered| == |sorted| && forall i | 0 <= i < |sorted| ::
               && ordered[i].key == sorted[i].key
               && (Interoperable(ordered[i].value) <==> Interoperable(sorted[i].value))
               && (Lexical(ordered[i].value) <==> Lexical(sorted[i].value))
    ensures Interoperable(Object(ordered)) <==> Interoperable(Object(members))
    ensures Lexical(Object(ordered)) <==> Lexical(Object(members))
  {
    assert DistinctKeys(ordered) <==> DistinctKeys(sorted);
    SameMembers(members, sorted);
    assert Interoperable(Object(ordered)) <==> Interoperable(Object(sorted));
  }

  lemma SameMembers(a: seq<Member>, b: seq<Member>)
    requires multiset(a) == multiset(b)
    ensures (forall i | 0 <= i < |a| :: Paired(a[i].key) && Interoperable(a[i].value)) <==>
            (forall i | 0 <= i < |b| :: Paired(b[i].key) && Interoperable(b[i].value))
    ensures (forall i | 0 <= i < |a| :: Lexical(a[i].value)) <==> (forall i | 0 <= i < |b| :: Lexical(b[i].value))
  {
    forall i | 0 <= i < |a|
      ensures a[i] in b
    {
      InBoth(a, b, a[i]);
    }
    forall i | 0 <= i < |b|
      ensures b[i] in a
    {
      InBoth(a, b, b[i]);
    }
  }

  // ---------------------------------------------------------------------
  // The round trip
  // ---------------------------------------------------------------------

  /** Parsing the canonical print of any value gives the value back, with its members in
      printing order, exactly when its strings are well formed, its names distinct, its
      numbers finite and its depth and count within the limits; else it is refused. */
  lemma PrintRoundTrips(v: Value, limits: Limits)
    requires 1 <= limits.maxDepth <= MAX_SAFE && 1 <= limits.maxNodes <= MAX_SAFE && Lexical(v)
    ensures if Interoperable(v) && WithinLimits(v, limits)
            then Parse(Print(v), limits.maxDepth, limits.maxNodes) == Ok(Ordered(v))
            else Parse(Print(v), limits.maxDepth, limits.maxNodes).Err?
  {
    var t := PlainTree(Ordered(v));
    OrderedKeepsMeaning(v);
    OrderedKeepsSize(v);
    PlainDenotes(Ordered(v));
    PrintIsWritten(v);
    assert Print(v) == [] + (Written(t) + []);
    if Interoperable(v) && WithinLimits(v, limits) {
      DenotedIsAccepted(Print(v), limits, [], t, []);
    } else {
      ValueComplete(t, [], limits, 1, 0);
      Begins(t);
      assert Written(t) + [] == Print(v);
    }
  }
}
