/** What the canonical print looks like: names in order, no blank, no character longer
    than it must be. */
module CanonicalForm {
  import opened JsonLexical
  import opened JsonGrammar
  import opened JsonTables
  import opened JsonCompleteness
  import opened CanonicalJson
  import opened CanonicalRoundTrip
  import opened CanonicalOrder

  // ---------------------------------------------------------------------
  // Names
  // ---------------------------------------------------------------------

  /** The two agree on their first k units, and there the first ends or has the smaller unit. */
  predicate SmallerAt(a: Text, b: Text, k: nat) {
    k <= |a| && k < |b| && a[..k] == b[..k] && (k < |a| ==> a[k] < b[k])
  }

  /** A name comes before another exactly when it has the smaller unit where they first
      differ, or ends there. */
  lemma {:induction false} BeforeExactly(a: Text, b: Text)
    ensures Before(a, b) <==> exists k :: 0 <= k <= |a| && SmallerAt(a, b, k)
  {
    if |a| == 0 {
      assert |b| > 0 ==> SmallerAt(a, b, 0);
    } else if |b| > 0 && a[0] == b[0] {
      BeforeExactly(a[1..], b[1..]);
      forall k | 0 <= k < |a|
        ensures SmallerAt(a[1..], b[1..], k) <==> SmallerAt(a, b, k + 1)
      {
        if k < |b| - 1 {
          assert a[..k + 1] == [a[0]] + a[1..][..k] && b[..k + 1] == [b[0]] + b[1..][..k];
          assert a[..k + 1][1..] == a[1..][..k] && b[..k + 1][1..] == b[1..][..k];
        }
      }
      if k :| 0 <= k <= |a| && SmallerAt(a, b, k) {
        assert k > 0 && SmallerAt(a[1..], b[1..], k - 1);
      }
    } else if |b| > 0 {
      if a[0] < b[0] {
        assert SmallerAt(a, b, 0);
      }
      if k :| 0 <= k <= |a| && SmallerAt(a, b, k) {
        FirstUnits(a, b, k);
      }
    }
  }

  lemma FirstUnits(a: Text, b: Text, k: nat)
    requires |a| > 0 && SmallerAt(a, b, k)
    ensures if k == 0 then a[0] < b[0] else a[0] == b[0]
  {
    if k > 0 {
      assert a[0] == a[..k][0] && b[0] == b[..k][0];
    }
  }

  predicate Ascend(a: Text, b: Text) {
    exists k :: 0 <= k <= |a| && SmallerAt(a, b, k)
  }

  /** The names of every object, at every level, ascend. */
  predicate NamesAscend(v: Value)
    decreases v
  {
    match v
    case Array(items) => forall i | 0 <= i < |items| :: NamesAscend(items[i])
    case Object(members) =>
      && (forall i, j | 0 <= i < j < |members| :: Ascend(members[i].key, members[j].key))
      && (forall i | 0 <= i < |members| :: NamesAscend(members[i].value))
    case _ => true
  }

  /** The value that is printed has its names ascending at every level. */
  lemma {:induction false} OrderedAscends(v: Value)
    requires Interoperable(v)
    ensures NamesAscend(Ordered(v))
    decreases v
  {
    match v
    case Array(items) =>
      forall i | 0 <= i < |items|
        ensures NamesAscend(OrderedItems(items)[i])
      {
        OrderedItemAt(items, i);
        OrderedAscends(items[i]);
      }
    case Object(members) =>
      var sorted := Sorted(members);
      var ordered := OrderedMembers(sorted);
      SortedIsInOrder(members);
      KeysKeepOrder(sorted);
      forall i, j | 0 <= i < j < |ordered|
        ensures Ascend(ordered[i].key, ordered[j].key)
      {
        BeforeExactly(ordered[i].key, ordered[j].key);
      }
      forall i | 0 <= i < |ordered|
        ensures NamesAscend(ordered[i].value)
      {
        OrderedMemberAt(sorted, i);
        InBoth(sorted, members, sorted[i]);
        var k := Position(members, sorted[i]);
        OrderedAscends(members[k].value);
      }
    case _ =>
  }

  // ---------------------------------------------------------------------
  // Characters
  // ---------------------------------------------------------------------

  predicate LowerHex(u: Unit) {
    exists d :: 0 <= d < 16 && u == LOWER[d] as int
  }

  lemma HexUnitIsLower(v: nat)
    requires v < 16
    ensures LowerHex(HexUnit(v))
  {
    assert HexUnit(v) == LOWER[v] as int;
  }

  lemma HexIsLower(u: Unit)
    ensures |HexOf(u).digits| == 4 && forall k | 0 <= k < 4 :: LowerHex(HexOf(u).digits[k])
  {
    var a := u / 16;
    var b := a / 16;
    HexUnitIsLower(b / 16);
    HexUnitIsLower(b % 16);
    HexUnitIsLower(a % 16);
    HexUnitIsLower(u % 16);
  }

  /** A unit prints as itself, as a letter after a backslash (never the slash), or, where
      neither can be, as four hexadecimal digits in lower case. */
  lemma CharacterExactly(t: Text, i: nat)
    requires i < |t|
    ensures var u, c := t[i], CharacterAt(t, i);
            && c.Valid() && c.Decoded() == u
            && if u == 0x22 || u == 0x5C || u == 0x08 || u == 0x09 || u == 0x0A || u == 0x0C || u == 0x0D then
                 c.Escape? && StandsFor(c.letter, u)
               else if u < 0x20 || !PairedAt(t, i) then
                 c.Hex? && |c.digits| == 4 && forall k | 0 <= k < 4 :: LowerHex(c.digits[k])
               else c == Raw(u)
  {
    var u, c := t[i], CharacterAt(t, i);
    if c.Escape? {
      EscapesExactly(c.letter, u);
    }
    HexIsLower(u);
  }

  /** No character that may stand for the unit is shorter. */
  lemma CharacterIsShortest(t: Text, i: nat, c: Character)
    requires i < |t| && c.Valid() && c.Decoded() == t[i] && PairedAt(t, i)
    ensures |CharacterAt(t, i).Written()| <= |c.Written()|
  {
  }

  lemma {:induction false} StringIsShortest(t: Text, i: nat, chars: seq<Character>)
    requires i <= |t| && AllValid(chars) && DecodedAll(chars) == t[i..] && forall k | 0 <= k < |t| :: PairedAt(t, k)
    ensures |WrittenTail(CharactersFrom(t, i))| <= |WrittenTail(chars)|
    decreases |chars|
  {
    if |chars| > 0 {
      assert t[i..][1..] == t[i + 1..] && DecodedAll(chars)[1..] == DecodedAll(chars[1..]);
      StringIsShortest(t, i + 1, chars[1..]);
      CharacterIsShortest(t, i, chars[0]);
      assert CharactersFrom(t, i)[1..] == CharactersFrom(t, i + 1);
    }
  }

  // ---------------------------------------------------------------------
  // Whole texts
  // ---------------------------------------------------------------------

  /** No derivation of the value has a shorter text than the plain one. */
  lemma {:induction false} PlainIsShortest(t: Tree)
    requires Valid(t) && Interoperable(Denoted(t))
    ensures |Written(PlainTree(Denoted(t)))| <= |Written(t)|
    decreases t
  {
    match t
    case StringTree(chars) =>
      PairedExactly(DecodedAll(chars));
      StringIsShortest(DecodedAll(chars), 0, chars);
    case ArrayTree(_, elements) => PlainElementsAreShortest(elements);
    case ObjectTree(_, entries) => PlainEntriesAreShortest(entries);
    case _ =>
  }

  lemma {:induction false} PlainElementsAreShortest(e: Elements)
    requires ValidElements(e)
    requires forall i | 0 <= i < |DenotedElements(e)| :: Interoperable(DenotedElements(e)[i])
    ensures |WrittenElements(PlainElements(DenotedElements(e)))| <= |WrittenElements(e)|
    decreases e
  {
    if e.Element? {
      var items := DenotedElements(e);
      assert items[0] == Denoted(e.value) && items[1..] == DenotedElements(e.rest);
      PlainIsShortest(e.value);
      PlainElementsAreShortest(e.rest);
    }
  }

  lemma {:induction false} PlainEntriesAreShortest(e: Entries)
    requires ValidEntries(e)
    requires forall i | 0 <= i < |DenotedEntries(e)| ::
               Paired(DenotedEntries(e)[i].key) && Interoperable(DenotedEntries(e)[i].value)
    ensures |WrittenEntries(PlainEntries(DenotedEntries(e)))| <= |WrittenEntries(e)|
    decreases e
  {
    if e.Entry? {
      var members := DenotedEntries(e);
      assert members[0] == Member(DecodedAll(e.key), Denoted(e.value)) && members[1..] == DenotedEntries(e.rest);
      PlainIsShortest(e.value);
      PlainEntriesAreShortest(e.rest);
      PairedExactly(DecodedAll(e.key));
      StringIsShortest(DecodedAll(e.key), 0, e.key);
    }
  }

  /** The canonical print is a shortest text of its value: no JSON text that denotes the
      ordered value has fewer units. */
  lemma PrintIsShortest(v: Value, source: Text)
    requires Interoperable(v) && Denotes(source, Ordered(v))
    ensures |Print(v)| <= |source|
  {
    var lead: Text, t: Tree, trail: Text :|
      AllBlank(lead) && AllBlank(trail) && Valid(t) && source == lead + (Written(t) + trail)
        && Denoted(t) == Ordered(v);
    InteroperableIsLexical(v);
    OrderedKeepsMeaning(v);
    PrintIsWritten(v);
    PlainIsShortest(t);
  }
}
