/** Two interoperable values print alike exactly when they differ only in the order of
    their members. */
module CanonicalOrder {
  import opened Standard
  import opened JsonLexical
  import opened JsonGrammar
  import opened StrictJson
  import opened JsonCompleteness
  import opened CanonicalJson
  import opened CanonicalRoundTrip

  /** Equal up to the order in which members were inserted, at every level. */
  predicate Same(v: Value, w: Value)
    decreases v
  {
    match v
    case Array(items) => w.Array? && |w.items| == |items| && forall i | 0 <= i < |items| :: Same(items[i], w.items[i])
    case Object(members) =>
      && w.Object? && |w.members| == |members|
      && forall i | 0 <= i < |members| :: SomeSame(members[i], w.members)
    case _ => v == w
  }

  predicate SomeSame(m: Member, members: seq<Member>)
    decreases m
  {
    exists j :: 0 <= j < |members| && members[j].key == m.key && Same(m.value, members[j].value)
  }

  // ---------------------------------------------------------------------
  // Names in order
  // ---------------------------------------------------------------------

  lemma {:induction false} Trichotomy(a: Text, b: Text)
    ensures a == b || Before(a, b) || Before(b, a)
  {
    if |a| > 0 && |b| > 0 && a[0] == b[0] {
      Trichotomy(a[1..], b[1..]);
      assert a == [a[0]] + a[1..] && b == [b[0]] + b[1..];
    }
  }

  lemma {:induction false} Transitive(a: Text, b: Text, c: Text)
    requires Before(a, b) && Before(b, c)
    ensures Before(a, c)
  {
    if |a| > 0 && a[0] == b[0] == c[0] {
      Transitive(a[1..], b[1..], c[1..]);
    }
  }

  predicate InOrder(members: seq<Member>) {
    forall i, j | 0 <= i < j < |members| :: Before(members[i].key, members[j].key)
  }

  lemma {:induction false} InsertKeepsOrder(m: Member, sorted: seq<Member>)
    requires InOrder(sorted) && !HasKey(sorted, m.key)
    ensures InOrder(Insert(m, sorted))
  {
    if |sorted| > 0 && Before(sorted[0].key, m.key) {
      assert forall i | 0 <= i < |sorted[1..]| :: sorted[1..][i] == sorted[i + 1];
      assert !HasKey(sorted[1..], m.key);
      InsertKeepsOrder(m, sorted[1..]);
      InsertedStaysAfter(m, sorted);
    } else if |sorted| > 0 {
      assert sorted[0].key != m.key;
      Trichotomy(m.key, sorted[0].key);
      FirstComesBefore(m, sorted);
    }
  }

  lemma InsertedStaysAfter(m: Member, sorted: seq<Member>)
    requires |sorted| > 0 && InOrder(sorted) && Before(sorted[0].key, m.key)
    ensures forall i | 0 <= i < |Insert(m, sorted[1..])| :: Before(sorted[0].key, Insert(m, sorted[1..])[i].key)
  {
    var tail := Insert(m, sorted[1..]);
    forall i | 0 <= i < |tail|
      ensures Before(sorted[0].key, tail[i].key)
    {
      assert tail[i] in multiset(tail);
      assert tail[i] == m || tail[i] in multiset(sorted[1..]);
      if tail[i] != m {
        assert tail[i] in sorted[1..];
        var j :| 0 <= j < |sorted[1..]| && sorted[1..][j] == tail[i];
        assert sorted[j + 1] == tail[i];
      }
    }
  }

  lemma FirstComesBefore(m: Member, sorted: seq<Member>)
    requires |sorted| > 0 && InOrder(sorted) && Before(m.key, sorted[0].key)
    ensures forall i | 0 <= i < |sorted| :: Before(m.key, sorted[i].key)
  {
    forall i | 0 < i < |sorted|
      ensures Before(m.key, sorted[i].key)
    {
      Transitive(m.key, sorted[0].key, sorted[i].key);
    }
  }

  lemma {:induction false} SortedIsInOrder(members: seq<Member>)
    requires DistinctKeys(members)
    ensures InOrder(Sorted(members))
  {
    if |members| > 0 {
      assert members == [members[0]] + members[1..];
      DistinctCons(members[0], members[1..]);
      SortedIsInOrder(members[1..]);
      SortedKeepsKey(members[1..], members[0].key);
      InsertKeepsOrder(members[0], Sorted(members[1..]));
    }
  }

  // ---------------------------------------------------------------------
  // An ordered list is known by its members
  // ---------------------------------------------------------------------

  /** Where each member of one list stands in the other. */
  predicate Stands(a: seq<Member>, b: seq<Member>, at: seq<nat>) {
    |at| == |a| && forall i | 0 <= i < |a| :: at[i] < |b| && b[at[i]] == a[i]
  }

  lemma PositionsAscend(a: seq<Member>, b: seq<Member>, at: seq<nat>, i: nat, j: nat)
    requires InOrder(a) && InOrder(b) && Stands(a, b, at) && i < j < |a|
    ensures at[i] < at[j]
  {
    if at[i] == at[j] {
      Irreflexive(a[i].key);
    } else if at[j] < at[i] {
      Transitive(a[i].key, a[j].key, a[i].key);
      Irreflexive(a[i].key);
    }
  }

  lemma {:induction false} PositionsAtLeast(a: seq<Member>, b: seq<Member>, at: seq<nat>, i: nat)
    requires InOrder(a) && InOrder(b) && Stands(a, b, at) && i < |a|
    ensures at[i] >= i
  {
    if i > 0 {
      PositionsAtLeast(a, b, at, i - 1);
      PositionsAscend(a, b, at, i - 1, i);
    }
  }

  lemma {:induction false} PositionsAtMost(a: seq<Member>, b: seq<Member>, at: seq<nat>, i: nat)
    requires InOrder(a) && InOrder(b) && Stands(a, b, at) && i < |a| == |b|
    ensures at[i] <= i
    decreases |a| - i
  {
    if i < |a| - 1 {
      PositionsAtMost(a, b, at, i + 1);
      PositionsAscend(a, b, at, i, i + 1);
    }
  }

  lemma OrderedListsAgree(a: seq<Member>, b: seq<Member>)
    requires InOrder(a) && InOrder(b) && |a| == |b| && forall i | 0 <= i < |a| :: a[i] in b
    ensures a == b
  {
    var at: seq<nat> := seq(|a|, i requires 0 <= i < |a| => Position(b, a[i]));
    assert Stands(a, b, at);
    forall i | 0 <= i < |a|
      ensures a[i] == b[i]
    {
      PositionsAtLeast(a, b, at, i);
      PositionsAtMost(a, b, at, i);
    }
  }

  function Position(members: seq<Member>, m: Member): (i: nat)
    requires m in members
    ensures i < |members| && members[i] == m
  {
    if members[0] == m then 0 else Position(members[1..], m) + 1
  }

  // ---------------------------------------------------------------------
  // Alike exactly when the same
  // ---------------------------------------------------------------------

  lemma {:induction false} SameAreOrderedAlike(v: Value, w: Value)
    requires Interoperable(v) && Interoperable(w) && Same(v, w)
    ensures Ordered(v) == Ordered(w)
    decreases v
  {
    match v
    case Array(items) =>
      forall i | 0 <= i < |items|
        ensures OrderedItems(items)[i] == OrderedItems(w.items)[i]
      {
        OrderedItemAt(items, i);
        OrderedItemAt(w.items, i);
        SameAreOrderedAlike(items[i], w.items[i]);
      }
    case Object(members) => SameObjectsAreOrderedAlike(members, w.members, v);
    case _ =>
  }

  lemma KeysKeepOrder(members: seq<Member>)
    requires InOrder(members)
    ensures InOrder(OrderedMembers(members))
  {
    forall i | 0 <= i < |members|
      ensures OrderedMembers(members)[i].key == members[i].key
    {
      OrderedMemberAt(members, i);
    }
  }

  lemma SameObjectsAreOrderedAlike(ms: seq<Member>, ns: seq<Member>, v: Value)
    requires v == Object(ms) && Interoperable(Object(ms)) && Interoperable(Object(ns)) && Same(Object(ms), Object(ns))
    ensures OrderedMembers(Sorted(ms)) == OrderedMembers(Sorted(ns))
    decreases v, 0
  {
    var a, b := OrderedMembers(Sorted(ms)), OrderedMembers(Sorted(ns));
    SortedIsInOrder(ms);
    SortedIsInOrder(ns);
    KeysKeepOrder(Sorted(ms));
    KeysKeepOrder(Sorted(ns));
    forall k | 0 <= k < |a|
      ensures a[k] in b
    {
      OrderedMemberAt(Sorted(ms), k);
      InBoth(Sorted(ms), ms, Sorted(ms)[k]);
      var i := Position(ms, Sorted(ms)[k]);
      assert SomeSame(ms[i], ns);
      var j :| 0 <= j < |ns| && ns[j].key == ms[i].key && Same(ms[i].value, ns[j].value);
      SameAreOrderedAlike(ms[i].value, ns[j].value);
      InBoth(ns, Sorted(ns), ns[j]);
      OrderedMemberAt(Sorted(ns), Position(Sorted(ns), ns[j]));
    }
    OrderedListsAgree(a, b);
  }

  lemma {:induction false} OrderedAlikeAreSame(v: Value, w: Value)
    requires Ordered(v) == Ordered(w)
    ensures Same(v, w)
    decreases v
  {
    match v
    case Array(items) =>
      assert w.Array?;
      forall i | 0 <= i < |items|
        ensures Same(items[i], w.items[i])
      {
        OrderedItemAt(items, i);
        OrderedItemAt(w.items, i);
        OrderedAlikeAreSame(items[i], w.items[i]);
      }
    case Object(members) =>
      assert w.Object?;
      forall i | 0 <= i < |members|
        ensures SomeSame(members[i], w.members)
      {
        InBoth(members, Sorted(members), members[i]);
        var k := Position(Sorted(members), members[i]);
        OrderedMemberAt(Sorted(members), k);
        OrderedMemberAt(Sorted(w.members), k);
        var n := Sorted(w.members)[k];
        OrderedAlikeAreSame(members[i].value, n.value);
        InBoth(Sorted(w.members), w.members, n);
        var j := Position(w.members, n);
        assert w.members[j] == n;
      }
    case _ =>
  }

  lemma InteroperableIsLexical(v: Value)
    requires Interoperable(v)
    ensures Lexical(v)
  {
  }

  lemma PrintDeterminesOrdered(v: Value, w: Value)
    requires Interoperable(v) && Interoperable(w) && Lexical(v) && Lexical(w) && Print(v) == Print(w)
    ensures Ordered(v) == Ordered(w)
  {
    var limits := JsonGrammar.Limits(Max(Depth(v), Depth(w)), Max(Nodes(v), Nodes(w)));
    PrintReads(v, limits);
    PrintReads(w, limits);
  }

  lemma PrintReads(v: Value, limits: Limits)
    requires Interoperable(v) && Lexical(v) && WithinLimits(v, limits)
    ensures ParseValue(Print(v), limits, 1, 0) == Ok(Read(Ordered(v), [], Nodes(v)))
  {
    OrderedKeepsMeaning(v);
    OrderedKeepsSize(v);
    PlainDenotes(Ordered(v));
    PrintIsWritten(v);
    ValueComplete(PlainTree(Ordered(v)), [], limits, 1, 0);
    assert Written(PlainTree(Ordered(v))) + [] == Print(v);
  }

  /** The print does not depend on insertion order, and tells apart everything else. */
  lemma PrintsAlikeExactly(v: Value, w: Value)
    requires Interoperable(v) && Interoperable(w)
    ensures Print(v) == Print(w) <==> Same(v, w)
  {
    InteroperableIsLexical(v);
    InteroperableIsLexical(w);
    if Same(v, w) {
      SameAreOrderedAlike(v, w);
      PrintIsWritten(v);
      PrintIsWritten(w);
    } else if Print(v) == Print(w) {
      PrintDeterminesOrdered(v, w);
      OrderedAlikeAreSame(v, w);
    }
  }
}
