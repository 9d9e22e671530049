/** Which error a JSON text meets: the first fault of its value in reading order, and what
    causes each kind of error. */
module JsonRefusal {
  import opened Standard
  import opened JsonLexical
  import opened JsonGrammar
  import opened StrictJson
  import opened JsonCompleteness

  // ---------------------------------------------------------------------
  // The first fault of a value
  // ---------------------------------------------------------------------

  /** A value at this depth, with this many counted before it: too deep or one too many, a
      text with unpaired surrogates, a number that is not finite, or a name used twice,
      whichever comes first. */
  function Fault(v: Value, limits: Limits, depth: nat, nodes: nat): Option<Error>
    decreases v
  {
    if depth > limits.maxDepth || nodes >= limits.maxNodes then Some(TooComplex)
    else match v
      case Number(lexeme) => if lexeme.Valid() && Finite(lexeme) then None else Some(InvalidIJson)
      case String(text) => if Paired(text) then None else Some(InvalidIJson)
      case Array(items) => FaultOfItems(items, limits, depth, nodes + 1)
      case Object(members) => FaultOfMembers(members, limits, depth, nodes + 1, {})
      case _ => None
  }

  function FaultOfItems(items: seq<Value>, limits: Limits, depth: nat, nodes: nat): Option<Error>
    decreases items
  {
    if |items| == 0 then None
    else match Fault(items[0], limits, depth + 1, nodes)
      case Some(error) => Some(error)
      case None => FaultOfItems(items[1..], limits, depth, nodes + Nodes(items[0]))
  }

  function FaultOfMembers(members: seq<Member>, limits: Limits, depth: nat, nodes: nat, seen: set<Text>): Option<Error>
    decreases members
  {
    if |members| == 0 then None
    else if !Paired(members[0].key) then Some(InvalidIJson)
    else if members[0].key in seen then Some(InvalidJson)
    else match Fault(members[0].value, limits, depth + 1, nodes)
      case Some(error) => Some(error)
      case None => FaultOfMembers(members[1..], limits, depth, nodes + Nodes(members[0].value), seen + {members[0].key})
  }

  /** A value has no fault exactly when it fits. */
  lemma {:induction false} FaultlessFits(v: Value, limits: Limits, depth: nat, nodes: nat)
    ensures Fault(v, limits, depth, nodes).None? <==> Fits(v, limits, depth, nodes)
    decreases v
  {
    Positive(v);
    if depth <= limits.maxDepth && nodes < limits.maxNodes {
      match v
      case Array(items) =>
        ArrayFits(items, limits, depth, nodes);
        FaultlessItems(items, limits, depth, nodes + 1);
      case Object(members) =>
        ObjectFits(members, limits, depth, nodes);
        FaultlessMembers(members, limits, depth, nodes + 1, {});
      case _ =>
    }
  }

  lemma {:induction false} FaultlessItems(items: seq<Value>, limits: Limits, depth: nat, nodes: nat)
    requires depth <= limits.maxDepth && nodes <= limits.maxNodes
    ensures FaultOfItems(items, limits, depth, nodes).None? <==> ItemsFit(items, limits, depth, nodes)
    decreases items
  {
    if |items| > 0 {
      FaultlessFits(items[0], limits, depth + 1, nodes);
      ItemsFitTogether(items[0], items[1..], limits, depth, nodes);
      assert items == [items[0]] + items[1..];
      if Fits(items[0], limits, depth + 1, nodes) {
        FaultlessItems(items[1..], limits, depth, nodes + Nodes(items[0]));
      }
    }
  }

  lemma {:induction false} FaultlessMembers(members: seq<Member>, limits: Limits, depth: nat, nodes: nat,
                                            seen: set<Text>)
    requires depth <= limits.maxDepth && nodes <= limits.maxNodes
    ensures FaultOfMembers(members, limits, depth, nodes, seen).None? <==>
            MembersFit(members, limits, depth, nodes, seen)
    decreases members
  {
    if |members| > 0 {
      var first, more := members[0], members[1..];
      FaultlessFits(first.value, limits, depth + 1, nodes);
      MembersFitTogether(first, more, limits, depth, nodes, seen);
      assert members == [first] + more;
      if Readable(first, limits, depth, nodes, seen) {
        FaultlessMembers(more, limits, depth, nodes + Nodes(first.value), seen + {first.key});
      }
    }
  }

  // ---------------------------------------------------------------------
  // The parser meets exactly that fault
  // ---------------------------------------------------------------------

  lemma ScalarRefused(t: Tree, rest: Text, nodes: nat)
    requires Valid(t) && (t.StringTree? || t.NumberTree?) && EndsNumber(rest) && !Interoperable(Denoted(t))
    ensures |Written(t) + rest| > 0 && ParseScalar(Written(t) + rest, nodes) == Err(InvalidIJson)
  {
    var s := Written(t) + rest;
    match t
    case StringTree(chars) =>
      assert s == [QUOTE] + (WrittenTail(chars) + rest);
      assert s[1..] == WrittenTail(chars) + rest;
      ScanOver(chars, rest);
    case NumberTree(parts) =>
      NumberBegins(parts, rest);
      NumberReadBack(parts, rest);
      NumberToken(s, nodes);
    case _ =>
  }

  /** The text of a derivation is refused with the first fault of what it denotes. */
  lemma {:induction false} ValueRefused(t: Tree, rest: Text, limits: Limits, depth: nat, nodes: nat)
    requires Valid(t) && EndsNumber(rest) && Fault(Denoted(t), limits, depth, nodes).Some?
    ensures ParseValue(Written(t) + rest, limits, depth, nodes) == Err(Fault(Denoted(t), limits, depth, nodes).value)
    decreases t
  {
    Begins(t);
    var s := Written(t) + rest;
    assert s[0] == Written(t)[0];
    if depth <= limits.maxDepth && nodes < limits.maxNodes {
      if t.ArrayTree? {
        ArrayRefused(t, rest, limits, depth, nodes);
        assert ParseValue(s, limits, depth, nodes) == ParseArray(s, limits, depth, nodes + 1);
      } else if t.ObjectTree? {
        ObjectRefused(t, rest, limits, depth, nodes);
        assert ParseValue(s, limits, depth, nodes) == ParseObject(s, limits, depth, nodes + 1);
      } else if t.StringTree? || t.NumberTree? {
        ScalarRefused(t, rest, nodes + 1);
        assert ParseValue(s, limits, depth, nodes) == ParseScalar(s, nodes + 1);
      }
    }
  }

  lemma {:induction false} ArrayRefused(t: Tree, rest: Text, limits: Limits, depth: nat, nodes: nat)
    requires t.ArrayTree? && Valid(t) && depth <= limits.maxDepth && nodes < limits.maxNodes
    requires Fault(Denoted(t), limits, depth, nodes).Some?
    ensures |Written(t) + rest| > 0
    ensures ParseArray(Written(t) + rest, limits, depth, nodes + 1) ==
            Err(Fault(Denoted(t), limits, depth, nodes).value)
    decreases t, 0
  {
    var e := t.elements;
    var inside := WrittenElements(e) + rest;
    ArrayText(t.lead, e, rest);
    ElementsBegin(e, rest);
    ArrayStep(Written(t) + rest, t.lead, inside, limits, depth, nodes + 1);
    assert Fault(Denoted(t), limits, depth, nodes) == FaultOfItems(DenotedElements(e), limits, depth, nodes + 1);
    ItemsRefused(e, rest, limits, depth, nodes + 1);
  }

  lemma ItemsFirst(s: Text, limits: Limits, depth: nat, nodes: nat)
    requires |s| > 0 && ParseValue(s, limits, depth + 1, nodes).Err?
    ensures ParseItems(s, limits, depth, nodes) == Err(ParseValue(s, limits, depth + 1, nodes).error)
  {
  }

  lemma ItemsGoOn(s: Text, item: Read<Value>, next: Text, rest: Text, error: Error, limits: Limits, depth: nat,
                  nodes: nat)
    requires |s| > 0 && ParseValue(s, limits, depth + 1, nodes) == Ok(item)
    requires Delimits(item.rest, false, CLOSE_BRACKET, next, rest)
    requires ParseItems(next + rest, limits, depth, item.nodes) == Err(error)
    ensures ParseItems(s, limits, depth, nodes) == Err(error)
  {
  }

  /** What stands after the first element's value. */
  function After(e: Elements, rest: Text): Text
    requires e.Element?
  {
    Following(e.after, e.rest.NoElements?, CLOSE_BRACKET, e.comma, WrittenElements(e.rest)) + rest
  }

  lemma ElementReads(e: Elements, rest: Text)
    requires e.Element? && ValidElements(e)
    ensures WrittenElements(e) + rest == Written(e.value) + After(e, rest) && |Written(e.value)| > 0
    ensures Delimits(After(e, rest), e.rest.NoElements?, CLOSE_BRACKET, WrittenElements(e.rest), rest)
  {
    ElementText(e, rest);
    Begins(e.value);
    ElementsBegin(e.rest, []);
    assert WrittenElements(e.rest) + [] == WrittenElements(e.rest);
    FollowingDelimits(e.after, e.rest.NoElements?, CLOSE_BRACKET, e.comma, WrittenElements(e.rest), rest);
  }

  lemma {:induction false} ItemsRefused(e: Elements, rest: Text, limits: Limits, depth: nat, nodes: nat)
    requires ValidElements(e) && FaultOfItems(DenotedElements(e), limits, depth, nodes).Some?
    ensures ParseItems(WrittenElements(e) + rest, limits, depth, nodes) ==
            Err(FaultOfItems(DenotedElements(e), limits, depth, nodes).value)
    decreases e
  {
    var s, v := WrittenElements(e) + rest, Denoted(e.value);
    var items := DenotedElements(e);
    assert items[0] == v && items[1..] == DenotedElements(e.rest);
    ElementReads(e, rest);
    if Fault(v, limits, depth + 1, nodes).Some? {
      ValueRefused(e.value, After(e, rest), limits, depth + 1, nodes);
      ItemsFirst(s, limits, depth, nodes);
    } else {
      FaultlessFits(v, limits, depth + 1, nodes);
      ValueComplete(e.value, After(e, rest), limits, depth + 1, nodes);
      ItemsRefused(e.rest, rest, limits, depth, nodes + Nodes(v));
      ItemsGoOn(s, Read(v, After(e, rest), nodes + Nodes(v)), WrittenElements(e.rest), rest,
                FaultOfItems(items, limits, depth, nodes).value, limits, depth, nodes);
    }
  }

  lemma {:induction false} ObjectRefused(t: Tree, rest: Text, limits: Limits, depth: nat, nodes: nat)
    requires t.ObjectTree? && Valid(t) && depth <= limits.maxDepth && nodes < limits.maxNodes
    requires Fault(Denoted(t), limits, depth, nodes).Some?
    ensures |Written(t) + rest| > 0
    ensures ParseObject(Written(t) + rest, limits, depth, nodes + 1) ==
            Err(Fault(Denoted(t), limits, depth, nodes).value)
    decreases t, 0
  {
    var e := t.entries;
    var inside := WrittenEntries(e) + rest;
    ObjectText(t.lead, e, rest);
    EntriesBegin(e, rest);
    ObjectStep(Written(t) + rest, t.lead, inside, limits, depth, nodes + 1);
    assert Fault(Denoted(t), limits, depth, nodes) == FaultOfMembers(DenotedEntries(e), limits, depth, nodes + 1, {});
    MembersRefused(e, rest, limits, depth, nodes + 1, {});
  }

  /** A name that is not well formed, or is used already, is refused before its value. */
  lemma NameRefused(e: Entries, rest: Text, limits: Limits, depth: nat, nodes: nat, seen: set<Text>)
    requires e.Entry? && ValidEntries(e)
    ensures !Paired(FirstMember(e).key) ==>
              ParseMembers(WrittenEntries(e) + rest, limits, depth, nodes, seen) == Err(InvalidIJson)
    ensures Paired(FirstMember(e).key) && FirstMember(e).key in seen ==>
              ParseMembers(WrittenEntries(e) + rest, limits, depth, nodes, seen) == Err(InvalidJson)
  {
    var s := WrittenEntries(e) + rest;
    EntryReads(e, rest);
    EntryText(e, rest);
    var tail := e.before + ([COLON] + (e.gap + (Written(e.value) + Follows(e, rest))));
    assert s == [QUOTE] + (WrittenTail(e.key) + tail);
    assert s[1..] == WrittenTail(e.key) + tail;
    ScanOver(e.key, tail);
  }

  lemma MembersFirst(s: Text, key: Text, u: Text, error: Error, limits: Limits, depth: nat, nodes: nat, seen: set<Text>)
    requires NameReads(s, key, u) && Paired(key) && key !in seen
    requires ParseValue(u, limits, depth + 1, nodes) == Err(error)
    ensures ParseMembers(s, limits, depth, nodes, seen) == Err(error)
  {
  }

  lemma MembersGoOn(e: Entries, rest: Text, error: Error, limits: Limits, depth: nat, nodes: nat, seen: set<Text>,
                    after: nat, known: set<Text>)
    requires e.Entry? && ValidEntries(e) && e.rest.Entry? && Readable(FirstMember(e), limits, depth, nodes, seen)
    requires after == nodes + Nodes(FirstMember(e).value) && known == seen + {FirstMember(e).key}
    requires ParseMembers(WrittenEntries(e.rest) + rest, limits, depth, after, known) == Err(error)
    ensures ParseMembers(WrittenEntries(e) + rest, limits, depth, nodes, seen) == Err(error)
  {
    FirstThenRest(e, rest, limits, depth, nodes, seen);
  }

  lemma ValueOfMemberRefused(e: Entries, rest: Text, limits: Limits, depth: nat, nodes: nat, seen: set<Text>)
    requires e.Entry? && ValidEntries(e) && Paired(FirstMember(e).key) && FirstMember(e).key !in seen
    requires Fault(FirstMember(e).value, limits, depth + 1, nodes).Some?
    ensures ParseMembers(WrittenEntries(e) + rest, limits, depth, nodes, seen) ==
            Err(Fault(FirstMember(e).value, limits, depth + 1, nodes).value)
    decreases e, 0
  {
    EntryReads(e, rest);
    ValueRefused(e.value, Follows(e, rest), limits, depth + 1, nodes);
    MembersFirst(WrittenEntries(e) + rest, FirstMember(e).key, Written(e.value) + Follows(e, rest),
                 Fault(FirstMember(e).value, limits, depth + 1, nodes).value, limits, depth, nodes, seen);
  }

  lemma ReadableFirst(first: Member, limits: Limits, depth: nat, nodes: nat, seen: set<Text>)
    requires Paired(first.key) && first.key !in seen && Fault(first.value, limits, depth + 1, nodes).None?
    ensures Readable(first, limits, depth, nodes, seen)
  {
    FaultlessFits(first.value, limits, depth + 1, nodes);
  }

  /** How the first fault of some members is found. */
  lemma FaultUnfolds(members: seq<Member>, limits: Limits, depth: nat, nodes: nat, seen: set<Text>)
    requires |members| > 0
    ensures var first, rest := members[0], members[1..];
            FaultOfMembers(members, limits, depth, nodes, seen) ==
            if !Paired(first.key) then Some(InvalidIJson)
            else if first.key in seen then Some(InvalidJson)
            else if Fault(first.value, limits, depth + 1, nodes).Some? then Fault(first.value, limits, depth + 1, nodes)
            else FaultOfMembers(rest, limits, depth, nodes + Nodes(first.value), seen + {first.key})
  {
  }

  lemma {:induction false} MembersRefused(e: Entries, rest: Text, limits: Limits, depth: nat, nodes: nat,
                                          seen: set<Text>)
    requires ValidEntries(e) && FaultOfMembers(DenotedEntries(e), limits, depth, nodes, seen).Some?
    ensures ParseMembers(WrittenEntries(e) + rest, limits, depth, nodes, seen) ==
            Err(FaultOfMembers(DenotedEntries(e), limits, depth, nodes, seen).value)
    decreases e, 1
  {
    var first, members := FirstMember(e), DenotedEntries(e);
    EntryDenoted(e);
    assert members[0] == first && members[1..] == DenotedEntries(e.rest);
    FaultUnfolds(members, limits, depth, nodes, seen);
    if !Paired(first.key) || first.key in seen {
      NameRefused(e, rest, limits, depth, nodes, seen);
    } else if Fault(first.value, limits, depth + 1, nodes).Some? {
      ValueOfMemberRefused(e, rest, limits, depth, nodes, seen);
    } else {
      ReadableFirst(first, limits, depth, nodes, seen);
      RestRefused(e, rest, limits, depth, nodes, seen, nodes + Nodes(first.value), seen + {first.key});
    }
  }

  lemma RestRefused(e: Entries, rest: Text, limits: Limits, depth: nat, nodes: nat, seen: set<Text>,
                    after: nat, known: set<Text>)
    requires e.Entry? && ValidEntries(e) && Readable(FirstMember(e), limits, depth, nodes, seen)
    requires after == nodes + Nodes(FirstMember(e).value) && known == seen + {FirstMember(e).key}
    requires FaultOfMembers(DenotedEntries(e.rest), limits, depth, after, known).Some?
    ensures ParseMembers(WrittenEntries(e) + rest, limits, depth, nodes, seen) ==
            Err(FaultOfMembers(DenotedEntries(e.rest), limits, depth, after, known).value)
    decreases e, 0
  {
    MembersRefused(e.rest, rest, limits, depth, after, known);
    var fault := FaultOfMembers(DenotedEntries(e.rest), limits, depth, after, known);
    MembersGoOn(e, rest, fault.value, limits, depth, nodes, seen, after, known);
  }

  /** A JSON text gives its value, or the first fault of that value. */
  lemma OutcomeExactly(source: Text, limits: Limits, v: Value)
    requires 1 <= limits.maxDepth <= MAX_SAFE && 1 <= limits.maxNodes <= MAX_SAFE && Denotes(source, v)
    ensures Parse(source, limits.maxDepth, limits.maxNodes) ==
            match Fault(v, limits, 1, 0) case None => Ok(v) case Some(error) => Err(error)
  {
    FaultlessFits(v, limits, 1, 0);
    if Fault(v, limits, 1, 0).None? {
      AcceptedExactly(source, limits, v);
    } else {
      var lead: Text, t: Tree, trail: Text :|
        AllBlank(lead) && AllBlank(trail) && Valid(t) && source == lead + (Written(t) + trail) && Denoted(t) == v;
      Begins(t);
      assert (Written(t) + trail)[0] == Written(t)[0];
      SkipOver(lead, Written(t) + trail);
      ValueRefused(t, trail, limits, 1, 0);
    }
  }

  // ---------------------------------------------------------------------
  // Causes
  // ---------------------------------------------------------------------

  /** Every text pairs its surrogates and every number is finite. */
  predicate WellFormedTexts(v: Value)
    decreases v
  {
    match v
    case Number(lexeme) => lexeme.Valid() && Finite(lexeme)
    case String(text) => Paired(text)
    case Array(items) => forall i | 0 <= i < |items| :: WellFormedTexts(items[i])
    case Object(members) => forall i | 0 <= i < |members| ::
      Paired(members[i].key) && WellFormedTexts(members[i].value)
    case _ => true
  }

  /** No object uses a name twice. */
  predicate NamesDistinct(v: Value)
    decreases v
  {
    match v
    case Array(items) => forall i | 0 <= i < |items| :: NamesDistinct(items[i])
    case Object(members) =>
      && (forall i, j | 0 <= i < j < |members| :: members[i].key != members[j].key)
      && (forall i | 0 <= i < |members| :: NamesDistinct(members[i].value))
    case _ => true
  }

  /** Each fault has its own cause, and there is no other error. */
  predicate Causes(error: Error, deepOrMany: bool, illFormed: bool, repeated: bool) {
    match error
    case TooComplex => deepOrMany
    case InvalidIJson => illFormed
    case InvalidJson => repeated
    case OutOfRange => false
  }

  predicate WellFormedItems(items: seq<Value>) {
    forall i | 0 <= i < |items| :: WellFormedTexts(items[i])
  }

  predicate WellFormedMembers(members: seq<Member>) {
    forall i | 0 <= i < |members| :: Paired(members[i].key) && WellFormedTexts(members[i].value)
  }

  predicate ItemsDistinct(items: seq<Value>) {
    forall i | 0 <= i < |items| :: NamesDistinct(items[i])
  }

  /** A name used before, or twice among these, or twice inside one of their values. */
  predicate Repeats(members: seq<Member>, seen: set<Text>) {
    || (exists i :: 0 <= i < |members| && members[i].key in seen)
    || (exists i, j :: 0 <= i < j < |members| && members[i].key == members[j].key)
    || (exists i :: 0 <= i < |members| && !NamesDistinct(members[i].value))
  }

  predicate CausedBy(fault: Option<Error>, deepOrMany: bool, illFormed: bool, repeated: bool) {
    fault.Some? ==> Causes(fault.value, deepOrMany, illFormed, repeated)
  }

  lemma {:induction false} FaultHasCause(v: Value, limits: Limits, depth: nat, nodes: nat)
    ensures CausedBy(Fault(v, limits, depth, nodes),
                     depth + Depth(v) > limits.maxDepth + 1 || nodes + Nodes(v) > limits.maxNodes,
                     !WellFormedTexts(v), !NamesDistinct(v))
    decreases v
  {
    Positive(v);
    if depth <= limits.maxDepth && nodes < limits.maxNodes {
      match v
      case Array(items) =>
        ItemsHaveCause(items, limits, depth, nodes + 1);
        assert WellFormedTexts(v) == WellFormedItems(items) && NamesDistinct(v) == ItemsDistinct(items);
      case Object(members) =>
        MembersHaveCause(members, limits, depth, nodes + 1, {});
        assert WellFormedTexts(v) == WellFormedMembers(members) && NamesDistinct(v) == !Repeats(members, {});
      case _ =>
    }
  }

  lemma ItemsInTwo(items: seq<Value>)
    requires |items| > 0
    ensures WellFormedItems(items) ==> WellFormedTexts(items[0]) && WellFormedItems(items[1..])
    ensures ItemsDistinct(items) ==> NamesDistinct(items[0]) && ItemsDistinct(items[1..])
    ensures DepthOfItems(items) >= Depth(items[0]) && DepthOfItems(items) >= DepthOfItems(items[1..])
    ensures NodesOfItems(items) == Nodes(items[0]) + NodesOfItems(items[1..])
  {
  }

  lemma {:induction false} ItemsHaveCause(items: seq<Value>, limits: Limits, depth: nat, nodes: nat)
    ensures CausedBy(FaultOfItems(items, limits, depth, nodes),
                     depth + DepthOfItems(items) > limits.maxDepth || nodes + NodesOfItems(items) > limits.maxNodes,
                     !WellFormedItems(items), !ItemsDistinct(items))
    decreases items
  {
    if |items| > 0 {
      ItemsInTwo(items);
      FaultHasCause(items[0], limits, depth + 1, nodes);
      ItemsHaveCause(items[1..], limits, depth, nodes + Nodes(items[0]));
    }
  }

  lemma MembersInTwo(members: seq<Member>, seen: set<Text>)
    requires |members| > 0
    ensures WellFormedMembers(members) ==>
              Paired(members[0].key) && WellFormedTexts(members[0].value) && WellFormedMembers(members[1..])
    ensures members[0].key in seen || !NamesDistinct(members[0].value) ==> Repeats(members, seen)
    ensures Repeats(members[1..], seen + {members[0].key}) ==> Repeats(members, seen)
    ensures DepthOfMembers(members) >= Depth(members[0].value)
    ensures DepthOfMembers(members) >= DepthOfMembers(members[1..])
    ensures NodesOfMembers(members) == Nodes(members[0].value) + NodesOfMembers(members[1..])
  {
    if Repeats(members[1..], seen + {members[0].key}) {
      RepeatsLater(members, seen);
    }
  }

  lemma RepeatsLater(members: seq<Member>, seen: set<Text>)
    requires |members| > 0 && Repeats(members[1..], seen + {members[0].key})
    ensures Repeats(members, seen)
  {
    var more := members[1..];
    assert forall i | 0 <= i < |more| :: more[i] == members[i + 1];
    if i :| 0 <= i < |more| && more[i].key in seen + {members[0].key} {
      assert members[i + 1].key in seen || members[0].key == members[i + 1].key;
    } else if i, j :| 0 <= i < j < |more| && more[i].key == more[j].key {
      assert members[i + 1].key == members[j + 1].key;
    } else {
      var i :| 0 <= i < |more| && !NamesDistinct(more[i].value);
      assert !NamesDistinct(members[i + 1].value);
    }
  }

  lemma {:induction false} MembersHaveCause(members: seq<Member>, limits: Limits, depth: nat, nodes: nat,
                                            seen: set<Text>)
    ensures CausedBy(FaultOfMembers(members, limits, depth, nodes, seen),
                     depth + DepthOfMembers(members) > limits.maxDepth
                     || nodes + NodesOfMembers(members) > limits.maxNodes,
                     !WellFormedMembers(members), Repeats(members, seen))
    decreases members
  {
    if |members| > 0 {
      MembersInTwo(members, seen);
      FaultUnfolds(members, limits, depth, nodes, seen);
      FaultHasCause(members[0].value, limits, depth + 1, nodes);
      MembersHaveCause(members[1..], limits, depth, nodes + Nodes(members[0].value), seen + {members[0].key});
    }
  }

  /** A JSON text is refused as too complex only if its value exceeds a limit, as not
      interoperable only for an ill-formed text or an infinite number, and as invalid only
      for a name used twice; and the limits themselves are refused exactly out of range. */
  lemma RefusedForCause(source: Text, maxDepth: int, maxNodes: int, v: Value)
    requires Denotes(source, v)
    ensures Parse(source, maxDepth, maxNodes) == Err(OutOfRange) <==>
            !(1 <= maxDepth <= MAX_SAFE && 1 <= maxNodes <= MAX_SAFE)
    ensures Parse(source, maxDepth, maxNodes) == Err(TooComplex) ==> Depth(v) > maxDepth || Nodes(v) > maxNodes
    ensures Parse(source, maxDepth, maxNodes) == Err(InvalidIJson) ==> !WellFormedTexts(v)
    ensures Parse(source, maxDepth, maxNodes) == Err(InvalidJson) ==> !NamesDistinct(v)
  {
    if 1 <= maxDepth <= MAX_SAFE && 1 <= maxNodes <= MAX_SAFE {
      var limits := JsonGrammar.Limits(maxDepth, maxNodes);
      OutcomeExactly(source, limits, v);
      FaultHasCause(v, limits, 1, 0);
    }
  }
}
