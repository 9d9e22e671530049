/** Which error a text meets that is no JSON text at all: it is called invalid, unless it
    holds an ill-formed token or is as long as a limit. */
module JsonMalformed {
  import opened JsonLexical
  import opened JsonGrammar
  import opened StrictJson
  import opened JsonSoundness
  import opened JsonCompleteness

  // ---------------------------------------------------------------------
  // Ill-formed tokens
  // ---------------------------------------------------------------------

  /** The text begins with a string whose surrogates are unpaired, or an infinite number. */
  predicate IllToken(s: Text) {
    |s| > 0 &&
    if s[0] == QUOTE then ScanString(s[1..]).Some? && !Paired(DecodedAll(ScanString(s[1..]).value.chars))
    else ReadNumber(s).Some? && !Finite(ReadNumber(s).value.parts)
  }

  predicate HasIllToken(s: Text) {
    exists i :: 0 <= i <= |s| && IllToken(s[i..])
  }

  predicate Ends(s: Text, t: Text) {
    |t| <= |s| && s[|s| - |t|..] == t
  }

  lemma EndsInTurn(s: Text, t: Text, u: Text)
    requires Ends(s, t) && Ends(t, u)
    ensures Ends(s, u)
  {
    assert s[|s| - |u|..] == s[|s| - |t|..][|t| - |u|..];
  }

  lemma FoundBefore(s: Text, t: Text)
    requires Ends(s, t) && HasIllToken(t)
    ensures HasIllToken(s)
  {
    var i :| 0 <= i <= |t| && IllToken(t[i..]);
    var k := |s| - |t| + i;
    assert s[|s| - |t|..][i..] == s[k..];
  }

  lemma SkipEnds(s: Text)
    ensures Ends(s, Skip(s))
  {
    var blank := SkipSplits(s);
    assert s[|s| - |Skip(s)|..] == Skip(s);
  }

  lemma AfterEnds(s: Text, first: Text, rest: Text)
    requires s == first + rest
    ensures Ends(s, rest)
  {
  }

  // ---------------------------------------------------------------------
  // A text is at least as long as its values are many
  // ---------------------------------------------------------------------

  lemma {:induction false} NodesBounded(t: Tree)
    requires Valid(t)
    ensures Nodes(Denoted(t)) <= |Written(t)|
    decreases t
  {
    Begins(t);
    match t
    case ArrayTree(_, elements) => ElementNodesBounded(elements);
    case ObjectTree(_, entries) => EntryNodesBounded(entries);
    case _ =>
  }

  lemma {:induction false} ElementNodesBounded(e: Elements)
    requires ValidElements(e)
    ensures NodesOfItems(DenotedElements(e)) < |WrittenElements(e)|
    decreases e
  {
    if e.Element? {
      NodesBounded(e.value);
      ElementNodesBounded(e.rest);
      assert DenotedElements(e)[1..] == DenotedElements(e.rest);
    }
  }

  lemma {:induction false} EntryNodesBounded(e: Entries)
    requires ValidEntries(e)
    ensures NodesOfMembers(DenotedEntries(e)) < |WrittenEntries(e)|
    decreases e
  {
    if e.Entry? {
      NodesBounded(e.value);
      EntryNodesBounded(e.rest);
      assert DenotedEntries(e)[1..] == DenotedEntries(e.rest);
    }
  }

  // ---------------------------------------------------------------------
  // What an error says of the text
  // ---------------------------------------------------------------------

  predicate Blames(error: Error, s: Text, limits: Limits, depth: nat, nodes: nat) {
    match error
    case InvalidIJson => HasIllToken(s)
    case TooComplex => depth + |s| > limits.maxDepth || nodes + |s| >= limits.maxNodes
    case InvalidJson => true
    case OutOfRange => false
  }

  /** An error in a later part of a text, read deeper and with no more values counted than
      units passed, is one of the whole. */
  lemma BlamesBefore(error: Error, s: Text, t: Text, limits: Limits, depth: nat, deeper: nat, nodes: nat, more: nat)
    requires Ends(s, t) && Blames(error, t, limits, deeper, more)
    requires deeper + |t| <= depth + |s| && more + |t| <= nodes + |s|
    ensures Blames(error, s, limits, depth, nodes)
  {
    if error.InvalidIJson? {
      FoundBefore(s, t);
    }
  }

  lemma HereFirst(s: Text)
    ensures IllToken(s) ==> HasIllToken(s)
  {
    assert s[0..] == s;
  }

  lemma NumberBlames(s: Text, nodes: nat)
    requires |s| > 0 && s[0] != QUOTE && ParseNumber(s, nodes).Err?
    ensures var error := ParseNumber(s, nodes).error;
            error.InvalidJson? || (error.InvalidIJson? && HasIllToken(s))
  {
    HereFirst(s);
  }

  lemma ScalarBlames(s: Text, limits: Limits, depth: nat, nodes: nat)
    requires |s| > 0 && ParseScalar(s, nodes).Err?
    ensures Blames(ParseScalar(s, nodes).error, s, limits, depth, nodes)
  {
    if s[0] == QUOTE {
      NameBlames(s);
    } else if s[0] == MINUS || Digit(s[0]) {
      NumeralIsDistinct(s[0]);
      NumberBlames(s, nodes);
    }
  }

  lemma NameBlames(s: Text)
    requires |s| > 0 && s[0] == QUOTE && ReadString(s).Err?
    ensures ReadString(s).error.InvalidJson? || (ReadString(s).error.InvalidIJson? && HasIllToken(s))
  {
    HereFirst(s);
  }

  lemma NameEnds(s: Text)
    requires |s| > 0 && s[0] == QUOTE && ReadString(s).Ok?
    ensures Ends(s, ReadString(s).value.rest) && |ReadString(s).value.rest| < |s|
  {
    var scan := ScanString(s[1..]).value;
    AfterEnds(s[1..], WrittenTail(scan.chars), scan.rest);
    EndsInTurn(s, s[1..], scan.rest);
  }

  /** Where the blanks after the first unit end. */
  lemma SkipAfterFirst(s: Text)
    requires |s| > 0
    ensures Ends(s, Skip(s[1..])) && |Skip(s[1..])| < |s|
  {
    SkipEnds(s[1..]);
    EndsInTurn(s, s[1..], Skip(s[1..]));
  }

  /** A value that was read leaves an end of the text, and counts no more than it passed. */
  lemma ValueLeaves(s: Text, limits: Limits, depth: nat, nodes: nat)
    requires ParseValue(s, limits, depth, nodes).Ok?
    ensures var read := ParseValue(s, limits, depth, nodes).value;
            Ends(s, read.rest) && read.nodes + |read.rest| <= nodes + |s|
  {
    var t := ValueIsDerived(s, limits, depth, nodes);
    NodesBounded(t);
    AfterEnds(s, Written(t), ParseValue(s, limits, depth, nodes).value.rest);
  }

  lemma {:induction false} ValueBlames(s: Text, limits: Limits, depth: nat, nodes: nat)
    requires ParseValue(s, limits, depth, nodes).Err?
    ensures Blames(ParseValue(s, limits, depth, nodes).error, s, limits, depth, nodes)
    decreases |s|, 1
  {
    if depth <= limits.maxDepth && nodes + 1 <= limits.maxNodes && |s| > 0 {
      if s[0] == OPEN_BRACE || s[0] == OPEN_BRACKET {
        BracketBlames(s, limits, depth, nodes);
      } else {
        ScalarBlames(s, limits, depth, nodes + 1);
      }
    }
  }

  /** An error inside brackets comes from what stands behind the opening one. */
  lemma {:induction false} BracketBlames(s: Text, limits: Limits, depth: nat, nodes: nat)
    requires |s| > 0 && (s[0] == OPEN_BRACE || s[0] == OPEN_BRACKET) && ParseValue(s, limits, depth, nodes).Err?
    requires depth <= limits.maxDepth && nodes + 1 <= limits.maxNodes
    ensures Blames(ParseValue(s, limits, depth, nodes).error, s, limits, depth, nodes)
    decreases |s|, 0
  {
    var inside := Skip(s[1..]);
    SkipAfterFirst(s);
    var error := ParseValue(s, limits, depth, nodes).error;
    if s[0] == OPEN_BRACKET {
      assert ParseValue(s, limits, depth, nodes) == ParseArray(s, limits, depth, nodes + 1);
      ItemsBlame(inside, limits, depth, nodes + 1);
    } else {
      assert ParseValue(s, limits, depth, nodes) == ParseObject(s, limits, depth, nodes + 1);
      MembersBlame(inside, limits, depth, nodes + 1, {});
    }
    BlamesBefore(error, s, inside, limits, depth, depth + 1, nodes, nodes + 1);
  }

  lemma {:induction false} ItemsBlame(s: Text, limits: Limits, depth: nat, nodes: nat)
    requires ParseItems(s, limits, depth, nodes).Err?
    ensures Blames(ParseItems(s, limits, depth, nodes).error, s, limits, depth + 1, nodes)
    decreases |s|, 2
  {
    if |s| > 0 {
      if ParseValue(s, limits, depth + 1, nodes).Err? {
        ValueBlames(s, limits, depth + 1, nodes);
      } else {
        var item := ParseValue(s, limits, depth + 1, nodes).value;
        var t := Skip(item.rest);
        ValueLeaves(s, limits, depth + 1, nodes);
        if |t| > 0 && t[0] == COMMA {
          var next := Skip(t[1..]);
          RestEnds(s, item.rest);
          ItemsBlame(next, limits, depth, item.nodes);
          BlamesBefore(ParseItems(next, limits, depth, item.nodes).error, s, next, limits, depth + 1, depth + 1, nodes,
                       item.nodes);
        }
      }
    }
  }

  /** What stands behind the blanks, a delimiter and more blanks. */
  lemma RestEnds(s: Text, rest: Text)
    requires Ends(s, rest) && |Skip(rest)| > 0
    ensures Ends(s, Skip(Skip(rest)[1..])) && |Skip(Skip(rest)[1..])| < |rest|
  {
    SkipEnds(rest);
    SkipAfterFirst(Skip(rest));
    EndsInTurn(s, rest, Skip(rest));
    EndsInTurn(s, Skip(rest), Skip(Skip(rest)[1..]));
  }

  lemma {:induction false} MembersBlame(s: Text, limits: Limits, depth: nat, nodes: nat, seen: set<Text>)
    requires ParseMembers(s, limits, depth, nodes, seen).Err?
    ensures Blames(ParseMembers(s, limits, depth, nodes, seen).error, s, limits, depth + 1, nodes)
    decreases |s|, 2
  {
    if |s| > 0 && s[0] == QUOTE {
      if ReadString(s).Err? {
        NameBlames(s);
      } else {
        var key := ReadString(s).value;
        NameEnds(s);
        if key.value !in seen && |Skip(key.rest)| > 0 && Skip(key.rest)[0] == COLON {
          RestEnds(s, key.rest);
          MemberBlames(s, Skip(Skip(key.rest)[1..]), key.value, limits, depth, nodes, seen);
        }
      }
    }
  }

  lemma {:induction false} MemberBlames(s: Text, u: Text, key: Text, limits: Limits, depth: nat, nodes: nat,
                                        seen: set<Text>)
    requires Ends(s, u) && |u| < |s| && ParseMembers(s, limits, depth, nodes, seen).Err?
    requires |s| > 0 && s[0] == QUOTE && ReadString(s).Ok? && ReadString(s).value.value == key && key !in seen
    requires |Skip(ReadString(s).value.rest)| > 0 && Skip(ReadString(s).value.rest)[0] == COLON
    requires u == Skip(Skip(ReadString(s).value.rest)[1..])
    ensures Blames(ParseMembers(s, limits, depth, nodes, seen).error, s, limits, depth + 1, nodes)
    decreases |s|, 1
  {
    if ParseValue(u, limits, depth + 1, nodes).Err? {
      ValueBlames(u, limits, depth + 1, nodes);
      BlamesBefore(ParseValue(u, limits, depth + 1, nodes).error, s, u, limits, depth + 1, depth + 1, nodes, nodes);
    } else {
      var item := ParseValue(u, limits, depth + 1, nodes).value;
      var t := Skip(item.rest);
      ValueLeaves(u, limits, depth + 1, nodes);
      EndsInTurn(s, u, item.rest);
      if |t| > 0 && t[0] == COMMA {
        var next := Skip(t[1..]);
        RestEnds(s, item.rest);
        MembersBlame(next, limits, depth, item.nodes, seen + {key});
        BlamesBefore(ParseMembers(next, limits, depth, item.nodes, seen + {key}).error, s, next, limits, depth + 1,
                     depth + 1, nodes, item.nodes);
      }
    }
  }

  /** A text that denotes nothing is refused as invalid, unless a limit is no larger than
      its length, or it holds a string with unpaired surrogates or an infinite number. */
  lemma MalformedIsInvalid(source: Text, limits: Limits)
    requires 1 <= limits.maxDepth <= MAX_SAFE && 1 <= limits.maxNodes <= MAX_SAFE
    requires forall v :: !Denotes(source, v)
    ensures Parse(source, limits.maxDepth, limits.maxNodes).Err?
    ensures var error := Parse(source, limits.maxDepth, limits.maxNodes).error;
            && !error.OutOfRange?
            && (error.TooComplex? ==> limits.maxDepth <= |source| || limits.maxNodes <= |source|)
            && (error.InvalidIJson? ==> HasIllToken(source))
  {
    var r := Parse(source, limits.maxDepth, limits.maxNodes);
    if r.Ok? {
      AcceptedExactly(source, limits, r.value);
    } else {
      var s := Skip(source);
      SkipEnds(source);
      if |s| > 0 && ParseValue(s, limits, 1, 0).Err? {
        ValueBlames(s, limits, 1, 0);
        BlamesBefore(r.error, source, s, limits, 1, 1, 0, 0);
      }
    }
  }
}
