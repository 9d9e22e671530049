/** The parser as the source writes it: one object that walks an index over the source
    text and counts values, proved against the functions on the remaining text. */
module StrictJsonParser {
  import opened Standard
  import opened JsonLexical
  import opened JsonGrammar
  import opened StrictJson

  /** A later outcome with what was already collected in front. */
  function After<T>(done: seq<T>, r: Result<Read<seq<T>>, Error>): Result<Read<seq<T>>, Error> {
    match r
    case Err(error) => Err(error)
    case Ok(read) => Ok(Read(done + read.value, read.rest, read.nodes))
  }

  function AfterCharacters(done: seq<Character>, scan: Option<Scan>): Option<Scan> {
    match scan
    case None => None
    case Some(more) => Some(Scan(done + more.chars, more.rest))
  }

  lemma AfterNothing<T>(r: Result<Read<seq<T>>, Error>, scan: Option<Scan>)
    ensures After([], r) == r && AfterCharacters([], scan) == scan
  {
    assert r.Ok? ==> [] + r.value.value == r.value.value;
    assert scan.Some? ==> [] + scan.value.chars == scan.value.chars;
  }

  lemma Drops(s: Text, prefix: Text, rest: Text)
    requires s == prefix + rest
    ensures |prefix| <= |s| && s[|prefix|..] == rest
  {
  }

  lemma AfterMore<T>(done: seq<T>, next: T, r: Result<Read<seq<T>>, Error>)
    ensures After(done + [next], r) == After(done, After([next], r))
  {
    assert r.Ok? ==> (done + [next]) + r.value.value == done + ([next] + r.value.value);
  }

  /** One round of the element loop, seen from the whole it is a part of. */
  lemma ItemsRound(s: Text, limits: Limits, depth: nat, nodes: nat, item: Read<Value>)
    requires |s| > 0 && ParseValue(s, limits, depth + 1, nodes) == Ok(item)
    ensures var t := Skip(item.rest);
            ParseItems(s, limits, depth, nodes) ==
            if |t| > 0 && t[0] == CLOSE_BRACKET then Ok(Read([item.value], t[1..], item.nodes))
            else if |t| == 0 || t[0] != COMMA then Err(InvalidJson)
            else After([item.value], ParseItems(Skip(t[1..]), limits, depth, item.nodes))
  {
  }

  lemma DelimiterRound(member: Member, item: Read<Value>, limits: Limits, depth: nat, seen: set<Text>)
    ensures var t := Skip(item.rest);
            ParseDelimiter(member, item, limits, depth, seen) ==
            if |t| > 0 && t[0] == CLOSE_BRACE then Ok(Read([member], t[1..], item.nodes))
            else if |t| == 0 || t[0] != COMMA then Err(InvalidJson)
            else After([member], ParseMembers(Skip(t[1..]), limits, depth, item.nodes, seen))
  {
  }

  /** One round of the character loop. */
  lemma CharacterRound(s: Text)
    requires |s| > 0 && s[0] != QUOTE
    ensures ScanString(s) == match NextCharacter(s)
                             case None => None
                             case Some(c) => AfterCharacters([c], ScanString(s[|c.Written()|..]))
  {
  }

  lemma AfterMoreCharacters(done: seq<Character>, next: Character, scan: Option<Scan>)
    ensures AfterCharacters(done + [next], scan) == AfterCharacters(done, AfterCharacters([next], scan))
  {
    assert scan.Some? ==> (done + [next]) + scan.value.chars == done + ([next] + scan.value.chars);
  }

  lemma {:induction false} DecodedSnoc(chars: seq<Character>, c: Character)
    requires AllValid(chars) && c.Valid()
    ensures AllValid(chars + [c]) && DecodedAll(chars + [c]) == DecodedAll(chars) + [c.Decoded()]
  {
    if |chars| > 0 {
      assert (chars + [c])[1..] == chars[1..] + [c];
      DecodedSnoc(chars[1..], c);
    } else {
      assert [c][1..] == [];
    }
  }

  class Parser {
    const source: Text
    const limits: Limits
    var index: nat
    var nodes: nat

    constructor (source: Text, limits: Limits)
      ensures this.source == source && this.limits == limits && index == 0 && nodes == 0
    {
      this.source, this.limits := source, limits;
      index, nodes := 0, 0;
    }

    ghost predicate Valid()
      reads this
    {
      index <= |source|
    }

    ghost function Rest(): Text
      requires Valid()
      reads this
    {
      source[index..]
    }

    method Advance()
      requires Valid() && index < |source|
      modifies this
      ensures Valid() && Rest() == old(Rest())[1..] && nodes == old(nodes) && index == old(index) + 1
    {
      index := index + 1;
    }

    method AdvanceBy(n: nat)
      requires Valid() && index + n <= |source|
      modifies this
      ensures Valid() && Rest() == old(Rest())[n..] && nodes == old(nodes) && index == old(index) + n
    {
      index := index + n;
    }

    method SkipWhitespace()
      requires Valid()
      modifies this
      ensures Valid() && Rest() == Skip(old(Rest())) && nodes == old(nodes) && index >= old(index)
    {
      while index < |source|
        invariant Valid() && Skip(Rest()) == Skip(old(Rest())) && nodes == old(nodes) && index >= old(index)
        decreases |source| - index
      {
        if !Blank(source[index]) {
          return;
        }
        assert Rest()[1..] == source[index + 1..];
        index := index + 1;
      }
    }

    method ConsumeLiteral(literal: Text, value: Value) returns (r: Result<Value, Error>)
      requires Valid() && |literal| > 0
      modifies this
      ensures Valid()
      ensures match ReadLiteral(old(Rest()), literal, value, old(nodes))
              case Err(error) => r == Err(error)
              case Ok(read) => r == Ok(read.value) && Rest() == read.rest && nodes == read.nodes && index > old(index)
    {
      assert index + |literal| <= |source| ==> Rest()[..|literal|] == source[index..index + |literal|];
      if !(index + |literal| <= |source| && source[index..index + |literal|] == literal) {
        return Err(InvalidJson);
      }
      AdvanceBy(|literal|);
      r := Ok(value);
    }

    method ParseNumberHere() returns (r: Result<Value, Error>)
      requires Valid()
      modifies this
      ensures Valid()
      ensures match ParseNumber(old(Rest()), old(nodes))
              case Err(error) => r == Err(error)
              case Ok(read) => r == Ok(read.value) && Rest() == read.rest && nodes == read.nodes && index > old(index)
    {
      var number := ReadNumber(source[index..]);
      if number.None? {
        return Err(InvalidJson);
      }
      Drops(Rest(), number.value.parts.Written(), number.value.rest);
      AdvanceBy(|number.value.parts.Written()|);
      if !Finite(number.value.parts) {
        return Err(InvalidIJson);
      }
      r := Ok(Number(number.value.parts));
    }

    /** Walks one character of a string; None where the source rejects it. */
    method StepCharacter() returns (c: Option<Character>)
      requires Valid() && index < |source| && source[index] != QUOTE
      modifies this
      ensures Valid() && nodes == old(nodes)
      ensures c == NextCharacter(old(Rest()))
      ensures c.Some? ==> Rest() == old(Rest())[|c.value.Written()|..] && index > old(index)
    {
      ghost var s := Rest();
      var u := source[index];
      if u == BACKSLASH {
        if index + 1 == |source| {
          return None;
        }
        var letter := source[index + 1];
        if letter == UNICODE_ESCAPE {
          if index + 6 > |source| || exists i :: index + 2 <= i < index + 6 && !HexDigit(source[i]) {
            assert |s| >= 6 ==> exists i :: 2 <= i < 6 && !HexDigit(s[i]) by {
              if |s| >= 6 {
                var i :| index + 2 <= i < index + 6 && !HexDigit(source[i]);
                assert !HexDigit(s[i - index]);
              }
            }
            return None;
          }
          assert forall i | 2 <= i < 6 :: s[i] == source[index + i];
          c := Some(Hex(source[index + 2..index + 6]));
          assert s[2..6] == source[index + 2..index + 6];
          assert s[6..] == source[index + 6..];
          index := index + 6;
        } else if Escapes(letter).None? {
          return None;
        } else {
          c := Some(Escape(letter));
          assert s[2..] == source[index + 2..];
          index := index + 2;
        }
      } else if u < 0x20 {
        return None;
      } else {
        c := Some(Raw(u));
        assert s[1..] == source[index + 1..];
        index := index + 1;
      }
    }

    /** The characters up to the closing quotation mark, which is consumed. */
    method ScanCharacters() returns (text: Option<Text>)
      requires Valid()
      modifies this
      ensures Valid() && nodes == old(nodes)
      ensures match ScanString(old(Rest()))
              case None => text == None
              case Some(scan) => text == Some(DecodedAll(scan.chars)) && Rest() == scan.rest && index > old(index)
    {
      ghost var body, chars: seq<Character> := Rest(), [];
      var decoded: Text := [];
      AfterNothing<Unit>(Err(InvalidJson), ScanString(body));
      while index < |source| && source[index] != QUOTE
        invariant Valid() && nodes == old(nodes) && index >= old(index)
        invariant AllValid(chars) && decoded == DecodedAll(chars)
        invariant ScanString(body) == AfterCharacters(chars, ScanString(Rest()))
        decreases |source| - index
      {
        CharacterRound(Rest());
        var c := StepCharacter();
        if c.None? {
          return None;
        }
        DecodedSnoc(chars, c.value);
        AfterMoreCharacters(chars, c.value, ScanString(Rest()));
        decoded, chars := decoded + [c.value.Decoded()], chars + [c.value];
      }
      if index == |source| {
        return None;
      }
      assert chars + [] == chars;
      Advance();
      text := Some(decoded);
    }

    method ParseStringHere() returns (r: Result<Text, Error>)
      requires Valid() && index < |source| && source[index] == QUOTE
      modifies this
      ensures Valid() && nodes == old(nodes)
      ensures match ReadString(old(Rest()))
              case Err(error) => r == Err(error)
              case Ok(read) => r == Ok(read.value) && Rest() == read.rest && index > old(index)
    {
      Advance();
      var text := ScanCharacters();
      if text.None? {
        return Err(InvalidJson);
      }
      var paired := RequireValidUnicode(text.value);
      r := if paired then Ok(text.value) else Err(InvalidIJson);
    }

    method ParseValueHere(depth: nat) returns (r: Result<Value, Error>)
      requires Valid()
      modifies this
      ensures Valid()
      ensures match ParseValue(old(Rest()), limits, depth, old(nodes))
              case Err(error) => r == Err(error)
              case Ok(read) => r == Ok(read.value) && Rest() == read.rest && nodes == read.nodes && index > old(index)
      decreases |source| - index, 1
    {
      if depth > limits.maxDepth {
        return Err(TooComplex);
      }
      nodes := nodes + 1;
      if nodes > limits.maxNodes {
        return Err(TooComplex);
      }
      if index == |source| {
        return Err(InvalidJson);
      }
      var token := source[index];
      if token == QUOTE {
        var text := ParseStringHere();
        r := match text case Err(error) => Err(error) case Ok(t) => Ok(String(t));
      } else if token == OPEN_BRACE {
        r := ParseObjectHere(depth);
      } else if token == OPEN_BRACKET {
        r := ParseArrayHere(depth);
      } else if token == TRUE_TEXT[0] {
        r := ConsumeLiteral(TRUE_TEXT, Boolean(true));
      } else if token == FALSE_TEXT[0] {
        r := ConsumeLiteral(FALSE_TEXT, Boolean(false));
      } else if token == NULL_TEXT[0] {
        r := ConsumeLiteral(NULL_TEXT, Null);
      } else if token == MINUS || Digit(token) {
        r := ParseNumberHere();
      } else {
        r := Err(InvalidJson);
      }
    }

    method ParseArrayHere(depth: nat) returns (r: Result<Value, Error>)
      requires Valid() && index < |source|
      modifies this
      ensures Valid()
      ensures match ParseArray(old(Rest()), limits, depth, old(nodes))
              case Err(error) => r == Err(error)
              case Ok(read) => r == Ok(read.value) && Rest() == read.rest && nodes == read.nodes && index > old(index)
      decreases |source| - index, 0
    {
      Advance();
      SkipWhitespace();
      if index < |source| && source[index] == CLOSE_BRACKET {
        Advance();
        return Ok(Array([]));
      }
      var items := ParseItemsHere(depth);
      r := match items case Err(error) => Err(error) case Ok(values) => Ok(Array(values));
    }

    /** The loop over an array's elements. */
    method ParseItemsHere(depth: nat) returns (r: Result<seq<Value>, Error>)
      requires Valid()
      modifies this
      ensures Valid()
      ensures match ParseItems(old(Rest()), limits, depth, old(nodes))
              case Err(error) => r == Err(error)
              case Ok(read) => r == Ok(read.value) && Rest() == read.rest && nodes == read.nodes && index > old(index)
      decreases |source| - index, 2
    {
      ghost var whole := ParseItems(Rest(), limits, depth, nodes);
      var items: seq<Value> := [];
      AfterNothing(whole, None);
      while index < |source|
        invariant Valid() && index >= old(index)
        invariant After(items, ParseItems(Rest(), limits, depth, nodes)) == whole
        decreases |source| - index
      {
        ghost var s, counted := Rest(), nodes;
        var item := ParseValueHere(depth + 1);
        if item.Err? {
          return Err(item.error);
        }
        ghost var read := Read(item.value, Rest(), nodes);
        ItemsRound(s, limits, depth, counted, read);
        SkipWhitespace();
        if index < |source| && source[index] == CLOSE_BRACKET {
          Advance();
          return Ok(items + [item.value]);
        }
        if index == |source| || source[index] != COMMA {
          return Err(InvalidJson);
        }
        Advance();
        SkipWhitespace();
        AfterMore(items, item.value, ParseItems(Rest(), limits, depth, nodes));
        items := items + [item.value];
      }
      r := Err(InvalidJson);
    }

    method ParseObjectHere(depth: nat) returns (r: Result<Value, Error>)
      requires Valid() && index < |source|
      modifies this
      ensures Valid()
      ensures match ParseObject(old(Rest()), limits, depth, old(nodes))
              case Err(error) => r == Err(error)
              case Ok(read) => r == Ok(read.value) && Rest() == read.rest && nodes == read.nodes && index > old(index)
      decreases |source| - index, 0
    {
      Advance();
      SkipWhitespace();
      if index < |source| && source[index] == CLOSE_BRACE {
        Advance();
        return Ok(Object([]));
      }
      var members := ParseMembersHere(depth);
      r := match members case Err(error) => Err(error) case Ok(values) => Ok(Object(values));
    }

    /** The loop over an object's members, with the set of the names met so far. */
    method ParseMembersHere(depth: nat) returns (r: Result<seq<Member>, Error>)
      requires Valid()
      modifies this
      ensures Valid()
      ensures match ParseMembers(old(Rest()), limits, depth, old(nodes), {})
              case Err(error) => r == Err(error)
              case Ok(read) => r == Ok(read.value) && Rest() == read.rest && nodes == read.nodes && index > old(index)
      decreases |source| - index, 2
    {
      ghost var whole := ParseMembers(Rest(), limits, depth, nodes, {});
      var members: seq<Member>, keys: set<Text> := [], {};
      AfterNothing(whole, None);
      while index < |source|
        invariant Valid() && index >= old(index)
        invariant After(members, ParseMembers(Rest(), limits, depth, nodes, keys)) == whole
        decreases |source| - index
      {
        if source[index] != QUOTE {
          return Err(InvalidJson);
        }
        ghost var s, counted, seen := Rest(), nodes, keys;
        var key := ParseStringHere();
        if key.Err? {
          return Err(key.error);
        }
        if key.value in keys {
          return Err(InvalidJson);
        }
        keys := keys + {key.value};
        SkipWhitespace();
        if index == |source| || source[index] != COLON {
          return Err(InvalidJson);
        }
        Advance();
        SkipWhitespace();
        var item := ParseValueHere(depth + 1);
        if item.Err? {
          return Err(item.error);
        }
        var member := Member(key.value, item.value);
        assert ParseMembers(s, limits, depth, counted, seen) ==
               ParseDelimiter(member, Read(item.value, Rest(), nodes), limits, depth, keys);
        DelimiterRound(member, Read(item.value, Rest(), nodes), limits, depth, keys);
        SkipWhitespace();
        if index < |source| && source[index] == CLOSE_BRACE {
          Advance();
          return Ok(members + [member]);
        }
        if index == |source| || source[index] != COMMA {
          return Err(InvalidJson);
        }
        Advance();
        SkipWhitespace();
        AfterMore(members, member, ParseMembers(Rest(), limits, depth, nodes, keys));
        members := members + [member];
      }
      r := Err(InvalidJson);
    }
  }

  /** The entry point: every call gives what the function on the whole source gives. */
  method ParseStrictJson(source: Text, maxDepth: int, maxNodes: int) returns (r: Result<Value, Error>)
    ensures r == Parse(source, maxDepth, maxNodes)
  {
    if !(1 <= maxDepth <= MAX_SAFE) || !(1 <= maxNodes <= MAX_SAFE) {
      return Err(OutOfRange);
    }
    var parser := new Parser(source, Limits(maxDepth, maxNodes));
    assert parser.Rest() == source;
    parser.SkipWhitespace();
    if parser.index == |source| {
      return Err(InvalidJson);
    }
    r := parser.ParseValueHere(1);
    if r.Ok? {
      parser.SkipWhitespace();
      if parser.index != |source| {
        return Err(InvalidJson);
      }
    }
  }
}
