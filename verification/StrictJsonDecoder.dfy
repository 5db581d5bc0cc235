/** The decoder as an object: one cursor, moved by every method, proved against `StrictJson`. */
module StrictJsonDecoder {
  import opened Basics
  import opened JsonGrammar
  import opened StrictJson

  datatype Outcome<T> = Returned(value: T) | Thrown(code: ErrorCode)

  /** Items already collected by a loop, in front of what its remaining turns collect. */
  ghost function Prepend<T>(acc: seq<T>, p: Parsed<seq<T>>): Parsed<seq<T>>
  {
    match p
    case Ok(items, rest) => Ok(acc + items, rest)
    case Err(code) => Err(code)
  }

  method ParseStrictJson(finite: Text -> bool, input: Text) returns (r: Outcome<Json>)
    ensures forall v :: r == Returned(v) <==> Denotes(finite, input, v) && UniqueKeys(v)
    ensures r.Thrown? ==> r.code == InvalidJson || r.code == DuplicateField
    ensures forall v :: Denotes(finite, input, v) && !UniqueKeys(v) ==> r == Thrown(DuplicateField)
  {
    var decoder := new Decoder(finite, input);
    assert decoder.Rest() == input;
    r := decoder.Parse();
    forall v
      ensures r == Returned(v) <==> Denotes(finite, input, v) && UniqueKeys(v)
      ensures Denotes(finite, input, v) && !UniqueKeys(v) ==> r == Thrown(DuplicateField)
    {
      DecodeIsTheGrammar(finite, input, v);
    }
  }

  class Decoder {
    const input: Text
    const finite: Text -> bool
    var index: nat

    ghost predicate Valid()
      reads this
    {
      index <= |input|
    }

    ghost function Rest(): Text
      reads this
      requires Valid()
    {
      input[index..]
    }

    /** A method behaved as its function says; after a throw the cursor is never read again. */
    ghost predicate Agrees<T>(r: Outcome<T>, p: Parsed<T>)
      reads this
    {
      match p
      case Ok(value, rest) => r == Returned(value) && Valid() && Rest() == rest
      case Err(code) => r == Thrown(code)
    }

    constructor (finite: Text -> bool, input: Text)
      ensures Valid() && this.input == input && this.finite == finite && index == 0
    {
      this.finite := finite;
      this.input := input;
      index := 0;
    }

    method Parse() returns (r: Outcome<Json>)
      requires Valid()
      modifies this
      ensures Agrees(r, Decode(finite, old(Rest())))
    {
      SkipWs();
      r := ParseOne();
      if r.Thrown? {
        return;
      }
      SkipWs();
      if index != |input| {
        r := Thrown(InvalidJson);
      }
    }

    method ParseOne() returns (r: Outcome<Json>)
      requires Valid()
      modifies this
      ensures Agrees(r, ParseValue(finite, old(Rest())))
      decreases |input| - index, 0
    {
      hide ParseArray, ParseObject, ParseString, ParseNumber;
      if index == |input| {
        return Thrown(InvalidJson);
      }
      var character := input[index];
      assert character == Rest()[0];
      if character == QUOTE {
        var text := ParseText();
        r := if text.Thrown? then Thrown(text.code) else Returned(String(text.value));
      } else if character == OPEN_BRACE {
        r := ParseFields();
      } else if character == OPEN_BRACKET {
        r := ParseItems();
      } else if character == TRUE_WORD[0] {
        r := ParseWord(TRUE_WORD, Bool(true));
      } else if character == FALSE_WORD[0] {
        r := ParseWord(FALSE_WORD, Bool(false));
      } else if character == NULL_WORD[0] {
        r := ParseWord(NULL_WORD, Null);
      } else if character == MINUS || IsDigit(character) {
        r := ParseNumeral();
      } else {
        r := Thrown(InvalidJson);
      }
    }

    method ParseFields() returns (r: Outcome<Json>)
      requires Valid() && Rest() != []
      modifies this
      ensures Agrees(r, ParseObject(finite, old(Rest())))
      decreases |input| - index, -1
    {
      hide ParseKey, ParseFieldValue, SkipWhitespace;
      index := index + 1;
      SkipWs();
      var closed := Consume(CLOSE_BRACE);
      if closed {
        return Returned(Object([]));
      }
      var fields: seq<Field>, names: set<Text> := [], {};
      ghost var start := Rest();
      PrependNothing(ParseMembers(finite, start, {}));
      while true
        invariant Valid() && index > old(index)
        invariant ParseMembers(finite, start, {}) == Prepend(fields, ParseMembers(finite, Rest(), names))
        decreases |input| - index
      {
        var key := ParseName();
        if key.Thrown? {
          return Thrown(key.code);
        }
        if key.value in names {
          return Thrown(DuplicateField);
        }
        names := names + {key.value};
        var value := ParseNamedValue();
        if value.Thrown? {
          return Thrown(value.code);
        }
        ghost var read := fields;
        fields := fields + [Field(key.value, value.value)];
        SkipWs();
        closed := Consume(CLOSE_BRACE);
        if closed {
          return Returned(Object(fields));
        }
        var comma := Consume(COMMA);
        if !comma {
          return Thrown(InvalidJson);
        }
        Regroup(read, Field(key.value, value.value), ParseMembers(finite, Rest(), names));
      }
    }

    /** The head of a turn: the name of the next field. */
    method ParseName() returns (r: Outcome<Text>)
      requires Valid()
      modifies this
      ensures Agrees(r, ParseKey(old(Rest())))
    {
      hide ParseString, SkipWhitespace;
      SkipWs();
      if index == |input| || input[index] != QUOTE {
        return Thrown(InvalidJson);
      }
      assert Rest()[0] == QUOTE;
      r := ParseText();
    }

    /** The rest of a field: the colon and the value. */
    method ParseNamedValue() returns (r: Outcome<Json>)
      requires Valid()
      modifies this
      ensures Agrees(r, ParseFieldValue(finite, old(Rest())))
      decreases |input| - index, 0
    {
      hide ParseValue, SkipWhitespace;
      SkipWs();
      var colon := Consume(COLON);
      if !colon {
        return Thrown(InvalidJson);
      }
      SkipWs();
      r := ParseOne();
    }

    method ParseItems() returns (r: Outcome<Json>)
      requires Valid() && Rest() != []
      modifies this
      ensures Agrees(r, ParseArray(finite, old(Rest())))
      decreases |input| - index, -1
    {
      hide ParseValue, SkipWhitespace;
      index := index + 1;
      SkipWs();
      var closed := Consume(CLOSE_BRACKET);
      if closed {
        return Returned(Array([]));
      }
      var items: seq<Json> := [];
      ghost var start := Rest();
      PrependNothing(ParseElements(finite, start));
      while true
        invariant Valid() && index > old(index)
        invariant ParseElements(finite, start) == Prepend(items, ParseElements(finite, Rest()))
        decreases |input| - index
      {
        SkipWs();
        var item := ParseOne();
        if item.Thrown? {
          return Thrown(item.code);
        }
        ghost var read := items;
        items := items + [item.value];
        SkipWs();
        closed := Consume(CLOSE_BRACKET);
        if closed {
          return Returned(Array(items));
        }
        var comma := Consume(COMMA);
        if !comma {
          return Thrown(InvalidJson);
        }
        Regroup(read, item.value, ParseElements(finite, Rest()));
      }
    }

    method ParseText() returns (r: Outcome<Text>)
      requires Valid() && Rest() != [] && Rest()[0] == QUOTE
      modifies this
      ensures Agrees(r, ParseString(old(Rest())))
    {
      hide JsonParseLiteral, Scan, SameStop;
      var start := index;
      ghost var body := Rest()[1..];
      index := index + 1;
      SameStopStart(body);
      while index < |input|
        invariant start < index <= |input| + 1 && body == input[start + 1..]
        invariant index <= |input| ==> SameStop(body, index - start - 1)
        invariant index > |input| ==> Scan(body).None?
      {
        var character := input[index];
        ghost var done := index - start - 1;
        assert character == body[done];
        if character == QUOTE {
          index := index + 1;
          SameStopEnd(body, done);
          ghost var literal := old(Rest());
          assert input[start..index] == literal[..done + 2];
          var text := JsonParseLiteral(input[start..index]);
          return if text.None? then Thrown(InvalidJson) else Returned(text.value);
        }
        SameStopStep(body, done);
        if character == BACKSLASH {
          index := index + 1;
          if index >= |input| {
            return Thrown(InvalidJson);
          }
          assert input[index] == body[done + 1];
          if input[index] == LETTER_U {
            index := index + 4;
            if index > |input| {
              return Thrown(InvalidJson);
            }
          }
        } else if character < SPACE {
          return Thrown(InvalidJson);
        }
        index := index + 1;
      }
      if index == |input| {
        SameStopShort(body);
      }
      r := Thrown(InvalidJson);
    }

    method ParseNumeral() returns (r: Outcome<Json>)
      requires Valid()
      modifies this
      ensures Agrees(r, ParseNumber(finite, old(Rest())))
    {
      hide MatchNumber;
      var remaining := input[index..];
      var length := MatchNumber(remaining);
      if length.None? {
        return Thrown(InvalidJson);
      }
      var lexeme := remaining[..length.value];
      if !finite(lexeme) {
        return Thrown(InvalidJson);
      }
      index := index + |lexeme|;
      r := Returned(Number(lexeme));
    }

    method ParseWord(word: Text, value: Json) returns (r: Outcome<Json>)
      requires Valid() && word != []
      modifies this
      ensures Agrees(r, ParseLiteral(word, value, old(Rest())))
    {
      if !(word <= input[index..]) {
        return Thrown(InvalidJson);
      }
      index := index + |word|;
      r := Returned(value);
    }

    method SkipWs()
      requires Valid()
      modifies this
      ensures Valid() && old(index) <= index && Rest() == SkipWhitespace(old(Rest()))
    {
      while index < |input| && IsWhitespace(input[index])
        invariant Valid() && old(index) <= index && SkipWhitespace(Rest()) == SkipWhitespace(old(Rest()))
      {
        assert input[index..][0] == input[index] && input[index..][1..] == input[index + 1..];
        index := index + 1;
      }
      assert Rest() != [] ==> Rest()[0] == input[index];
    }

    method Consume(c: CodeUnit) returns (taken: bool)
      requires Valid()
      modifies this
      ensures Valid() && old(index) <= index
      ensures taken == (old(Rest()) != [] && old(Rest())[0] == c)
      ensures Rest() == if taken then old(Rest())[1..] else old(Rest())
    {
      if index == |input| || input[index] != c {
        return false;
      }
      index := index + 1;
      return true;
    }
  }

  // The scanner's position in a literal body decides where a scan of the whole body stops.

  ghost predicate SameStop(body: Text, done: nat)
  {
    && done <= |body|
    && Scan(body) == if Scan(body[done..]).None? then None else Some(Scan(body[done..]).value + done)
  }

  lemma SameStopStart(body: Text)
    ensures SameStop(body, 0)
  {
    assert body[0..] == body;
  }

  /** How far a scanner standing at `done` moves; 0 stands for an error. */
  ghost function StepAt(body: Text, done: nat): (n: nat)
    requires done < |body| && body[done] != QUOTE
  {
    if body[done] == BACKSLASH then
      if done + 1 == |body| then 0
      else if body[done + 1] != LETTER_U then 2
      else if done + 6 <= |body| then 6 else 0
    else if body[done] < SPACE then 0 else 1
  }

  lemma StepAtIsScanStep(body: Text, done: nat)
    requires done < |body| && body[done] != QUOTE
    ensures ScanStep(body[done..]) == if StepAt(body, done) == 0 then None else Some(StepAt(body, done))
  {
    var t := body[done..];
    assert t[0] == body[done];
    assert done + 1 < |body| ==> t[1] == body[done + 1];
  }

  lemma SameStopStep(body: Text, done: nat)
    requires SameStop(body, done) && done < |body| && body[done] != QUOTE
    ensures if StepAt(body, done) == 0 then Scan(body).None? else SameStop(body, done + StepAt(body, done))
  {
    hide ScanStep, StepAt;
    var t := body[done..];
    assert t[0] == body[done];
    StepAtIsScanStep(body, done);
    if ScanStep(t).Some? {
      assert t[ScanStep(t).value..] == body[done + ScanStep(t).value..];
    }
  }

  lemma SameStopEnd(body: Text, done: nat)
    requires SameStop(body, done) && done < |body| && body[done] == QUOTE
    ensures Scan(body) == Some(done + 1)
  {
    assert body[done..][0] == QUOTE;
  }

  lemma SameStopShort(body: Text)
    requires SameStop(body, |body|)
    ensures Scan(body).None?
  {
  }

  lemma PrependNothing<T>(p: Parsed<seq<T>>)
    ensures Prepend([], p) == p
  {
    if p.Ok? {
      assert [] + p.value == p.value;
    }
  }

  lemma Regroup<T>(acc: seq<T>, x: T, p: Parsed<seq<T>>)
    ensures Prepend(acc, Prepend([x], p)) == Prepend(acc + [x], p)
  {
    if p.Ok? {
      assert acc + ([x] + p.value) == acc + [x] + p.value;
    }
  }
}
