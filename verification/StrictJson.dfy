/**
 The strict JSON decoder as functions on the unread text, one for each parsing method of the decoder
 object, and their completeness and soundness against the grammar. `finite` stands for "the number read
 from this lexeme is finite".
 */
module StrictJson {
  import opened Basics
  import opened JsonGrammar

  datatype ErrorCode = InvalidJson | DuplicateField

  /** What a parsing method returns, together with the text it leaves unread. */
  datatype Parsed<T> = Ok(value: T, rest: Text) | Err(code: ErrorCode)

  function SkipWhitespace(s: Text): (r: Text)
    ensures |r| <= |s|
    ensures r == [] || !IsWhitespace(r[0])
  {
    if s != [] && IsWhitespace(s[0]) then SkipWhitespace(s[1..]) else s
  }

  // ---------------------------------------------------------------- strings

  /** How far one turn of the scanner moves before an ordinary unit or an escape; `None` is an error. */
  function ScanStep(t: Text): (n: Option<nat>)
    requires t != [] && t[0] != QUOTE
    ensures n.Some? ==> 1 <= n.value <= |t|
  {
    if t[0] == BACKSLASH then
      if |t| < 2 then None
      else if t[1] == LETTER_U then if |t| < 6 then None else Some(6)
      else Some(2)
    else if t[0] < SPACE then None
    else Some(1)
  }

  /**
   Length of the text up to and including the quote at which the scanner stops; `t` starts after the
   opening quote. The four units after a backslash and a `u` are not looked at.
   */
  function Scan(t: Text): (n: Option<nat>)
    ensures n.Some? ==> 1 <= n.value <= |t|
  {
    if t == [] then None
    else if t[0] == QUOTE then Some(1)
    else match ScanStep(t)
      case None => None
      case Some(step) =>
        match Scan(t[step..])
        case None => None
        case Some(n) => Some(n + step)
  }

  /** The spelling at the start of the text, if there is a well-formed one. */
  function FirstChar(t: Text): (c: Option<Spelling>)
    requires t != [] && t[0] != QUOTE
    ensures c.Some? ==> c.value.Valid() && c.value.Write() <= t && ScanStep(t) == Some(|c.value.Write()|)
  {
    if t[0] == BACKSLASH then
      if |t| < 2 then None
      else if t[1] == LETTER_U then
        if |t| < 6 || !Hex(t[2], t[3], t[4], t[5]).Valid() then None else Some(Hex(t[2], t[3], t[4], t[5]))
      else if IsShortEscape(t[1]) then Some(Short(t[1]))
      else None
    else if t[0] < SPACE then None
    else Some(Plain(t[0]))
  }

  datatype Read = Malformed | Read(text: Text, rest: Text)

  /** The characters of a literal up to its closing quote, each checked as it is read. */
  function ReadChars(t: Text): (r: Read)
    ensures r.Read? ==> |r.rest| < |t|
  {
    if t == [] then Malformed
    else if t[0] == QUOTE then Read([], t[1..])
    else match FirstChar(t)
      case None => Malformed
      case Some(c) =>
        match ReadChars(t[|c.Write()|..])
        case Malformed => Malformed
        case Read(text, rest) => Read([c.Denotes()] + text, rest)
  }

  /** `JSON.parse` on a slice that starts with a quote: one literal and nothing after it. */
  function JsonParseLiteral(slice: Text): Option<Text>
    requires slice != [] && slice[0] == QUOTE
  {
    match ReadChars(slice[1..])
    case Read(text, rest) => if rest == [] then Some(text) else None
    case Malformed => None
  }

  function ParseString(s: Text): (r: Parsed<Text>)
    requires s != [] && s[0] == QUOTE
    ensures r.Ok? ==> |r.rest| < |s|
  {
    match Scan(s[1..])
    case None => Err(InvalidJson)
    case Some(n) =>
      match JsonParseLiteral(s[..n + 1])
      case None => Err(InvalidJson)
      case Some(text) => Ok(text, s[n + 1..])
  }

  ghost predicate ScanAgrees(t: Text)
  {
    match ReadChars(t)
    case Read(text, rest) =>
      && Scan(t) == Some(|t| - |rest|)
      && rest == t[|t| - |rest|..]
      && ReadChars(t[..|t| - |rest|]) == Read(text, [])
    case Malformed =>
      Scan(t).Some? ==> ReadChars(t[..Scan(t).value]).Malformed? || ReadChars(t[..Scan(t).value]).rest != []
  }

  ghost function Then(c: Option<Spelling>, r: Read): Read
    requires c.Some? ==> c.value.Valid()
  {
    if c.None? || r.Malformed? then Malformed else Read([c.value.Denotes()] + r.text, r.rest)
  }

  lemma OneTurn(t: Text, step: nat)
    requires t != [] && t[0] != QUOTE && ScanStep(t) == Some(step)
    ensures ReadChars(t) == Then(FirstChar(t), ReadChars(t[step..]))
    ensures Scan(t) == if Scan(t[step..]).None? then None else Some(Scan(t[step..]).value + step)
  {
    hide ScanStep, FirstChar, Spelling.Denotes, Spelling.Write;
  }

  lemma ScanAgreesStep(t: Text, step: nat)
    requires t != [] && t[0] != QUOTE && ScanStep(t) == Some(step) && ScanAgrees(t[step..])
    ensures ScanAgrees(t)
  {
    hide ScanStep, FirstChar, ReadChars, Scan;
    var u := t[step..];
    OneTurn(t, step);
    if Scan(u).Some? {
      var n := Scan(u).value;
      var p := t[..n + step];
      FirstCharIsLocal(t, n + step);
      assert p[step..] == u[..n];
      OneTurn(p, step);
      assert t[n + step..] == u[n..];
    }
  }

  /**
   The unchecked scan does no harm: it stops at the quote where a checked reading of the same text
   stops, and otherwise the slice it hands over is not a literal.
   */
  lemma {:induction false} ScanFindsTheLiteral(t: Text)
    ensures ScanAgrees(t)
  {
    if t != [] && t[0] == QUOTE {
      assert t[..1] == [QUOTE];
    } else if t != [] && ScanStep(t).Some? {
      ScanFindsTheLiteral(t[ScanStep(t).value..]);
      ScanAgreesStep(t, ScanStep(t).value);
    }
  }

  /** What the first character is does not depend on the text past the scanner's step. */
  lemma FirstCharIsLocal(t: Text, n: nat)
    requires t != [] && t[0] != QUOTE && ScanStep(t).Some? && ScanStep(t).value <= n <= |t|
    ensures FirstChar(t[..n]) == FirstChar(t) && ScanStep(t[..n]) == ScanStep(t)
  {
  }

  /** `ParseString` is the checked reading of one literal, for every text that follows it. */
  lemma ParseStringReadsOneLiteral(s: Text)
    requires s != [] && s[0] == QUOTE
    ensures ParseString(s) == match ReadChars(s[1..])
      case Read(text, rest) => Ok(text, rest)
      case Malformed => Err(InvalidJson)
  {
    hide Scan, ReadChars;
    var t := s[1..];
    ScanFindsTheLiteral(t);
    if Scan(t).Some? {
      var n := Scan(t).value;
      assert s[..n + 1][1..] == t[..n];
      assert s[n + 1..] == t[n..];
    }
  }

  lemma FirstCharAccepts(c: Spelling, k: Text)
    requires c.Valid()
    ensures c.Write()[0] != QUOTE && FirstChar(c.Write() + k) == Some(c)
  {
  }

  lemma {:induction false} ReadCharsAccepts(chars: seq<Spelling>, k: Text)
    requires ValidChars(chars)
    ensures ReadChars(WriteChars(chars, k)) == Read(CharsMeaning(chars), k)
  {
    var t := WriteChars(chars, k);
    if chars != [] {
      var more := WriteChars(chars[1..], k);
      FirstCharAccepts(chars[0], more);
      ReadCharsAccepts(chars[1..], k);
      assert t[|chars[0].Write()|..] == more;
    } else {
      assert t[1..] == k;
    }
  }

  lemma {:induction false} ReadCharsDerives(t: Text) returns (chars: seq<Spelling>)
    requires ReadChars(t).Read?
    ensures ValidChars(chars) && CharsMeaning(chars) == ReadChars(t).text
    ensures WriteChars(chars, ReadChars(t).rest) == t
  {
    hide FirstChar, Spelling.Denotes, Spelling.Write;
    if t[0] == QUOTE {
      chars := [];
    } else {
      var first := FirstChar(t).value;
      var step := |first.Write()|;
      var more := ReadCharsDerives(t[step..]);
      chars := [first] + more;
      assert chars[1..] == more;
      assert t == first.Write() + t[step..];
    }
  }

  // ---------------------------------------------------------------- numbers

  function DigitRun(s: Text): (n: nat)
    ensures n <= |s|
  {
    if s == [] || !IsDigit(s[0]) then 0 else 1 + DigitRun(s[1..])
  }

  lemma {:induction false} DigitRunIsDigits(s: Text)
    ensures Digits(s[..DigitRun(s)])
  {
    if s != [] && IsDigit(s[0]) {
      DigitRunIsDigits(s[1..]);
      var n := DigitRun(s);
      assert s[..n] == [s[0]] + s[1..][..n - 1];
    }
  }

  function MatchFraction(s: Text): (n: nat)
    ensures n <= |s|
  {
    if s != [] && s[0] == DOT && DigitRun(s[1..]) > 0 then 1 + DigitRun(s[1..]) else 0
  }

  function SignLength(s: Text): (n: nat)
    ensures n <= |s| && n <= 1
  {
    if s != [] && (s[0] == PLUS || s[0] == MINUS) then 1 else 0
  }

  function MatchExponent(s: Text): (n: nat)
    ensures n <= |s|
  {
    if s == [] || !IsExponentMarker(s[0]) then 0
    else
      var sign := SignLength(s[1..]);
      var digits := DigitRun(s[1 + sign..]);
      if digits > 0 then 1 + sign + digits else 0
  }

  function MatchUnsigned(t: Text): (n: Option<nat>)
    ensures n.Some? ==> 1 <= n.value <= |t|
  {
    if t == [] || !IsDigit(t[0]) then None else
      var b := if t[0] == ZERO then 1 else DigitRun(t);
      var c := MatchFraction(t[b..]);
      Some(b + c + MatchExponent(t[b..][c..]))
  }

  /** Length of the longest match of the number pattern at the start of the text. */
  function MatchNumber(s: Text): (n: Option<nat>)
    ensures n.Some? ==> 1 <= n.value <= |s|
  {
    if s != [] && s[0] == MINUS then
      match MatchUnsigned(s[1..])
      case None => None
      case Some(n) => Some(n + 1)
    else MatchUnsigned(s)
  }

  function ParseNumber(finite: Text -> bool, s: Text): (r: Parsed<Json>)
    ensures r.Ok? ==> |r.rest| < |s|
  {
    match MatchNumber(s)
    case None => Err(InvalidJson)
    case Some(n) => if finite(s[..n]) then Ok(Number(s[..n]), s[n..]) else Err(InvalidJson)
  }

  /** The text may follow a number without becoming part of it. */
  predicate Ends(k: Text)
  {
    k == [] || !(IsDigit(k[0]) || k[0] == DOT || IsExponentMarker(k[0]))
  }

  lemma {:induction false} DigitRunOf(d: Text, k: Text)
    requires Digits(d) && (k == [] || !IsDigit(k[0]))
    ensures DigitRun(d + k) == |d|
  {
    if d == [] {
      assert d + k == k;
    } else {
      assert (d + k)[1..] == d[1..] + k;
      DigitRunOf(d[1..], k);
    }
  }

  lemma MatchExponentAccepts(e: Exponent, k: Text)
    requires e.Valid() && Ends(k)
    ensures MatchExponent(e.Write(k)) == |e.Write(k)| - |k|
  {
    if e.Exponent? {
      var t := e.Write(k);
      assert t[1..] == e.sign + (e.digits + k);
      assert t[1 + |e.sign|..] == e.digits + k;
      DigitRunOf(e.digits, k);
      assert SignLength(t[1..]) == |e.sign| by {
        if e.sign == [] { assert t[1] == e.digits[0]; } else { assert t[1] == e.sign[0]; }
      }
    }
  }

  lemma MatchUnsignedAccepts(whole: Text, fraction: Text, e: Text)
    requires whole != [] && Digits(whole) && (whole[0] == ZERO ==> |whole| == 1)
    requires Digits(fraction) && (e == [] || (!IsDigit(e[0]) && e[0] != DOT))
    ensures var t := whole + WriteFraction(fraction, e);
      IsDigit(t[0]) && MatchUnsigned(t) == Some(|t| - |e| + MatchExponent(e))
  {
    hide MatchExponent;
    var f := WriteFraction(fraction, e);
    var t := whole + f;
    assert t[|whole|..] == f;
    if whole[0] != ZERO {
      DigitRunOf(whole, f);
    }
    if fraction != [] {
      assert f[1..] == fraction + e;
      DigitRunOf(fraction, e);
    }
    assert f[MatchFraction(f)..] == e;
  }

  lemma MatchSigned(minus: bool, t: Text)
    requires t != [] && IsDigit(t[0]) && MatchUnsigned(t).Some?
    ensures var s := WriteSigned(minus, t);
      (s[0] == MINUS || IsDigit(s[0])) && MatchNumber(s) == Some(|s| - |t| + MatchUnsigned(t).value)
  {
    hide MatchUnsigned;
    assert ([MINUS] + t)[1..] == t;
  }

  lemma MatchNumberAccepts(n: NumberSyntax, k: Text)
    requires n.Valid() && Ends(k)
    ensures n.Write(k)[0] == MINUS || IsDigit(n.Write(k)[0])
    ensures MatchNumber(n.Write(k)) == Some(|n.Write(k)| - |k|)
  {
    hide MatchUnsigned, MatchExponent, MatchFraction, DigitRun;
    var e := n.exponent.Write(k);
    MatchExponentAccepts(n.exponent, k);
    MatchUnsignedAccepts(n.whole, n.fraction, e);
    MatchSigned(n.minus, n.whole + WriteFraction(n.fraction, e));
  }

  lemma MatchExponentDerives(s: Text) returns (e: Exponent)
    ensures e.Valid() && e.Write(s[MatchExponent(s)..]) == s
  {
    if MatchExponent(s) == 0 {
      e := NoExponent;
    } else {
      var g := SignLength(s[1..]);
      var d := DigitRun(s[1 + g..]);
      e := Exponent(s[0], s[1..1 + g], s[1 + g..][..d]);
      DigitRunIsDigits(s[1 + g..]);
      assert s[1..1 + g] == if g == 0 then [] else [s[1]];
      assert s == [s[0]] + (s[1..1 + g] + (s[1 + g..][..d] + s[1 + g + d..]));
    }
  }

  lemma MatchFractionDerives(u: Text) returns (fraction: Text)
    ensures Digits(fraction) && u == WriteFraction(fraction, u[MatchFraction(u)..])
  {
    var c := MatchFraction(u);
    if c == 0 {
      fraction := [];
    } else {
      fraction := u[1..][..c - 1];
      DigitRunIsDigits(u[1..]);
      assert u == [u[0]] + (fraction + u[c..]);
    }
  }

  lemma MatchTailDerives(u: Text) returns (fraction: Text, e: Exponent, k: Text)
    ensures Digits(fraction) && e.Valid()
    ensures u == WriteFraction(fraction, e.Write(k))
    ensures k == u[MatchFraction(u)..][MatchExponent(u[MatchFraction(u)..])..]
  {
    hide MatchFraction, MatchExponent, WriteFraction, Exponent.Write, Exponent.Valid;
    fraction := MatchFractionDerives(u);
    var v := u[MatchFraction(u)..];
    e := MatchExponentDerives(v);
    k := v[MatchExponent(v)..];
  }

  lemma MatchUnsignedDerives(t: Text) returns (n: NumberSyntax)
    requires MatchUnsigned(t).Some?
    ensures n.Valid() && !n.minus
    ensures t == n.Write(t[MatchUnsigned(t).value..])
  {
    hide MatchFraction, MatchExponent, WriteFraction, Exponent.Write, Exponent.Valid;
    var b := if t[0] == ZERO then 1 else DigitRun(t);
    var u := t[b..];
    var fraction, e, k := MatchTailDerives(u);
    n := NumberSyntax(false, t[..b], fraction, e);
    assert k == t[MatchUnsigned(t).value..];
    assert t == t[..b] + u;
    assert Digits(t[..b]) by { DigitRunIsDigits(t); }
  }

  lemma NumberLexeme(n: NumberSyntax, s: Text, k: Text)
    requires s == n.Write(k)
    ensures |k| <= |s| && n.Write([]) == s[..|s| - |k|]
  {
    hide NumberSyntax.Write;
    NumberSplits(n, k);
  }

  lemma MatchNumberDerives(s: Text) returns (n: NumberSyntax)
    requires MatchNumber(s).Some?
    ensures n.Valid()
    ensures n.Write(s[MatchNumber(s).value..]) == s && n.Write([]) == s[..MatchNumber(s).value]
  {
    hide MatchUnsigned, WriteFraction, Exponent.Write, Exponent.Valid;
    var k := s[MatchNumber(s).value..];
    if s[0] == MINUS {
      n := MatchUnsignedDerives(s[1..]);
      assert s[1..][MatchUnsigned(s[1..]).value..] == k;
      n := n.(minus := true);
      assert s == [MINUS] + s[1..];
    } else {
      n := MatchUnsignedDerives(s);
    }
    NumberLexeme(n, s, k);
  }

  // ---------------------------------------------------------------- values

  function ParseLiteral(word: Text, value: Json, s: Text): (r: Parsed<Json>)
    requires word != []
    ensures r.Ok? ==> |r.rest| < |s|
  {
    if word <= s then Ok(value, s[|word|..]) else Err(InvalidJson)
  }

  function ParseScalar(finite: Text -> bool, s: Text): (r: Parsed<Json>)
    ensures r.Ok? ==> |r.rest| < |s|
  {
    if s == [] then Err(InvalidJson)
    else if s[0] == QUOTE then
      match ParseString(s)
      case Ok(text, rest) => Ok(String(text), rest)
      case Err(code) => Err(code)
    else if s[0] == TRUE_WORD[0] then ParseLiteral(TRUE_WORD, Bool(true), s)
    else if s[0] == FALSE_WORD[0] then ParseLiteral(FALSE_WORD, Bool(false), s)
    else if s[0] == NULL_WORD[0] then ParseLiteral(NULL_WORD, Null, s)
    else if s[0] == MINUS || IsDigit(s[0]) then ParseNumber(finite, s)
    else Err(InvalidJson)
  }

  function ParseValue(finite: Text -> bool, s: Text): (r: Parsed<Json>)
    ensures r.Ok? ==> |r.rest| < |s|
    decreases |s|, 0
  {
    if s != [] && s[0] == OPEN_BRACE then ParseObject(finite, s)
    else if s != [] && s[0] == OPEN_BRACKET then ParseArray(finite, s)
    else ParseScalar(finite, s)
  }

  function ParseArray(finite: Text -> bool, s: Text): (r: Parsed<Json>)
    requires s != []
    ensures r.Ok? ==> |r.rest| < |s|
    decreases |s|, -1
  {
    var t := SkipWhitespace(s[1..]);
    if t != [] && t[0] == CLOSE_BRACKET then Ok(Array([]), t[1..])
    else
      match ParseElements(finite, t)
      case Ok(items, rest) => Ok(Array(items), rest)
      case Err(code) => Err(code)
  }

  /** One turn of the array loop and the turns after it. */
  function ParseElements(finite: Text -> bool, s: Text): (r: Parsed<seq<Json>>)
    ensures r.Ok? ==> |r.rest| < |s|
    decreases |s|, 1
  {
    match ParseValue(finite, SkipWhitespace(s))
    case Err(code) => Err(code)
    case Ok(item, rest) =>
      var t := SkipWhitespace(rest);
      if t != [] && t[0] == CLOSE_BRACKET then Ok([item], t[1..])
      else if t != [] && t[0] == COMMA then
        match ParseElements(finite, t[1..])
        case Ok(items, rest) => Ok([item] + items, rest)
        case Err(code) => Err(code)
      else Err(InvalidJson)
  }

  function ParseObject(finite: Text -> bool, s: Text): (r: Parsed<Json>)
    requires s != []
    ensures r.Ok? ==> |r.rest| < |s|
    decreases |s|, -1
  {
    var t := SkipWhitespace(s[1..]);
    if t != [] && t[0] == CLOSE_BRACE then Ok(Object([]), t[1..])
    else
      match ParseMembers(finite, t, {})
      case Ok(fields, rest) => Ok(Object(fields), rest)
      case Err(code) => Err(code)
  }

  function ParseKey(s: Text): (r: Parsed<Text>)
    ensures r.Ok? ==> |r.rest| < |s|
  {
    var t := SkipWhitespace(s);
    if t == [] || t[0] != QUOTE then Err(InvalidJson) else ParseString(t)
  }

  function ParseFieldValue(finite: Text -> bool, s: Text): (r: Parsed<Json>)
    ensures r.Ok? ==> |r.rest| < |s|
    decreases |s|, 0
  {
    var t := SkipWhitespace(s);
    if t == [] || t[0] != COLON then Err(InvalidJson) else ParseValue(finite, SkipWhitespace(t[1..]))
  }

  /** One turn of the object loop and the turns after it; `seen` holds the names read so far. */
  function ParseMembers(finite: Text -> bool, s: Text, seen: set<Text>): (r: Parsed<seq<Field>>)
    ensures r.Ok? ==> |r.rest| < |s|
    decreases |s|, 1
  {
    match ParseKey(s)
    case Err(code) => Err(code)
    case Ok(key, afterKey) =>
      if key in seen then Err(DuplicateField) else
        match ParseFieldValue(finite, afterKey)
        case Err(code) => Err(code)
        case Ok(value, afterValue) =>
          var t := SkipWhitespace(afterValue);
          if t != [] && t[0] == CLOSE_BRACE then Ok([Field(key, value)], t[1..])
          else if t != [] && t[0] == COMMA then
            match ParseMembers(finite, t[1..], seen + {key})
            case Ok(fields, rest) => Ok([Field(key, value)] + fields, rest)
            case Err(code) => Err(code)
          else Err(InvalidJson)
  }

  function Decode(finite: Text -> bool, input: Text): Parsed<Json>
  {
    match ParseValue(finite, SkipWhitespace(input))
    case Err(code) => Err(code)
    case Ok(value, rest) => if SkipWhitespace(rest) == [] then Ok(value, []) else Err(InvalidJson)
  }

  // ---------------------------------------------------------------- completeness

  lemma {:induction false} SkipsBlank(w: Text, k: Text)
    requires Blank(w)
    ensures SkipWhitespace(w + k) == SkipWhitespace(k)
  {
    if w == [] {
      assert w + k == k;
    } else {
      assert (w + k)[1..] == w[1..] + k;
      SkipsBlank(w[1..], k);
    }
  }

  /** A written value starts with a code unit that is neither whitespace nor a closing mark. */
  lemma WriteStarts(finite: Text -> bool, x: Syntax, k: Text)
    requires Valid(finite, x)
    ensures Write(x, k) != [] && !IsWhitespace(Write(x, k)[0])
    ensures Write(x, k)[0] != CLOSE_BRACKET
  {
  }

  ghost function Verdict<T>(distinct: bool, value: T, k: Text): Parsed<T>
  {
    if distinct then Ok(value, k) else Err(DuplicateField)
  }

  lemma NumberAccepts(finite: Text -> bool, n: NumberSyntax, k: Text)
    requires n.Valid() && finite(n.Write([])) && Ends(k)
    ensures n.Write(k) != [] && n.Write(k)[0] < OPEN_BRACKET
    ensures ParseScalar(finite, n.Write(k)) == Ok(Number(n.Write([])), k)
  {
    hide MatchNumber, ParseScalar, NumberSyntax.Write;
    MatchNumberAccepts(n, k);
    NumberSplits(n, k);
    NumberValue(finite, n.Write(k), n.Write([]), k);
  }

  lemma NumberValue(finite: Text -> bool, s: Text, lexeme: Text, k: Text)
    requires s != [] && (s[0] == MINUS || IsDigit(s[0])) && finite(lexeme)
    requires s == lexeme + k && MatchNumber(s) == Some(|lexeme|)
    ensures ParseScalar(finite, s) == Ok(Number(lexeme), k)
  {
    hide MatchNumber;
    assert s[..|lexeme|] == lexeme && s[|lexeme|..] == k;
    assert ParseNumber(finite, s) == Ok(Number(lexeme), k);
  }

  lemma StringAccepts(finite: Text -> bool, chars: seq<Spelling>, k: Text)
    requires ValidChars(chars)
    ensures ParseString([QUOTE] + WriteChars(chars, k)) == Ok(CharsMeaning(chars), k)
  {
    var s := [QUOTE] + WriteChars(chars, k);
    ParseStringReadsOneLiteral(s);
    ReadCharsAccepts(chars, k);
    assert s[1..] == WriteChars(chars, k);
  }

  lemma {:induction false} ParseValueAccepts(finite: Text -> bool, x: Syntax, k: Text)
    requires Valid(finite, x) && Ends(k)
    ensures ParseValue(finite, Write(x, k)) == Verdict(Distinct(finite, x), Meaning(finite, x), k)
    decreases x, 0
  {
    var s := Write(x, k);
    match x
    case NumberToken(n) =>
      NumberAccepts(finite, n, k);
    case StringToken(chars) =>
      StringAccepts(finite, chars, k);
    case EmptyArray(w) =>
      assert s[1..] == w + ([CLOSE_BRACKET] + k);
      SkipsBlank(w, [CLOSE_BRACKET] + k);
    case FullArray(es) =>
      assert s[1..] == WriteElements(es, k);
      ArrayOpens(finite, es, k);
      ParseElementsAccepts(finite, es, k);
    case EmptyObject(w) =>
      assert s[1..] == w + ([CLOSE_BRACE] + k);
      SkipsBlank(w, [CLOSE_BRACE] + k);
    case FullObject(ms) =>
      assert s[1..] == WriteMembers(ms, k);
      ObjectOpens(finite, ms, k);
      ParseMembersAccepts(finite, ms, k, {});
    case _ =>
  }

  lemma ArrayOpens(finite: Text -> bool, es: Elements, k: Text)
    requires ValidElements(finite, es)
    ensures var t := SkipWhitespace(WriteElements(es, k));
      t != [] && t[0] != CLOSE_BRACKET && ParseElements(finite, t) == ParseElements(finite, WriteElements(es, k))
  {
    var tail := es.after + (if es.LastElement? then [CLOSE_BRACKET] + k else [COMMA] + WriteElements(es.rest, k));
    WriteStarts(finite, es.item, tail);
    SkipsBlank(es.before, Write(es.item, tail));
  }

  lemma ObjectOpens(finite: Text -> bool, ms: Members, k: Text)
    requires ValidMembers(finite, ms)
    ensures var t := SkipWhitespace(WriteMembers(ms, k));
      && t != [] && t[0] != CLOSE_BRACE
      && ParseMembers(finite, t, {}) == ParseMembers(finite, WriteMembers(ms, k), {})
  {
    hide ParseString, ParseFieldValue, WriteChars;
    var tail := WriteMembers(ms, k)[|ms.before|..];
    assert WriteMembers(ms, k) == ms.before + tail;
    SkipsBlank(ms.before, tail);
  }

  lemma {:induction false} ParseElementsAccepts(finite: Text -> bool, es: Elements, k: Text)
    requires ValidElements(finite, es)
    ensures ParseElements(finite, WriteElements(es, k))
      == Verdict(DistinctElements(finite, es), ElementsMeaning(finite, es), k)
    decreases es
  {
    var mark := if es.LastElement? then [CLOSE_BRACKET] + k else [COMMA] + WriteElements(es.rest, k);
    var tail := es.after + mark;
    WriteStarts(finite, es.item, tail);
    SkipsBlank(es.before, Write(es.item, tail));
    assert Ends(tail);
    ParseValueAccepts(finite, es.item, tail);
    SkipsBlank(es.after, mark);
    assert SkipWhitespace(mark) == mark;
    if es.NextElement? {
      assert mark[1..] == WriteElements(es.rest, k);
      ParseElementsAccepts(finite, es.rest, k);
    } else {
      assert mark[1..] == k;
      assert ElementsMeaning(finite, es) == [Meaning(finite, es.item)];
    }
  }

  lemma KeyAccepts(finite: Text -> bool, before: Text, key: seq<Spelling>, k: Text)
    requires Blank(before) && ValidChars(key)
    ensures ParseKey(before + ([QUOTE] + WriteChars(key, k))) == Ok(CharsMeaning(key), k)
  {
    hide ParseString;
    var literal := [QUOTE] + WriteChars(key, k);
    SkipsBlank(before, literal);
    StringAccepts(finite, key, k);
  }

  lemma {:induction false} FieldValueAccepts(finite: Text -> bool, afterKey: Text, beforeValue: Text, x: Syntax,
                                             k: Text)
    requires Blank(afterKey) && Blank(beforeValue) && Valid(finite, x) && Ends(k)
    ensures ParseFieldValue(finite, afterKey + ([COLON] + (beforeValue + Write(x, k))))
      == Verdict(Distinct(finite, x), Meaning(finite, x), k)
    decreases x, 1
  {
    hide ParseValue;
    var value := Write(x, k);
    var colon := [COLON] + (beforeValue + value);
    SkipsBlank(afterKey, colon);
    assert SkipWhitespace(colon) == colon;
    assert colon[1..] == beforeValue + value;
    WriteStarts(finite, x, k);
    SkipsBlank(beforeValue, value);
    ParseValueAccepts(finite, x, k);
  }

  lemma {:induction false} ParseMembersAccepts(finite: Text -> bool, ms: Members, k: Text, seen: set<Text>)
    requires ValidMembers(finite, ms)
    ensures ParseMembers(finite, WriteMembers(ms, k), seen)
      == Verdict(DistinctMembers(finite, ms, seen), MembersMeaning(finite, ms), k)
    decreases ms
  {
    hide ParseKey, ParseFieldValue;
    var mark := if ms.LastMember? then [CLOSE_BRACE] + k else [COMMA] + WriteMembers(ms.rest, k);
    var tail := ms.after + mark;
    var colon := ms.afterKey + ([COLON] + (ms.beforeValue + Write(ms.value, tail)));
    assert WriteMembers(ms, k) == ms.before + ([QUOTE] + WriteChars(ms.key, colon));
    KeyAccepts(finite, ms.before, ms.key, colon);
    assert Ends(tail);
    FieldValueAccepts(finite, ms.afterKey, ms.beforeValue, ms.value, tail);
    SkipsBlank(ms.after, mark);
    assert SkipWhitespace(mark) == mark;
    if ms.NextMember? {
      assert mark[1..] == WriteMembers(ms.rest, k);
      ParseMembersAccepts(finite, ms.rest, k, seen + {CharsMeaning(ms.key)});
    } else {
      assert mark[1..] == k;
      assert MembersMeaning(finite, ms) == [Field(CharsMeaning(ms.key), Meaning(finite, ms.value))];
    }
  }

  /**
   Round trip. Whatever spelling and insignificant whitespace a value is written with, decoding the
   text gives the value back, and the only reason to refuse it is a repeated name in some object.
   */
  lemma RoundTrip(finite: Text -> bool, before: Text, x: Syntax, after: Text)
    requires Blank(before) && Valid(finite, x) && Blank(after)
    ensures Decode(finite, WriteDocument(before, x, after))
      == if UniqueKeys(Meaning(finite, x)) then Ok(Meaning(finite, x), []) else Err(DuplicateField)
  {
    SkipsBlank(before, Write(x, after));
    WriteStarts(finite, x, after);
    ParseValueAccepts(finite, x, after);
    SkipsBlank(after, []);
    assert after + [] == after;
    DistinctIsUnique(finite, x);
  }

  // ---------------------------------------------------------------- soundness

  lemma {:induction false} SkippedIsBlank(s: Text) returns (w: Text)
    ensures Blank(w) && s == w + SkipWhitespace(s)
  {
    if s != [] && IsWhitespace(s[0]) {
      var more := SkippedIsBlank(s[1..]);
      w := [s[0]] + more;
    } else {
      w := [];
    }
  }

  lemma {:induction false} ParseValueDerives(finite: Text -> bool, s: Text) returns (x: Syntax)
    requires ParseValue(finite, s).Ok?
    ensures Valid(finite, x) && Distinct(finite, x)
    ensures Meaning(finite, x) == ParseValue(finite, s).value
    ensures Write(x, ParseValue(finite, s).rest) == s
    decreases |s|, 0
  {
    if s[0] == OPEN_BRACE {
      x := ParseObjectDerives(finite, s);
    } else if s[0] == OPEN_BRACKET {
      x := ParseArrayDerives(finite, s);
    } else {
      x := ParseScalarDerives(finite, s);
    }
  }

  lemma ParseScalarDerives(finite: Text -> bool, s: Text) returns (x: Syntax)
    requires ParseScalar(finite, s).Ok?
    ensures Valid(finite, x) && Distinct(finite, x)
    ensures Meaning(finite, x) == ParseScalar(finite, s).value
    ensures Write(x, ParseScalar(finite, s).rest) == s
  {
    if s[0] == QUOTE {
      ParseStringReadsOneLiteral(s);
      var chars := ReadCharsDerives(s[1..]);
      x := StringToken(chars);
    } else if s[0] == TRUE_WORD[0] {
      x := TrueWord;
    } else if s[0] == FALSE_WORD[0] {
      x := FalseWord;
    } else if s[0] == NULL_WORD[0] {
      x := NullWord;
    } else {
      var n := MatchNumberDerives(s);
      x := NumberToken(n);
    }
  }

  lemma {:induction false} ParseArrayDerives(finite: Text -> bool, s: Text) returns (x: Syntax)
    requires s != [] && s[0] == OPEN_BRACKET && ParseArray(finite, s).Ok?
    ensures Valid(finite, x) && Distinct(finite, x)
    ensures Meaning(finite, x) == ParseArray(finite, s).value
    ensures Write(x, ParseArray(finite, s).rest) == s
    decreases |s|, -1
  {
    var w := SkippedIsBlank(s[1..]);
    var t := SkipWhitespace(s[1..]);
    if t != [] && t[0] == CLOSE_BRACKET {
      x := EmptyArray(w);
      assert t == [CLOSE_BRACKET] + t[1..];
    } else {
      var es := ParseElementsDerives(finite, t);
      var k := ParseElements(finite, t).rest;
      es := PadElements(finite, w, es, k);
      x := FullArray(es);
    }
  }

  lemma PadElements(finite: Text -> bool, w: Text, es: Elements, k: Text) returns (padded: Elements)
    requires Blank(w) && ValidElements(finite, es) && DistinctElements(finite, es)
    ensures ValidElements(finite, padded) && DistinctElements(finite, padded)
    ensures ElementsMeaning(finite, padded) == ElementsMeaning(finite, es)
    ensures WriteElements(padded, k) == w + WriteElements(es, k)
  {
    hide Write, Valid, Distinct, Meaning;
    padded := es.(before := w + es.before);
  }

  lemma {:induction false} ParseElementsDerives(finite: Text -> bool, s: Text) returns (es: Elements)
    requires ParseElements(finite, s).Ok?
    ensures ValidElements(finite, es) && DistinctElements(finite, es)
    ensures ElementsMeaning(finite, es) == ParseElements(finite, s).value
    ensures WriteElements(es, ParseElements(finite, s).rest) == s
    decreases |s|, 1
  {
    var before := SkippedIsBlank(s);
    var item := ParseValueDerives(finite, SkipWhitespace(s));
    var rest := ParseValue(finite, SkipWhitespace(s)).rest;
    var after := SkippedIsBlank(rest);
    var t := SkipWhitespace(rest);
    assert t == [t[0]] + t[1..];
    if t[0] == CLOSE_BRACKET {
      es := LastElement(before, item, after);
    } else {
      var more := ParseElementsDerives(finite, t[1..]);
      es := NextElement(before, item, after, more);
    }
  }

  lemma {:induction false} ParseObjectDerives(finite: Text -> bool, s: Text) returns (x: Syntax)
    requires s != [] && s[0] == OPEN_BRACE && ParseObject(finite, s).Ok?
    ensures Valid(finite, x) && Distinct(finite, x)
    ensures Meaning(finite, x) == ParseObject(finite, s).value
    ensures Write(x, ParseObject(finite, s).rest) == s
    decreases |s|, -1
  {
    var w := SkippedIsBlank(s[1..]);
    var t := SkipWhitespace(s[1..]);
    if t != [] && t[0] == CLOSE_BRACE {
      x := EmptyObject(w);
      assert t == [CLOSE_BRACE] + t[1..];
    } else {
      var ms := ParseMembersDerives(finite, t, {});
      var k := ParseMembers(finite, t, {}).rest;
      ms := PadMembers(finite, w, ms, k);
      x := FullObject(ms);
    }
  }

  lemma PadMembers(finite: Text -> bool, w: Text, ms: Members, k: Text) returns (padded: Members)
    requires Blank(w) && ValidMembers(finite, ms) && DistinctMembers(finite, ms, {})
    ensures ValidMembers(finite, padded) && DistinctMembers(finite, padded, {})
    ensures MembersMeaning(finite, padded) == MembersMeaning(finite, ms)
    ensures WriteMembers(padded, k) == w + WriteMembers(ms, k)
  {
    hide Write, Valid, Distinct, Meaning, WriteChars;
    padded := ms.(before := w + ms.before);
  }

  lemma KeyDerives(s: Text) returns (before: Text, key: seq<Spelling>)
    requires ParseKey(s).Ok?
    ensures Blank(before) && ValidChars(key) && CharsMeaning(key) == ParseKey(s).value
    ensures before + ([QUOTE] + WriteChars(key, ParseKey(s).rest)) == s
  {
    hide ParseString;
    before := SkippedIsBlank(s);
    var t := SkipWhitespace(s);
    ParseStringReadsOneLiteral(t);
    key := ReadCharsDerives(t[1..]);
    assert t == [QUOTE] + t[1..];
  }

  lemma {:induction false} FieldValueDerives(finite: Text -> bool, s: Text)
    returns (afterKey: Text, beforeValue: Text, value: Syntax)
    requires ParseFieldValue(finite, s).Ok?
    ensures Blank(afterKey) && Blank(beforeValue) && Valid(finite, value) && Distinct(finite, value)
    ensures Meaning(finite, value) == ParseFieldValue(finite, s).value
    ensures afterKey + ([COLON] + (beforeValue + Write(value, ParseFieldValue(finite, s).rest))) == s
    decreases |s|, 0
  {
    hide ParseValue;
    afterKey := SkippedIsBlank(s);
    var t := SkipWhitespace(s);
    assert t == [COLON] + t[1..];
    beforeValue := SkippedIsBlank(t[1..]);
    value := ParseValueDerives(finite, SkipWhitespace(t[1..]));
  }

  lemma {:induction false} ParseMembersDerives(finite: Text -> bool, s: Text, seen: set<Text>) returns (ms: Members)
    requires ParseMembers(finite, s, seen).Ok?
    ensures ValidMembers(finite, ms) && DistinctMembers(finite, ms, seen)
    ensures MembersMeaning(finite, ms) == ParseMembers(finite, s, seen).value
    ensures WriteMembers(ms, ParseMembers(finite, s, seen).rest) == s
    decreases |s|, 1
  {
    hide ParseKey, ParseFieldValue, SkipWhitespace, Blank;
    hide Valid, Distinct, Meaning, Write, WriteChars, CharsMeaning, ValidChars;
    var before, key := KeyDerives(s);
    var afterKey, beforeValue, value := FieldValueDerives(finite, ParseKey(s).rest);
    var rest := ParseFieldValue(finite, ParseKey(s).rest).rest;
    var after := SkippedIsBlank(rest);
    var t := SkipWhitespace(rest);
    assert t == [t[0]] + t[1..];
    if t[0] == CLOSE_BRACE {
      ms := LastMember(before, key, afterKey, beforeValue, value, after);
    } else {
      var more := ParseMembersDerives(finite, t[1..], seen + {ParseKey(s).value});
      ms := NextMember(before, key, afterKey, beforeValue, value, after, more);
    }
  }

  /**
   Soundness. A decoded text is, in full, a derivation of the value returned, and no object of the
   value repeats a name.
   */
  lemma Soundness(finite: Text -> bool, input: Text) returns (before: Text, x: Syntax, after: Text)
    requires Decode(finite, input).Ok?
    ensures Blank(before) && Valid(finite, x) && Blank(after)
    ensures WriteDocument(before, x, after) == input
    ensures Decode(finite, input) == Ok(Meaning(finite, x), [])
    ensures UniqueKeys(Meaning(finite, x))
  {
    before := SkippedIsBlank(input);
    x := ParseValueDerives(finite, SkipWhitespace(input));
    after := SkippedIsBlank(ParseValue(finite, SkipWhitespace(input)).rest);
    assert after + [] == after;
    DistinctIsUnique(finite, x);
  }

  /** A text is a document of the grammar that denotes `v`. */
  ghost predicate Denotes(finite: Text -> bool, input: Text, v: Json)
  {
    exists before, x, after ::
      && Blank(before) && Valid(finite, x) && Blank(after)
      && WriteDocument(before, x, after) == input && Meaning(finite, x) == v
  }

  /** The decoder accepts exactly the documents whose objects repeat no name, with their meaning. */
  lemma DecodeIsTheGrammar(finite: Text -> bool, input: Text, v: Json)
    ensures Decode(finite, input) == Ok(v, []) <==> Denotes(finite, input, v) && UniqueKeys(v)
    ensures Decode(finite, input) == Err(DuplicateField) <== Denotes(finite, input, v) && !UniqueKeys(v)
  {
    if Decode(finite, input) == Ok(v, []) {
      var before, x, after := Soundness(finite, input);
    }
    if Denotes(finite, input, v) {
      var before, x, after :|
        && Blank(before) && Valid(finite, x) && Blank(after)
        && WriteDocument(before, x, after) == input && Meaning(finite, x) == v;
      RoundTrip(finite, before, x, after);
    }
  }

  /** The grammar is unambiguous on what the decoder accepts. */
  lemma OneMeaning(finite: Text -> bool, input: Text, v: Json, w: Json)
    requires Denotes(finite, input, v) && Denotes(finite, input, w) && UniqueKeys(v)
    ensures v == w
  {
    DecodeIsTheGrammar(finite, input, v);
    DecodeIsTheGrammar(finite, input, w);
  }
}
