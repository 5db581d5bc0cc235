/**
 The grammar of RFC 8259 as concrete syntax trees over UTF-16 code units: what a text says
 (`Meaning`) and how it is written (`Write`), independent of any parser.

 Every writer takes the text that follows the construct, so that a tree is written in front of an
 arbitrary continuation; `WriteSplits` shows that this is ordinary concatenation.
 */
module JsonGrammar {

  type CodeUnit = c: int | 0 <= c < 0x1_0000
  type Text = seq<CodeUnit>

  const TAB: CodeUnit := 0x09
  const LINE_FEED: CodeUnit := 0x0A
  const RETURN: CodeUnit := 0x0D
  const SPACE: CodeUnit := 0x20
  const QUOTE: CodeUnit := 0x22
  const PLUS: CodeUnit := 0x2B
  const COMMA: CodeUnit := 0x2C
  const MINUS: CodeUnit := 0x2D
  const DOT: CodeUnit := 0x2E
  const ZERO: CodeUnit := 0x30
  const NINE: CodeUnit := 0x39
  const COLON: CodeUnit := 0x3A
  const OPEN_BRACKET: CodeUnit := 0x5B
  const BACKSLASH: CodeUnit := 0x5C
  const CLOSE_BRACKET: CodeUnit := 0x5D
  const LETTER_U: CodeUnit := 0x75
  const OPEN_BRACE: CodeUnit := 0x7B
  const CLOSE_BRACE: CodeUnit := 0x7D

  const TRUE_WORD: Text := [0x74, 0x72, 0x75, 0x65]
  const FALSE_WORD: Text := [0x66, 0x61, 0x6C, 0x73, 0x65]
  const NULL_WORD: Text := [0x6E, 0x75, 0x6C, 0x6C]

  /** A decoded value. Numbers keep their lexeme; object fields keep their order of appearance. */
  datatype Json =
    | Null
    | Bool(value: bool)
    | Number(lexeme: Text)
    | String(text: Text)
    | Array(items: seq<Json>)
    | Object(fields: seq<Field>)

  datatype Field = Field(key: Text, value: Json)

  /** No object, at any depth, has two fields with the same decoded name. */
  predicate UniqueKeys(v: Json)
  {
    match v
    case Array(items) => forall i :: 0 <= i < |items| ==> UniqueKeys(items[i])
    case Object(fields) =>
      && (forall i, j :: 0 <= i < j < |fields| ==> fields[i].key != fields[j].key)
      && (forall i :: 0 <= i < |fields| ==> UniqueKeys(fields[i].value))
    case _ => true
  }

  // ---------------------------------------------------------------- whitespace (section 2)

  predicate IsWhitespace(c: CodeUnit)
  {
    c == SPACE || c == TAB || c == LINE_FEED || c == RETURN
  }

  predicate Blank(w: Text)
  {
    forall i :: 0 <= i < |w| ==> IsWhitespace(w[i])
  }

  // ---------------------------------------------------------------- strings (section 7)

  predicate IsHexDigit(c: CodeUnit)
  {
    ZERO <= c <= NINE || 0x41 <= c <= 0x46 || 0x61 <= c <= 0x66
  }

  function HexValue(c: CodeUnit): (v: nat)
    requires IsHexDigit(c)
    ensures v < 16
  {
    if c <= NINE then c - ZERO else if c <= 0x46 then c - 0x41 + 10 else c - 0x61 + 10
  }

  predicate IsShortEscape(c: CodeUnit)
  {
    || c == QUOTE || c == BACKSLASH || c == 0x2F
    || c == 0x62 || c == 0x66 || c == 0x6E || c == 0x72 || c == 0x74
  }

  function ShortEscape(c: CodeUnit): CodeUnit
    requires IsShortEscape(c)
  {
    if c == 0x62 then 0x08
    else if c == 0x66 then 0x0C
    else if c == 0x6E then LINE_FEED
    else if c == 0x72 then RETURN
    else if c == 0x74 then TAB
    else c
  }

  predicate IsPlain(c: CodeUnit)
  {
    c >= SPACE && c != QUOTE && c != BACKSLASH
  }

  /** One code unit of a string as it may be spelled in a literal. */
  datatype Spelling =
    | Plain(unit: CodeUnit)
    | Short(letter: CodeUnit)
    | Hex(a: CodeUnit, b: CodeUnit, c: CodeUnit, d: CodeUnit)
  {
    predicate Valid() {
      match this
      case Plain(u) => IsPlain(u)
      case Short(l) => IsShortEscape(l)
      case Hex(a, b, c, d) => IsHexDigit(a) && IsHexDigit(b) && IsHexDigit(c) && IsHexDigit(d)
    }

    function Denotes(): CodeUnit
      requires Valid()
    {
      match this
      case Plain(u) => u
      case Short(l) => ShortEscape(l)
      case Hex(a, b, c, d) =>
        HexValue(a) * 0x1000 + HexValue(b) * 0x100 + HexValue(c) * 0x10 + HexValue(d)
    }

    function Write(): Text {
      match this
      case Plain(u) => [u]
      case Short(l) => [BACKSLASH, l]
      case Hex(a, b, c, d) => [BACKSLASH, LETTER_U, a, b, c, d]
    }
  }

  predicate ValidChars(chars: seq<Spelling>)
  {
    forall i :: 0 <= i < |chars| ==> chars[i].Valid()
  }

  function CharsMeaning(chars: seq<Spelling>): Text
    requires ValidChars(chars)
  {
    if chars == [] then [] else [chars[0].Denotes()] + CharsMeaning(chars[1..])
  }

  /** The body of a literal, its closing quote, and what follows. */
  function WriteChars(chars: seq<Spelling>, k: Text): Text
  {
    if chars == [] then [QUOTE] + k else chars[0].Write() + WriteChars(chars[1..], k)
  }

  // ---------------------------------------------------------------- numbers (section 6)

  predicate IsDigit(c: CodeUnit)
  {
    ZERO <= c <= NINE
  }

  predicate Digits(t: Text)
  {
    forall i :: 0 <= i < |t| ==> IsDigit(t[i])
  }

  predicate IsExponentMarker(c: CodeUnit)
  {
    c == 0x65 || c == 0x45
  }

  datatype Exponent =
    | NoExponent
    | Exponent(marker: CodeUnit, sign: Text, digits: Text)
  {
    predicate Valid() {
      || NoExponent?
      || (&& IsExponentMarker(marker) && (sign == [] || sign == [PLUS] || sign == [MINUS])
          && digits != [] && Digits(digits))
    }

    function Write(k: Text): Text {
      if NoExponent? then k else [marker] + (sign + (digits + k))
    }
  }

  /** `fraction` is the digits after the point; it is empty when there is no point. */
  datatype NumberSyntax = NumberSyntax(minus: bool, whole: Text, fraction: Text, exponent: Exponent)
  {
    predicate Valid() {
      && whole != [] && Digits(whole) && (whole[0] == ZERO ==> |whole| == 1)
      && Digits(fraction) && exponent.Valid()
    }

    function Write(k: Text): Text {
      WriteSigned(minus, whole + WriteFraction(fraction, exponent.Write(k)))
    }
  }

  function WriteFraction(fraction: Text, k: Text): Text
  {
    if fraction == [] then k else [DOT] + (fraction + k)
  }

  function WriteSigned(minus: bool, k: Text): Text
  {
    if minus then [MINUS] + k else k
  }

  // ---------------------------------------------------------------- values (sections 3 to 5)

  datatype Syntax =
    | NullWord
    | TrueWord
    | FalseWord
    | NumberToken(number: NumberSyntax)
    | StringToken(chars: seq<Spelling>)
    | EmptyArray(inner: Text)
    | FullArray(elements: Elements)
    | EmptyObject(inner: Text)
    | FullObject(members: Members)

  datatype Elements =
    | LastElement(before: Text, item: Syntax, after: Text)
    | NextElement(before: Text, item: Syntax, after: Text, rest: Elements)

  datatype Members =
    | LastMember(before: Text, key: seq<Spelling>, afterKey: Text, beforeValue: Text, value: Syntax, after: Text)
    | NextMember(before: Text, key: seq<Spelling>, afterKey: Text, beforeValue: Text, value: Syntax, after: Text,
                 rest: Members)

  /** A derivation of the grammar all of whose numbers are within the receiver's range. */
  predicate Valid(finite: Text -> bool, x: Syntax)
  {
    match x
    case NumberToken(n) => n.Valid() && finite(n.Write([]))
    case StringToken(chars) => ValidChars(chars)
    case EmptyArray(w) => Blank(w)
    case FullArray(es) => ValidElements(finite, es)
    case EmptyObject(w) => Blank(w)
    case FullObject(ms) => ValidMembers(finite, ms)
    case _ => true
  }

  predicate ValidElements(finite: Text -> bool, es: Elements)
  {
    && Blank(es.before) && Valid(finite, es.item) && Blank(es.after)
    && (es.NextElement? ==> ValidElements(finite, es.rest))
  }

  predicate ValidMembers(finite: Text -> bool, ms: Members)
  {
    && Blank(ms.before) && ValidChars(ms.key) && Blank(ms.afterKey) && Blank(ms.beforeValue)
    && Valid(finite, ms.value) && Blank(ms.after)
    && (ms.NextMember? ==> ValidMembers(finite, ms.rest))
  }

  function Meaning(finite: Text -> bool, x: Syntax): Json
    requires Valid(finite, x)
  {
    match x
    case NullWord => Null
    case TrueWord => Bool(true)
    case FalseWord => Bool(false)
    case NumberToken(n) => Number(n.Write([]))
    case StringToken(chars) => String(CharsMeaning(chars))
    case EmptyArray(_) => Array([])
    case FullArray(es) => Array(ElementsMeaning(finite, es))
    case EmptyObject(_) => Object([])
    case FullObject(ms) => Object(MembersMeaning(finite, ms))
  }

  function ElementsMeaning(finite: Text -> bool, es: Elements): (items: seq<Json>)
    requires ValidElements(finite, es)
  {
    [Meaning(finite, es.item)] + (if es.LastElement? then [] else ElementsMeaning(finite, es.rest))
  }

  function MembersMeaning(finite: Text -> bool, ms: Members): (fields: seq<Field>)
    requires ValidMembers(finite, ms)
  {
    [Field(CharsMeaning(ms.key), Meaning(finite, ms.value))]
    + (if ms.LastMember? then [] else MembersMeaning(finite, ms.rest))
  }

  function Write(x: Syntax, k: Text): Text
  {
    match x
    case NullWord => NULL_WORD + k
    case TrueWord => TRUE_WORD + k
    case FalseWord => FALSE_WORD + k
    case NumberToken(n) => n.Write(k)
    case StringToken(chars) => [QUOTE] + WriteChars(chars, k)
    case EmptyArray(w) => [OPEN_BRACKET] + (w + ([CLOSE_BRACKET] + k))
    case FullArray(es) => [OPEN_BRACKET] + WriteElements(es, k)
    case EmptyObject(w) => [OPEN_BRACE] + (w + ([CLOSE_BRACE] + k))
    case FullObject(ms) => [OPEN_BRACE] + WriteMembers(ms, k)
  }

  function WriteElements(es: Elements, k: Text): Text
  {
    es.before + Write(es.item, es.after + (
      if es.LastElement? then [CLOSE_BRACKET] + k else [COMMA] + WriteElements(es.rest, k)))
  }

  function WriteMembers(ms: Members, k: Text): Text
  {
    ms.before + ([QUOTE] + WriteChars(ms.key, ms.afterKey + ([COLON] + (ms.beforeValue + Write(ms.value, ms.after + (
      if ms.LastMember? then [CLOSE_BRACE] + k else [COMMA] + WriteMembers(ms.rest, k)))))))
  }

  /** A whole document: insignificant whitespace around one value. */
  function WriteDocument(before: Text, x: Syntax, after: Text): Text
  {
    before + Write(x, after)
  }

  // ---------------------------------------------------------------- writing in front of a continuation

  lemma {:induction false} WriteCharsSplits(chars: seq<Spelling>, k: Text)
    ensures WriteChars(chars, k) == WriteChars(chars, []) + k
  {
    if chars != [] {
      WriteCharsSplits(chars[1..], k);
    }
  }

  lemma ExponentSplits(e: Exponent, k: Text)
    ensures e.Write(k) == e.Write([]) + k
  {
  }

  lemma FractionSplits(whole: Text, fraction: Text, e: Text, k: Text)
    ensures whole + WriteFraction(fraction, e + k) == whole + WriteFraction(fraction, e) + k
  {
    Regrouped(fraction, e, k);
    Regrouped([DOT], fraction + e, k);
    Regrouped(whole, WriteFraction(fraction, e), k);
  }

  lemma Regrouped(a: Text, b: Text, c: Text)
    ensures a + (b + c) == (a + b) + c
  {
  }

  lemma NumberSplits(n: NumberSyntax, k: Text)
    ensures n.Write(k) == n.Write([]) + k
  {
    hide WriteFraction, Exponent.Write;
    ExponentSplits(n.exponent, k);
    FractionSplits(n.whole, n.fraction, n.exponent.Write([]), k);
  }

  /** Writing in front of a continuation is writing, then appending the continuation. */
  lemma {:induction false} WriteSplits(x: Syntax, k: Text)
    ensures Write(x, k) == Write(x, []) + k
  {
    hide NumberSyntax.Write, WriteChars;
    match x
    case NumberToken(n) => NumberSplits(n, k);
    case StringToken(chars) => WriteCharsSplits(chars, k);
    case FullArray(es) => WriteElementsSplits(es, k);
    case FullObject(ms) => WriteMembersSplits(ms, k);
    case _ =>
  }

  lemma {:induction false} WriteElementsSplits(es: Elements, k: Text)
    ensures WriteElements(es, k) == WriteElements(es, []) + k
  {
    hide Write;
    if es.NextElement? {
      WriteElementsSplits(es.rest, k);
    }
    var tail := if es.LastElement? then [CLOSE_BRACKET] + k else [COMMA] + WriteElements(es.rest, k);
    var tail0 := if es.LastElement? then [CLOSE_BRACKET] + [] else [COMMA] + WriteElements(es.rest, []);
    assert es.after + tail == (es.after + tail0) + k;
    WriteSplits(es.item, es.after + tail);
    WriteSplits(es.item, es.after + tail0);
  }

  lemma {:induction false} WriteMembersSplits(ms: Members, k: Text)
    ensures WriteMembers(ms, k) == WriteMembers(ms, []) + k
  {
    hide Write, WriteChars;
    if ms.NextMember? {
      WriteMembersSplits(ms.rest, k);
    }
    var tail := if ms.LastMember? then [CLOSE_BRACE] + k else [COMMA] + WriteMembers(ms.rest, k);
    var tail0 := if ms.LastMember? then [CLOSE_BRACE] + [] else [COMMA] + WriteMembers(ms.rest, []);
    assert ms.after + tail == (ms.after + tail0) + k;
    WriteSplits(ms.value, ms.after + tail);
    WriteSplits(ms.value, ms.after + tail0);
    var body := ms.afterKey + ([COLON] + (ms.beforeValue + Write(ms.value, ms.after + tail)));
    var body0 := ms.afterKey + ([COLON] + (ms.beforeValue + Write(ms.value, ms.after + tail0)));
    assert body == body0 + k;
    WriteCharsSplits(ms.key, body);
    WriteCharsSplits(ms.key, body0);
  }

  // ---------------------------------------------------------------- distinct keys, in reading order

  predicate Distinct(finite: Text -> bool, x: Syntax)
    requires Valid(finite, x)
  {
    match x
    case FullArray(es) => DistinctElements(finite, es)
    case FullObject(ms) => DistinctMembers(finite, ms, {})
    case _ => true
  }

  predicate DistinctElements(finite: Text -> bool, es: Elements)
    requires ValidElements(finite, es)
  {
    Distinct(finite, es.item) && (es.NextElement? ==> DistinctElements(finite, es.rest))
  }

  predicate DistinctMembers(finite: Text -> bool, ms: Members, seen: set<Text>)
    requires ValidMembers(finite, ms)
  {
    && CharsMeaning(ms.key) !in seen
    && Distinct(finite, ms.value)
    && (ms.NextMember? ==> DistinctMembers(finite, ms.rest, seen + {CharsMeaning(ms.key)}))
  }

  /** The reading-order check is the declarative one: no object of the value repeats a name. */
  lemma {:induction false} DistinctIsUnique(finite: Text -> bool, x: Syntax)
    requires Valid(finite, x)
    ensures Distinct(finite, x) <==> UniqueKeys(Meaning(finite, x))
  {
    match x
    case FullArray(es) =>
      DistinctElementsIsUnique(finite, es);
      var items := ElementsMeaning(finite, es);
      assert UniqueKeys(Array(items)) <==> AllUnique(items);
    case FullObject(ms) =>
      DistinctMembersIsUnique(finite, ms, {});
      var fields := MembersMeaning(finite, ms);
      assert UniqueKeys(Object(fields)) <==> FreshFields(fields, {});
    case _ =>
  }

  ghost predicate AllUnique(items: seq<Json>)
  {
    forall i :: 0 <= i < |items| ==> UniqueKeys(items[i])
  }

  lemma AllUniqueCons(first: Json, more: seq<Json>)
    ensures AllUnique([first] + more) <==> UniqueKeys(first) && AllUnique(more)
  {
    var all := [first] + more;
    assert all[0] == first;
    assert forall i :: 0 <= i < |more| ==> more[i] == all[i + 1];
  }

  lemma {:induction false} DistinctElementsIsUnique(finite: Text -> bool, es: Elements)
    requires ValidElements(finite, es)
    ensures DistinctElements(finite, es) <==> AllUnique(ElementsMeaning(finite, es))
  {
    DistinctIsUnique(finite, es.item);
    if es.NextElement? {
      DistinctElementsIsUnique(finite, es.rest);
      AllUniqueCons(Meaning(finite, es.item), ElementsMeaning(finite, es.rest));
    } else {
      AllUniqueCons(Meaning(finite, es.item), []);
    }
  }

  ghost predicate FreshFields(fields: seq<Field>, seen: set<Text>)
  {
    && (forall i :: 0 <= i < |fields| ==> fields[i].key !in seen)
    && (forall i, j :: 0 <= i < j < |fields| ==> fields[i].key != fields[j].key)
    && (forall i :: 0 <= i < |fields| ==> UniqueKeys(fields[i].value))
  }

  lemma FreshFieldsCons(first: Field, more: seq<Field>, seen: set<Text>)
    ensures FreshFields([first] + more, seen) <==>
      first.key !in seen && UniqueKeys(first.value) && FreshFields(more, seen + {first.key})
  {
    var all := [first] + more;
    assert all[0] == first;
    assert forall i :: 0 <= i < |more| ==> more[i] == all[i + 1];
    if FreshFields(all, seen) {
      forall i | 0 <= i < |more| ensures more[i].key !in seen + {first.key} {
        assert all[0].key != all[i + 1].key;
      }
      forall i, j | 0 <= i < j < |more| ensures more[i].key != more[j].key {
        assert all[i + 1].key != all[j + 1].key;
      }
    }
  }

  lemma {:induction false} DistinctMembersIsUnique(finite: Text -> bool, ms: Members, seen: set<Text>)
    requires ValidMembers(finite, ms)
    ensures DistinctMembers(finite, ms, seen) <==> FreshFields(MembersMeaning(finite, ms), seen)
    decreases ms
  {
    DistinctIsUnique(finite, ms.value);
    var first := Field(CharsMeaning(ms.key), Meaning(finite, ms.value));
    if ms.NextMember? {
      DistinctMembersIsUnique(finite, ms.rest, seen + {first.key});
      FreshFieldsCons(first, MembersMeaning(finite, ms.rest), seen);
    } else {
      FreshFieldsCons(first, [], seen);
    }
  }
}
