/** The grammar of RFC 8259 (sections 2 to 7) as a datatype with a printer, and what the
    bracket scanner does on the texts it derives. */
module JsonGrammar {
  import opened Common
  import opened JsonScan

  const QUOTATION_MARK: byte := 0x22
  const ESCAPE: byte := 0x5C
  const COMMA: byte := 0x2C
  const COLON: byte := 0x3A

  /** number = [ minus ] int [ frac ] [ exp ] */
  datatype Number = Number(minus: bool, whole: seq<byte>, frac: seq<byte>, exp: seq<byte>)

  datatype Json =
    | Null | True | False
    | Num(number: Number)
    | Str(chars: seq<Unit>)
    | Array(pad: seq<byte>, elements: Elements)
    | Object(pad: seq<byte>, members: Members)

  /** A value with the white space around it. */
  datatype Spaced = Spaced(before: seq<byte>, value: Json, after: seq<byte>)

  /** The comma-separated values of an array. */
  datatype Elements = NoElements | Element(item: Spaced, others: Elements)

  /** The comma-separated name/value pairs of an object, with the white space around the names. */
  datatype Members =
    | NoMembers
    | Member(before: seq<byte>, name: seq<Unit>, gap: seq<byte>, item: Spaced, others: Members)

  // ------------------------------------------------------------ token rules

  predicate IsDigit(c: byte) { 0x30 <= c <= 0x39 }

  predicate IsWhitespace(s: seq<byte>) {
    forall c :: c in s ==> c == 0x20 || c == 0x09 || c == 0x0A || c == 0x0D
  }

  predicate Digits(s: seq<byte>) {
    s != [] && forall c :: c in s ==> IsDigit(c)
  }

  predicate ValidNumber(n: Number) {
    && Digits(n.whole) && (n.whole[0] == 0x30 ==> |n.whole| == 1)
    && (n.frac == [] || (n.frac[0] == 0x2E && Digits(n.frac[1..])))
    && (n.exp == [] ||
        (n.exp[0] in [0x45, 0x65] && |n.exp| > 1 &&
         (Digits(n.exp[1..]) || (n.exp[1] in [0x2B, 0x2D] && Digits(n.exp[2..])))))
  }

  /** unescaped = %x20-21 / %x23-5B / %x5D-10FFFF (any byte of a multi-byte character);
      escapes are one of "\/bfnrtu (the four digits after \u are unescaped units). */
  predicate ValidChars(units: seq<Unit>) {
    forall i :: 0 <= i < |units| ==>
      match units[i]
      case Raw(c) => c >= 0x20 && c != QUOTATION_MARK && c != ESCAPE
      case Escape(c) =>
        || c in [QUOTATION_MARK, ESCAPE, 0x2F, 0x62, 0x66, 0x6E, 0x72, 0x74]
        || (c == 0x75 && i + 4 < |units| && forall j :: i < j <= i + 4 ==> units[j].Raw? && IsHexDigit(units[j].c))
  }

  predicate IsHexDigit(c: byte) { IsDigit(c) || 0x41 <= c <= 0x46 || 0x61 <= c <= 0x66 }

  predicate Valid(v: Json) {
    match v
    case Num(n) => ValidNumber(n)
    case Str(chars) => ValidChars(chars)
    case Array(pad, elements) => IsWhitespace(pad) && ValidElements(elements)
    case Object(pad, members) => IsWhitespace(pad) && ValidMembers(members)
    case _ => true
  }

  predicate ValidSpaced(s: Spaced) {
    IsWhitespace(s.before) && Valid(s.value) && IsWhitespace(s.after)
  }

  predicate ValidElements(e: Elements) {
    e.Element? ==> ValidSpaced(e.item) && ValidElements(e.others)
  }

  predicate ValidMembers(m: Members) {
    m.Member? ==>
      && IsWhitespace(m.before) && ValidChars(m.name) && IsWhitespace(m.gap)
      && ValidSpaced(m.item) && ValidMembers(m.others)
  }

  // ---------------------------------------------------------------- printer

  function NumberBytes(n: Number): seq<byte> {
    (if n.minus then [0x2D] else []) + n.whole + n.frac + n.exp
  }

  /** A number or one of the three literal names. */
  function Scalar(v: Json): seq<byte> {
    match v
    case Num(n) => NumberBytes(n)
    case True => [0x74, 0x72, 0x75, 0x65]
    case False => [0x66, 0x61, 0x6C, 0x73, 0x65]
    case _ => [0x6E, 0x75, 0x6C, 0x6C]
  }

  /** string = quotation-mark *char quotation-mark */
  function PrintString(chars: seq<Unit>, tail: seq<byte>): seq<byte> {
    [QUOTATION_MARK] + PrintChars(chars, [QUOTATION_MARK] + tail)
  }

  /** char = unescaped / escape and the byte it escapes */
  function PrintChars(chars: seq<Unit>, tail: seq<byte>): seq<byte> {
    if chars == [] then tail
    else
      var rest := PrintChars(chars[1..], tail);
      if chars[0].Raw? then [chars[0].c] + rest else [ESCAPE, chars[0].c] + rest
  }

  /** The bytes of `v` followed by `tail`. */
  function Print(v: Json, tail: seq<byte>): seq<byte> {
    match v
    case Str(chars) => PrintString(chars, tail)
    case Array(pad, elements) => [0x5B] + (pad + PrintElements(elements, [], [0x5D] + tail))
    case Object(pad, members) => [0x7B] + (pad + PrintMembers(members, [], [0x7D] + tail))
    case _ => Scalar(v) + tail
  }

  /** `separator` is empty before the first element and a comma before the others. */
  function PrintElements(e: Elements, separator: seq<byte>, tail: seq<byte>): seq<byte> {
    match e
    case NoElements => tail
    case Element(item, others) =>
      separator + PrintSpaced(item, PrintElements(others, [COMMA], tail))
  }

  function PrintMembers(m: Members, separator: seq<byte>, tail: seq<byte>): seq<byte> {
    match m
    case NoMembers => tail
    case Member(before, name, gap, item, others) =>
      var value := [COLON] + PrintSpaced(item, PrintMembers(others, [COMMA], tail));
      separator + (before + PrintString(name, gap + value))
  }

  function PrintSpaced(s: Spaced, tail: seq<byte>): seq<byte> {
    s.before + Print(s.value, s.after + tail)
  }

  // ------------------------------------- every derived text is balanced text

  predicate NoStructure(s: seq<byte>) {
    forall c :: c in s ==> c != QUOTATION_MARK && !IsOpen(c) && !IsClose(c)
  }

  /** `s` written in front of `t`. */
  function Prepend(s: seq<byte>, t: Text): (r: Text)
    requires t.Valid()
    ensures NoStructure(s) ==> r.Valid()
  {
    if s == [] then t
    else
      assert s[0] in s && forall c :: c in s[1..] ==> c in s;
      Plain(s[0], Prepend(s[1..], t))
  }

  lemma {:induction false} PrependPrints(s: seq<byte>, t: Text, tail: seq<byte>)
    requires t.Valid()
    ensures Prepend(s, t).Onto(tail) == s + t.Onto(tail)
  {
    if s != [] {
      PrependPrints(s[1..], t, tail);
      assert s == [s[0]] + s[1..];
    }
  }

  lemma ScalarHasNoStructure(v: Json)
    requires Valid(v)
    ensures NoStructure(Scalar(v))
  {
    if v.Num? {
      NumberHasNoStructure(v.number);
    }
  }

  lemma NumberHasNoStructure(n: Number)
    requires ValidNumber(n)
    ensures NoStructure(NumberBytes(n))
  {
    assert n.frac == [] || n.frac == [n.frac[0]] + n.frac[1..];
    assert n.exp == [] || n.exp == [n.exp[0]] + n.exp[1..] == [n.exp[0], n.exp[1]] + n.exp[2..];
  }

  /** The value in front of `t`, as balanced text. */
  function Embed(v: Json, t: Text): (r: Text)
    requires Valid(v) && t.Valid()
    ensures r.Valid()
  {
    match v
    case Str(chars) => Quoted(chars, t)
    case Array(pad, elements) => Nested(0x5B, Prepend(pad, EmbedElements(elements, [], End)), 0x5D, t)
    case Object(pad, members) => Nested(0x7B, Prepend(pad, EmbedMembers(members, [], End)), 0x7D, t)
    case _ =>
      ScalarHasNoStructure(v);
      Prepend(Scalar(v), t)
  }

  function EmbedElements(e: Elements, separator: seq<byte>, t: Text): (r: Text)
    requires ValidElements(e) && NoStructure(separator) && t.Valid()
    ensures r.Valid()
  {
    match e
    case NoElements => t
    case Element(item, others) =>
      Prepend(separator, EmbedSpaced(item, EmbedElements(others, [COMMA], t)))
  }

  function EmbedMembers(m: Members, separator: seq<byte>, t: Text): (r: Text)
    requires ValidMembers(m) && NoStructure(separator) && t.Valid()
    ensures r.Valid()
  {
    match m
    case NoMembers => t
    case Member(before, name, gap, item, others) =>
      var value := Prepend([COLON], EmbedSpaced(item, EmbedMembers(others, [COMMA], t)));
      Prepend(separator, Prepend(before, Quoted(name, Prepend(gap, value))))
  }

  function EmbedSpaced(s: Spaced, t: Text): (r: Text)
    requires ValidSpaced(s) && t.Valid()
    ensures r.Valid()
  {
    Prepend(s.before, Embed(s.value, Prepend(s.after, t)))
  }

  lemma {:induction false} PrintCharsAreUnits(chars: seq<Unit>, tail: seq<byte>)
    ensures PrintChars(chars, tail) == UnitsOnto(chars, tail)
  {
    if chars != [] {
      PrintCharsAreUnits(chars[1..], tail);
    }
  }

  lemma {:induction false} EmbedPrints(v: Json, t: Text, tail: seq<byte>)
    requires Valid(v) && t.Valid()
    ensures Embed(v, t).Onto(tail) == Print(v, t.Onto(tail))
  {
    match v
    case Str(chars) => PrintCharsAreUnits(chars, [QUOTATION_MARK] + t.Onto(tail));
    case Array(pad, elements) =>
      var rest := [0x5D] + t.Onto(tail);
      PrependPrints(pad, EmbedElements(elements, [], End), rest);
      EmbedElementsPrints(elements, [], End, rest);
    case Object(pad, members) =>
      var rest := [0x7D] + t.Onto(tail);
      PrependPrints(pad, EmbedMembers(members, [], End), rest);
      EmbedMembersPrints(members, [], End, rest);
    case _ => PrependPrints(Scalar(v), t, tail);
  }

  lemma {:induction false} EmbedElementsPrints(e: Elements, separator: seq<byte>, t: Text, tail: seq<byte>)
    requires ValidElements(e) && NoStructure(separator) && t.Valid()
    ensures EmbedElements(e, separator, t).Onto(tail) == PrintElements(e, separator, t.Onto(tail))
  {
    if e.Element? {
      var rest := EmbedElements(e.others, [COMMA], t);
      PrependPrints(separator, EmbedSpaced(e.item, rest), tail);
      EmbedSpacedPrints(e.item, rest, tail);
      EmbedElementsPrints(e.others, [COMMA], t, tail);
    }
  }

  lemma {:induction false} EmbedMembersPrints(m: Members, separator: seq<byte>, t: Text, tail: seq<byte>)
    requires ValidMembers(m) && NoStructure(separator) && t.Valid()
    ensures EmbedMembers(m, separator, t).Onto(tail) == PrintMembers(m, separator, t.Onto(tail))
  {
    if m.Member? {
      var rest := EmbedMembers(m.others, [COMMA], t);
      EmbedMembersPrints(m.others, [COMMA], t, tail);
      EmbedSpacedPrints(m.item, rest, tail);
      var value := Prepend([COLON], EmbedSpaced(m.item, rest));
      PrependPrints([COLON], EmbedSpaced(m.item, rest), tail);
      NamePrints(separator, m.before, m.name, m.gap, value, tail);
    }
  }

  lemma NamePrints(separator: seq<byte>, before: seq<byte>, name: seq<Unit>, gap: seq<byte>, value: Text,
                   tail: seq<byte>)
    requires NoStructure(separator) && IsWhitespace(before) && ValidChars(name) && IsWhitespace(gap) && value.Valid()
    ensures Prepend(separator, Prepend(before, Quoted(name, Prepend(gap, value)))).Onto(tail)
         == separator + (before + PrintString(name, gap + value.Onto(tail)))
  {
    PrintCharsAreUnits(name, [QUOTATION_MARK] + (gap + value.Onto(tail)));
    var quoted := Quoted(name, Prepend(gap, value));
    PrependPrints(gap, value, tail);
    PrependPrints(before, quoted, tail);
    PrependPrints(separator, Prepend(before, quoted), tail);
  }

  lemma {:induction false} EmbedSpacedPrints(s: Spaced, t: Text, tail: seq<byte>)
    requires ValidSpaced(s) && t.Valid()
    ensures EmbedSpaced(s, t).Onto(tail) == PrintSpaced(s, t.Onto(tail))
  {
    var after := Prepend(s.after, t);
    PrependPrints(s.before, Embed(s.value, after), tail);
    EmbedPrints(s.value, after, tail);
    PrependPrints(s.after, t, tail);
  }

  /** Every JSON text (a value between white space) passes the scanner. */
  lemma EveryJsonTextIsAccepted(before: seq<byte>, v: Json, after: seq<byte>)
    requires IsWhitespace(before) && Valid(v) && IsWhitespace(after)
    ensures Accepts(before + Print(v, after))
  {
    var text := Spaced(before, v, after);
    EmbedSpacedPrints(text, End, []);
    assert after + [] == after;
    assert Balanced(before + Print(v, after));
    AcceptsExactlyBalanced(before + Print(v, after));
  }

  /** Of a printed object or array the scanner accepts the whole and rejects every non-empty
      proper prefix, wherever the cut falls. */
  lemma EveryCutOfContainerIsRejected(v: Json, cut: nat)
    requires Valid(v) && (v.Array? || v.Object?)
    requires cut <= |Print(v, [])|
    ensures Accepts(Print(v, [])[..cut]) <==> cut == 0 || cut == |Print(v, [])|
  {
    var t := Embed(v, End);
    EmbedPrints(v, End, []);
    EveryTruncationIsRejected(t.open, t.inner, t.close, cut);
  }

  /** The scan neither pairs bracket kinds nor checks anything between them, so it also accepts
      texts that are no JSON, such as `[}`. */
  lemma AcceptsMoreThanJson()
    ensures Accepts([0x5B, 0x7D])
  {
    assert Run(At(1), [0x5B, 0x7D][1..]) == At(0);
  }
}
