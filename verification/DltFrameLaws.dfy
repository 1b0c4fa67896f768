/** An encoder for the frame layout and the laws that tie the reader to it: round trips, framing,
    and what the reader reports on a stream that was cut off. */
module DltFrameLaws {
  import opened Common
  import opened DltFrame

  // ------------------------------------------------------- verbose arguments

  /** A string argument: its type info, its text, and the bytes after the text inside the
      announced length (nothing, or a nul and whatever follows it). */
  datatype Arg = Arg(typeInfo: nat, text: seq<byte>, slack: seq<byte>)

  predicate ValidArg(a: Arg) {
    && a.typeInfo < 0x1_0000_0000 && IsStringType(a.typeInfo)
    && 0 !in a.text && (a.slack == [] || a.slack[0] == 0)
    && |a.text| + |a.slack| < 0x1_0000
  }

  predicate ValidArgs(args: seq<Arg>) { forall a :: a in args ==> ValidArg(a) }

  function EncodeArg(a: Arg, be: bool): seq<byte>
    requires ValidArg(a)
  {
    Put32(be, a.typeInfo) + Put16(be, |a.text| + |a.slack|) + (a.text + a.slack)
  }

  function EncodeArgs(args: seq<Arg>, be: bool): seq<byte>
    requires ValidArgs(args)
  {
    if args == [] then [] else EncodeArg(args[0], be) + EncodeArgs(args[1..], be)
  }

  function Texts(args: seq<Arg>): (r: seq<seq<byte>>)
    ensures |r| == |args|
    ensures forall i :: 0 <= i < |r| ==> r[i] == args[i].text
  {
    if args == [] then [] else [args[0].text] + Texts(args[1..])
  }

  /** The texts with a space between neighbours. */
  function JoinSpaces(texts: seq<seq<byte>>): seq<byte> {
    if texts == [] then []
    else if |texts| == 1 then texts[0]
    else texts[0] + [0x20] + JoinSpaces(texts[1..])
  }

  function DropEmptyHead(texts: seq<seq<byte>>): seq<seq<byte>> {
    if texts != [] && texts[0] == [] then DropEmptyHead(texts[1..]) else texts
  }

  lemma WalkArg(a: Arg, rest: seq<byte>, be: bool, out: seq<byte>)
    requires ValidArg(a)
    ensures Walk(EncodeArg(a, be) + rest, be, out) == Walk(rest, be, AddText(out, a.text))
  {
    var p := EncodeArg(a, be) + rest;
    var end := 6 + |a.text| + |a.slack|;
    assert p[..4] == Put32(be, a.typeInfo);
    assert p[4..6] == Put16(be, |a.text| + |a.slack|);
    assert p[6..end] == a.text + a.slack;
    assert p[end..] == rest;
    assert (a.text + a.slack)[..|a.text|] == a.text;
    BeforeNulIs(a.text + a.slack, |a.text|);
  }

  /** The texts added one by one to the text gathered so far. */
  function Gather(out: seq<byte>, texts: seq<seq<byte>>): seq<byte>
    decreases |texts|
  {
    if texts == [] then out else Gather(AddText(out, texts[0]), texts[1..])
  }

  lemma {:induction false} WalkArgs(args: seq<Arg>, rest: seq<byte>, be: bool, out: seq<byte>)
    requires ValidArgs(args)
    ensures Walk(EncodeArgs(args, be) + rest, be, out) == Walk(rest, be, Gather(out, Texts(args)))
    decreases |args|
  {
    if args == [] {
      assert EncodeArgs(args, be) + rest == rest;
    } else {
      var tail := EncodeArgs(args[1..], be) + rest;
      assert EncodeArgs(args, be) + rest == EncodeArg(args[0], be) + tail;
      WalkArg(args[0], tail, be, out);
      WalkArgs(args[1..], rest, be, AddText(out, args[0].text));
      assert Texts(args)[1..] == Texts(args[1..]);
    }
  }

  lemma {:induction false} GatherOnText(out: seq<byte>, texts: seq<seq<byte>>)
    requires out != []
    ensures Gather(out, texts) == if texts == [] then out else out + [SPACE] + JoinSpaces(texts)
    decreases |texts|
  {
    if texts != [] {
      GatherOnText(AddText(out, texts[0]), texts[1..]);
      if |texts| > 1 {
        assert out + [SPACE] + texts[0] + [SPACE] + JoinSpaces(texts[1..])
            == out + [SPACE] + (texts[0] + [SPACE] + JoinSpaces(texts[1..]));
      }
    }
  }

  lemma {:induction false} GatherJoins(texts: seq<seq<byte>>)
    ensures Gather([], texts) == JoinSpaces(DropEmptyHead(texts))
  {
    if texts != [] {
      assert AddText([], texts[0]) == texts[0];
      if texts[0] == [] {
        GatherJoins(texts[1..]);
      } else {
        GatherOnText(texts[0], texts[1..]);
      }
    }
  }

  /** The decoded text of encoded arguments: the texts joined by spaces, empty leading ones left
      out. With non-empty texts that is simply the joined list; in general it is exactly when
      there is at most one argument or the first text is not empty. */
  lemma ArgumentsRoundTrip(args: seq<Arg>, be: bool)
    requires ValidArgs(args)
    ensures Walk(EncodeArgs(args, be), be, []) == JoinSpaces(DropEmptyHead(Texts(args)))
    ensures Walk(EncodeArgs(args, be), be, []) == JoinSpaces(Texts(args))
            <==> |args| <= 1 || args[0].text != []
  {
    WalkArgs(args, [], be, []);
    GatherJoins(Texts(args));
    assert EncodeArgs(args, be) + [] == EncodeArgs(args, be);
    DropEmptyHeadShortens(Texts(args));
  }

  lemma {:induction false} DropEmptyHeadShortens(texts: seq<seq<byte>>)
    ensures |JoinSpaces(DropEmptyHead(texts))| <= |JoinSpaces(texts)|
    ensures |texts| > 1 && texts[0] == [] ==> |JoinSpaces(DropEmptyHead(texts))| < |JoinSpaces(texts)|
  {
    if texts != [] && texts[0] == [] {
      DropEmptyHeadShortens(texts[1..]);
    }
  }

  // ------------------------------------------------- arguments of any kind

  /** An argument: a string, or one of another type with whatever bytes it consists of. */
  datatype Item = Text(arg: Arg) | Other(typeInfo: nat, data: seq<byte>)

  predicate ValidItem(x: Item) {
    match x
    case Text(arg) => ValidArg(arg)
    case Other(typeInfo, _) => typeInfo < 0x1_0000_0000 && !IsStringType(typeInfo)
  }

  predicate ValidItems(items: seq<Item>) { forall x :: x in items ==> ValidItem(x) }

  function EncodeItem(x: Item, be: bool): seq<byte>
    requires ValidItem(x)
  {
    match x
    case Text(arg) => EncodeArg(arg, be)
    case Other(typeInfo, data) => Put32(be, typeInfo) + data
  }

  function EncodeItems(items: seq<Item>, be: bool): seq<byte>
    requires ValidItems(items)
  {
    if items == [] then [] else EncodeItem(items[0], be) + EncodeItems(items[1..], be)
  }

  /** The texts of all string arguments. */
  function StringTexts(items: seq<Item>): seq<seq<byte>> {
    if items == [] then []
    else (if items[0].Text? then [items[0].arg.text] else []) + StringTexts(items[1..])
  }

  /** The string arguments in front of the first argument of another type. */
  function Leading(items: seq<Item>): (args: seq<Arg>)
    ensures ValidItems(items) ==> ValidArgs(args)
  {
    if items == [] || items[0].Other? then []
    else
      assert items[0] in items && forall x :: x in items[1..] ==> x in items;
      [items[0].arg] + Leading(items[1..])
  }

  /** No string argument follows an argument of another type. */
  predicate StringsFirst(items: seq<Item>) {
    forall i, j :: 0 <= i < j < |items| && items[i].Other? ==> items[j].Other?
  }

  /** The walk stops at the first argument that is not a string, whatever comes after it. */
  lemma WalkStopsAtOther(args: seq<Arg>, p: seq<byte>, be: bool)
    requires ValidArgs(args) && |p| >= 4 && !IsStringType(Get32(be, p[..4]))
    ensures Walk(EncodeArgs(args, be) + p, be, []) == JoinSpaces(DropEmptyHead(Texts(args)))
  {
    WalkArgs(args, p, be, []);
    GatherJoins(Texts(args));
  }

  /** The bytes after the leading strings: nothing, or an argument of another type. */
  lemma {:induction false} SplitLeading(items: seq<Item>, be: bool) returns (rest: seq<byte>)
    requires ValidItems(items)
    ensures EncodeItems(items, be) == EncodeArgs(Leading(items), be) + rest
    ensures rest == [] || (|rest| >= 4 && !IsStringType(Get32(be, rest[..4])))
  {
    if items == [] {
      rest := [];
    } else if items[0].Other? {
      assert items[0] in items;
      rest := EncodeItems(items, be);
      assert rest[..4] == Put32(be, items[0].typeInfo);
    } else {
      assert items[0] in items && forall x :: x in items[1..] ==> x in items;
      rest := SplitLeading(items[1..], be);
      Regroup(EncodeArg(items[0].arg, be), EncodeArgs(Leading(items[1..]), be), rest);
    }
  }

  /** The decoded text of any argument list: the leading strings joined by spaces, empty ones at the
      front left out. */
  lemma DecodedIsLeading(items: seq<Item>, be: bool)
    requires ValidItems(items)
    ensures Walk(EncodeItems(items, be), be, []) == JoinSpaces(DropEmptyHead(Texts(Leading(items))))
  {
    var rest := SplitLeading(items, be);
    if rest == [] {
      assert EncodeArgs(Leading(items), be) + rest == EncodeArgs(Leading(items), be);
      ArgumentsRoundTrip(Leading(items), be);
    } else {
      WalkStopsAtOther(Leading(items), rest, be);
    }
  }

  /** The texts behind the first argument that is not a string. */
  lemma {:induction false} SplitTexts(items: seq<Item>) returns (behind: seq<seq<byte>>)
    ensures StringTexts(items) == Texts(Leading(items)) + behind
    ensures behind == [] <==> StringsFirst(items)
  {
    if items == [] {
      behind := [];
    } else if items[0].Other? {
      behind := StringTexts(items);
      NoTexts(items);
    } else {
      behind := SplitTexts(items[1..]);
      Regroup([items[0].arg.text], Texts(Leading(items[1..])), behind);
      StringsFirstTail(items);
    }
  }

  lemma StringsFirstTail(items: seq<Item>)
    requires items != [] && items[0].Text?
    ensures StringsFirst(items) <==> StringsFirst(items[1..])
  {
    if StringsFirst(items[1..]) {
      forall i, j | 0 <= i < j < |items| && items[i].Other? ensures items[j].Other? {
        assert items[1..][i - 1].Other? && items[1..][j - 1] == items[j];
      }
    }
    if StringsFirst(items) {
      forall i, j | 0 <= i < j < |items| - 1 && items[1..][i].Other? ensures items[1..][j].Other? {
        assert items[i + 1].Other?;
      }
    }
  }

  lemma {:induction false} NoTexts(items: seq<Item>)
    requires items != [] && items[0].Other?
    ensures StringTexts(items) == [] <==> StringsFirst(items)
  {
    AllOther(items);
    if StringsFirst(items) {
      forall i | 0 <= i < |items| ensures items[i].Other? {
        if i > 0 {
          assert items[0].Other?;
        }
      }
    }
  }

  lemma {:induction false} AllOther(items: seq<Item>)
    ensures StringTexts(items) == [] <==> forall i :: 0 <= i < |items| ==> items[i].Other?
  {
    if items != [] {
      AllOther(items[1..]);
      assert forall i :: 1 <= i < |items| ==> items[i] == items[1..][i - 1];
      assert (forall i :: 0 <= i < |items| ==> items[i].Other?)
        <==> items[0].Other? && forall i :: 0 <= i < |items[1..]| ==> items[1..][i].Other?;
    }
  }

  /** What the decoder is documented to give is the join of all string texts, arguments of other
      types skipped. It gives that exactly when no string follows an argument of another type and
      there is at most one string or the first one is not empty; or when the only string is empty. */
  lemma AllStringsDecoded(items: seq<Item>, be: bool)
    requires ValidItems(items)
    ensures var texts := StringTexts(items);
            Walk(EncodeItems(items, be), be, []) == JoinSpaces(texts)
            <==> texts == [[]] || (StringsFirst(items) && (|texts| <= 1 || texts[0] != []))
  {
    DecodedIsLeading(items, be);
    var leading := Texts(Leading(items));
    var behind := SplitTexts(items);
    DropEmptyHeadShortens(leading);
    if behind == [] {
      assert leading + behind == leading;
    } else {
      JoinGrows(leading, behind);
    }
  }

  /** More texts never shorten the join, and lengthen it unless they are the first and all empty. */
  lemma {:induction false} JoinGrows(a: seq<seq<byte>>, b: seq<seq<byte>>)
    requires b != []
    ensures a != [] ==> |JoinSpaces(a + b)| > |JoinSpaces(a)|
    ensures a == [] ==> (|JoinSpaces(a + b)| == 0 <==> b == [[]])
  {
    if a == [] {
      assert a + b == b;
    } else {
      assert (a + b)[1..] == a[1..] + b;
      JoinGrows(a[1..], b);
    }
  }

  lemma ThreeArguments(a: Arg, other: Item, b: Arg)
    requires other.Other?
    ensures var items := [Text(a), other, Text(b)];
            StringTexts(items) == [a.text, b.text] && Leading(items) == [a] && !StringsFirst(items)
  {
    var items := [Text(a), other, Text(b)];
    var two := [other, Text(b)];
    assert items[1..] == two && two[1..] == [Text(b)];
    assert StringTexts([Text(b)]) == [b.text] + StringTexts([]);
    assert StringTexts(two) == StringTexts([Text(b)]);
    assert items[1].Other? && items[2].Text?;
  }

  /** A string behind an argument of another type is lost. */
  lemma StringBehindOtherIsLost(a: Arg, other: Item, b: Arg, be: bool)
    requires ValidArg(a) && ValidItem(other) && other.Other? && ValidArg(b)
    ensures var items := [Text(a), other, Text(b)];
            && ValidItems(items) && StringTexts(items) == [a.text, b.text]
            && Walk(EncodeItems(items, be), be, []) == a.text != JoinSpaces([a.text, b.text])
  {
    var items := [Text(a), other, Text(b)];
    ThreeArguments(a, other, b);
    DecodedIsLeading(items, be);
    AllStringsDecoded(items, be);
    LoneText([a]);
  }

  lemma LoneText(args: seq<Arg>)
    requires |args| == 1
    ensures JoinSpaces(DropEmptyHead(Texts(args))) == args[0].text
  {
  }

  /** For example, of "a", a number and "b" only "a" is decoded. */
  lemma MixedArgumentsExample(be: bool)
    ensures var items := [Text(Arg(0x200, [0x61], [])), Other(0x10, [7]), Text(Arg(0x200, [0x62], []))];
            && ValidItems(items) && StringTexts(items) == [[0x61], [0x62]]
            && Walk(EncodeItems(items, be), be, []) == [0x61]
  {
    StringBehindOtherIsLost(Arg(0x200, [0x61], []), Other(0x10, [7]), Arg(0x200, [0x62], []), be);
  }

  lemma {:induction false} WalkExtends(p: seq<byte>, be: bool, out: seq<byte>)
    ensures out <= Walk(p, be, out)
    decreases |p|
  {
    var arg := FirstArg(p, be);
    if arg.Some? {
      WalkExtends(p[arg.value.size..], be, AddText(out, arg.value.text));
    }
  }

  /** Cutting a payload leaves its first argument as it is, or takes it away. */
  lemma FirstArgOfCut(p: seq<byte>, cut: nat, be: bool)
    requires cut <= |p|
    ensures FirstArg(p[..cut], be) ==
              var arg := FirstArg(p, be);
              if arg.Some? && arg.value.size <= cut then arg else None
  {
    if cut >= 6 {
      TakeOfTake(p, cut, 4);
      SliceOfTake(p, cut, 4, 6);
      var size := 6 + Get16(be, p[4..6]);
      if size <= cut {
        SliceOfTake(p, cut, 6, size);
      }
    }
  }

  /** Cutting a payload anywhere leaves a prefix of its text. */
  lemma {:induction false} CutPayloadGivesTextPrefix(p: seq<byte>, cut: nat, be: bool, out: seq<byte>)
    requires cut <= |p|
    ensures Walk(p[..cut], be, out) <= Walk(p, be, out)
    decreases |p|
  {
    FirstArgOfCut(p, cut, be);
    var arg := FirstArg(p, be);
    if arg.Some? && arg.value.size <= cut {
      var size := arg.value.size;
      SliceOfTake(p, cut, 0, size);
      CutPayloadGivesTextPrefix(p[size..], cut - size, be, AddText(out, arg.value.text));
    } else {
      WalkExtends(p, be, out);
    }
  }

  // ----------------------------------------------------------------- frames

  datatype Extended = Extended(msin: byte, noar: byte, apid: seq<byte>, ctid: seq<byte>)

  datatype Frame = Frame(version: nat, msbFirst: bool, counter: byte,
                         ecu: Option<seq<byte>>, session: Option<seq<byte>>, stamp: Option<seq<byte>>,
                         extended: Option<Extended>, payload: seq<byte>)

  datatype Stored = Stored(secs: nat, usecs: nat, ecu: seq<byte>, frame: Frame)

  predicate FourBytes(field: Option<seq<byte>>) { field.Some? ==> |field.value| == 4 }

  predicate ValidFrame(f: Frame) {
    && f.version < 8 && FourBytes(f.ecu) && FourBytes(f.session) && FourBytes(f.stamp)
    && (f.extended.Some? ==> |f.extended.value.apid| == |f.extended.value.ctid| == 4)
    && |Body(f)| + 4 < 0x1_0000
  }

  predicate ValidStored(s: Stored) {
    s.secs < 0x1_0000_0000 && s.usecs < 0x1_0000_0000 && |s.ecu| == 4 && ValidFrame(s.frame)
  }

  function Bit(on: bool, weight: nat): nat { if on then weight else 0 }

  function Field(field: Option<seq<byte>>): seq<byte> { if field.Some? then field.value else [] }

  function Htyp(f: Frame): nat {
    Bit(f.extended.Some?, 1) + Bit(f.msbFirst, 2) + Bit(f.ecu.Some?, 4) + Bit(f.session.Some?, 8)
    + Bit(f.stamp.Some?, 16) + 32 * f.version
  }

  function ExtendedBytes(f: Frame): seq<byte> {
    match f.extended
    case None => []
    case Some(x) => [x.msin, x.noar] + x.apid + x.ctid
  }

  function OptionalBytes(f: Frame): seq<byte> { Field(f.ecu) + Field(f.session) + Field(f.stamp) }

  function Body(f: Frame): seq<byte> { OptionalBytes(f) + (ExtendedBytes(f) + f.payload) }

  function EncodeWire(f: Frame): seq<byte>
    requires ValidFrame(f)
  {
    [Htyp(f) as int, f.counter] + Put16(true, 4 + |Body(f)|) + Body(f)
  }

  function StorageHeader(s: Stored): (b: seq<byte>)
    requires ValidStored(s)
    ensures |b| == STORAGE_HEADER
  {
    [0x44, 0x4C, 0x54, 0x01] + Put32(false, s.secs) + Put32(false, s.usecs) + s.ecu
  }

  function EncodeStored(s: Stored): seq<byte>
    requires ValidStored(s)
  {
    StorageHeader(s) + EncodeWire(s.frame)
  }

  /** What a reader should make of a frame. */
  function Meaning(f: Frame): DltMessage {
    var verbose := f.extended.Some? && Flag(f.extended.value.msin, 1);
    DltMessage(0, BeforeNul(Field(f.ecu)),
               if f.extended.Some? then BeforeNul(f.extended.value.apid) else [],
               if f.extended.Some? then BeforeNul(f.extended.value.ctid) else [],
               verbose,
               if verbose then Walk(f.payload, f.msbFirst, []) else [])
  }

  function StoredMeaning(s: Stored): DltMessage {
    var m := Meaning(s.frame);
    m.(timestamp := WallClock(s.secs, s.usecs), ecuId := if m.ecuId == [] then BeforeNul(s.ecu) else m.ecuId)
  }

  lemma HtypFlags(f: Frame)
    requires f.version < 8
    ensures var h := Htyp(f);
            && h < 256 && Flag(h, 1) == f.extended.Some? && Flag(h, 2) == f.msbFirst && Flag(h, 4) == f.ecu.Some?
            && Flag(h, 8) == f.session.Some? && Flag(h, 16) == f.stamp.Some?
  {
    FlagsOf(Bit(f.extended.Some?, 1), Bit(f.msbFirst, 1), Bit(f.ecu.Some?, 1), Bit(f.session.Some?, 1),
            Bit(f.stamp.Some?, 1), f.version, Htyp(f));
  }

  lemma FlagsOf(a: nat, b: nat, c: nat, d: nat, e: nat, v: nat, h: nat)
    requires a < 2 && b < 2 && c < 2 && d < 2 && e < 2
    requires h == a + 2 * b + 4 * c + 8 * d + 16 * e + 32 * v
    ensures Flag(h, 1) == (a == 1) && Flag(h, 2) == (b == 1) && Flag(h, 4) == (c == 1)
            && Flag(h, 8) == (d == 1) && Flag(h, 16) == (e == 1)
  {
    Halve(h, a, b + 2 * (c + 2 * d + 4 * e + 8 * v));
    Halve(h / 2, b, c + 2 * (d + 2 * e + 4 * v));
    Halve(h / 4, c, d + 2 * (e + 2 * v));
    Halve(h / 8, d, e + 2 * v);
    Halve(h / 16, e, v);
    assert h / 2 / 2 == h / 4 && h / 4 / 2 == h / 8 && h / 8 / 2 == h / 16;
  }

  lemma Halve(n: nat, bit: nat, rest: nat)
    requires n == bit + 2 * rest && bit < 2
    ensures n / 2 == rest && n % 2 == bit
  {
  }

  /** Where the fields of an extended header lie in a body. */
  lemma SlicesOfBody<T>(optional: seq<T>, head: seq<T>, apid: seq<T>, ctid: seq<T>, payload: seq<T>)
    requires |head| == 2 && |apid| == 4 && |ctid| == 4
    ensures var body, n := optional + (head + apid + ctid + payload), |optional|;
            && body[n] == head[0] && body[n + 2..n + 6] == apid && body[n + 6..n + 10] == ctid
            && body[n + 10..] == payload
  {
  }

  lemma EcuOfBody(f: Frame)
    requires ValidFrame(f)
    ensures |OptionalBytes(f)| == OptionalSize(Htyp(f))
    ensures f.ecu.Some? ==> Body(f)[..4] == f.ecu.value
  {
    HtypFlags(f);
  }

  lemma ExtendedOfBody(f: Frame)
    requires ValidFrame(f) && f.extended.Some?
    ensures var body, n, x := Body(f), |OptionalBytes(f)|, f.extended.value;
            && |body| >= n + 10 && body[n] == x.msin && body[n + 2..n + 6] == x.apid && body[n + 6..n + 10] == x.ctid
            && body[n + 10..] == f.payload
  {
    var x := f.extended.value;
    SlicesOfBody(OptionalBytes(f), [x.msin, x.noar], x.apid, x.ctid, f.payload);
  }

  lemma BodyRoundTrip(f: Frame)
    requires ValidFrame(f)
    ensures DecodeBody(Htyp(f), Body(f)) == Ok(Meaning(f))
  {
    HtypFlags(f);
    EcuOfBody(f);
    if f.extended.Some? {
      ExtendedOfBody(f);
    }
  }

  /** A stream that begins with four bytes and as many more as they announce. */
  lemma DecodeWireParts(std: seq<byte>, body: seq<byte>, rest: seq<byte>)
    requires |std| == 4 && Get16(true, std[2..4]) == 4 + |body|
    ensures DecodeWire(std + body + rest) == (DecodeBody(std[0], body), rest)
  {
    var s := std + body + rest;
    assert s[..4] == std && s[4..] == body + rest;
    assert s[4..][..|body|] == body && s[4..][|body|..] == rest;
  }

  /** Decoding an encoded frame gives its meaning and leaves exactly what follows the frame. */
  lemma WireRoundTrip(f: Frame, rest: seq<byte>)
    requires ValidFrame(f)
    ensures DecodeWire(EncodeWire(f) + rest) == (Ok(Meaning(f)), rest)
  {
    HtypFlags(f);
    var length := Put16(true, 4 + |Body(f)|);
    var std := [Htyp(f) as int, f.counter] + length;
    assert std[2..4] == length;
    DecodeWireParts(std, Body(f), rest);
    BodyRoundTrip(f);
  }

  /** Behind a storage header with the right magic comes a wire frame. */
  lemma DecodeFileAfter(h: seq<byte>, w: seq<byte>)
    requires |h| == STORAGE_HEADER && h[..4] == STORAGE_MAGIC
    ensures var (frame, rest) := DecodeWire(w);
            DecodeFile(h + w) == (if frame.Err? then frame else Ok(AddStorage(h, frame.value)), rest)
  {
    var b := h + w;
    assert b[..16] == h && b[16..] == w;
  }

  lemma StoredRoundTrip(s: Stored, rest: seq<byte>)
    requires ValidStored(s)
    ensures DecodeFile(EncodeStored(s) + rest) == (Ok(StoredMeaning(s)), rest)
  {
    var h := StorageHeader(s);
    Regroup(h, EncodeWire(s.frame), rest);
    StorageFields(s);
    DecodeFileAfter(h, EncodeWire(s.frame) + rest);
    WireRoundTrip(s.frame, rest);
  }

  /** The time stamp of a stored frame: whole seconds and the microseconds within the second. */
  lemma StampIsWallClock(s: Stored)
    requires s.usecs < 1_000_000
    ensures StoredMeaning(s).timestamp / 1_000_000_000 == s.secs
    ensures StoredMeaning(s).timestamp % 1_000_000_000 == 1_000 * s.usecs
  {
    var rest := 1_000 * s.usecs;
    assert StoredMeaning(s).timestamp == 1_000_000_000 * s.secs + rest;
  }

  /** What is no frame is refused after its fixed bytes: a storage header that does not begin with
      "DLT" and 1, and a standard header that announces less than its own four bytes. */
  lemma MalformedHeaders(h: seq<byte>, rest: seq<byte>)
    ensures |h| == 16 && h[..4] != [0x44, 0x4C, 0x54, 0x01] ==> DecodeFile(h + rest) == (Err(BadMagic), rest)
    ensures |h| == 4 && h[2] == 0 && h[3] < 4 ==> DecodeWire(h + rest) == (Err(BogusLength), rest)
  {
    var b := h + rest;
    assert b[..|h|] == h && b[|h|..] == rest;
    assert |h| == 4 ==> h[2..4] == [h[2], h[3]];
  }

  lemma StorageFields(s: Stored)
    requires ValidStored(s)
    ensures var h := StorageHeader(s);
            && h[..4] == STORAGE_MAGIC && h[12..16] == s.ecu
            && h[4..8] == Put32(false, s.secs) && h[8..12] == Put32(false, s.usecs)
  {
  }

  // ---------------------------------------------------------------- streams

  function EncodeAll(frames: seq<Stored>): seq<byte>
    requires forall f :: f in frames ==> ValidStored(f)
  {
    if frames == [] then [] else EncodeStored(frames[0]) + EncodeAll(frames[1..])
  }

  function Meanings(frames: seq<Stored>): (r: seq<DltMessage>)
    ensures |r| == |frames| && forall i :: 0 <= i < |r| ==> r[i] == StoredMeaning(frames[i])
  {
    if frames == [] then [] else [StoredMeaning(frames[0])] + Meanings(frames[1..])
  }

  lemma DecodeFileShrinks(s: seq<byte>)
    ensures DecodeFile(s).0.Ok? ==> |DecodeFile(s).1| < |s|
  {
  }

  /** Reading frames until the first error: the decoded frames, and the error. */
  function DecodeAll(s: seq<byte>): (seq<DltMessage>, ReadError)
    decreases |s|
  {
    var (frame, rest) := DecodeFile(s);
    if frame.Err? then ([], frame.error)
    else
      DecodeFileShrinks(s);
      var (more, error) := DecodeAll(rest);
      ([frame.value] + more, error)
  }

  lemma EncodeAllCons(frames: seq<Stored>, rest: seq<byte>)
    requires frames != [] && forall f :: f in frames ==> ValidStored(f)
    ensures EncodeAll(frames) + rest == EncodeStored(frames[0]) + (EncodeAll(frames[1..]) + rest)
  {
    Regroup(EncodeStored(frames[0]), EncodeAll(frames[1..]), rest);
  }

  lemma DecodeAllCons(s: Stored, tail: seq<byte>)
    requires ValidStored(s)
    ensures DecodeAll(EncodeStored(s) + tail) == ([StoredMeaning(s)] + DecodeAll(tail).0, DecodeAll(tail).1)
  {
    StoredRoundTrip(s, tail);
  }

  /** Decoding a concatenation of frames yields the frames in order and goes on with the rest. */
  lemma {:induction false} StreamRoundTrip(frames: seq<Stored>, rest: seq<byte>)
    requires forall f :: f in frames ==> ValidStored(f)
    ensures DecodeAll(EncodeAll(frames) + rest) == (Meanings(frames) + DecodeAll(rest).0, DecodeAll(rest).1)
    decreases |frames|
  {
    if frames == [] {
      assert EncodeAll(frames) + rest == rest;
      assert [] + DecodeAll(rest).0 == DecodeAll(rest).0;
    } else {
      var tail := EncodeAll(frames[1..]) + rest;
      EncodeAllCons(frames, rest);
      ghost var first, more := [StoredMeaning(frames[0])], Meanings(frames[1..]);
      assert Meanings(frames) == first + more;
      DecodeAllCons(frames[0], tail);
      assert forall f :: f in frames[1..] ==> f in frames;
      StreamRoundTrip(frames[1..], rest);
      Regroup(first, more, DecodeAll(rest).0);
    }
  }

  /** A concatenation of frames decodes to the frames in order and then the end of the stream. */
  lemma ConcatenationDecodes(frames: seq<Stored>)
    requires forall f :: f in frames ==> ValidStored(f)
    ensures DecodeAll(EncodeAll(frames)) == (Meanings(frames), Eof)
  {
    StreamRoundTrip(frames, []);
    assert EncodeAll(frames) + [] == EncodeAll(frames);
    assert DecodeAll([]) == ([], Eof);
    assert Meanings(frames) + [] == Meanings(frames);
  }

  function EncodeWires(frames: seq<Frame>): seq<byte>
    requires forall f :: f in frames ==> ValidFrame(f)
  {
    if frames == [] then [] else EncodeWire(frames[0]) + EncodeWires(frames[1..])
  }

  function WireMeanings(frames: seq<Frame>): (r: seq<DltMessage>)
    ensures |r| == |frames| && forall i :: 0 <= i < |r| ==> r[i] == Meaning(frames[i])
  {
    if frames == [] then [] else [Meaning(frames[0])] + WireMeanings(frames[1..])
  }

  lemma DecodeWireShrinks(s: seq<byte>)
    ensures DecodeWire(s).0.Ok? ==> |DecodeWire(s).1| < |s|
  {
  }

  /** Reading wire frames until the first error. */
  function DecodeWires(s: seq<byte>): (seq<DltMessage>, ReadError)
    decreases |s|
  {
    var (frame, rest) := DecodeWire(s);
    if frame.Err? then ([], frame.error)
    else
      DecodeWireShrinks(s);
      var (more, error) := DecodeWires(rest);
      ([frame.value] + more, error)
  }

  lemma DecodeWiresCons(f: Frame, tail: seq<byte>)
    requires ValidFrame(f)
    ensures DecodeWires(EncodeWire(f) + tail) == ([Meaning(f)] + DecodeWires(tail).0, DecodeWires(tail).1)
  {
    WireRoundTrip(f, tail);
  }

  /** A live stream of frames yields the frames in order and goes on with the rest. */
  lemma {:induction false} WireStreamRoundTrip(frames: seq<Frame>, rest: seq<byte>)
    requires forall f :: f in frames ==> ValidFrame(f)
    ensures DecodeWires(EncodeWires(frames) + rest) == (WireMeanings(frames) + DecodeWires(rest).0, DecodeWires(rest).1)
    decreases |frames|
  {
    if frames == [] {
      assert EncodeWires(frames) + rest == rest;
      assert [] + DecodeWires(rest).0 == DecodeWires(rest).0;
    } else {
      var tail := EncodeWires(frames[1..]) + rest;
      Regroup(EncodeWire(frames[0]), EncodeWires(frames[1..]), rest);
      ghost var first, more := [Meaning(frames[0])], WireMeanings(frames[1..]);
      assert WireMeanings(frames) == first + more;
      DecodeWiresCons(frames[0], tail);
      assert forall f :: f in frames[1..] ==> f in frames;
      WireStreamRoundTrip(frames[1..], rest);
      Regroup(first, more, DecodeWires(rest).0);
    }
  }

  /** A live stream of frames yields exactly the frames and then the end of the stream. */
  lemma WiresDecode(frames: seq<Frame>)
    requires forall f :: f in frames ==> ValidFrame(f)
    ensures DecodeWires(EncodeWires(frames)) == (WireMeanings(frames), Eof)
  {
    WireStreamRoundTrip(frames, []);
    assert EncodeWires(frames) + [] == EncodeWires(frames);
    assert DecodeWires([]) == ([], Eof);
    assert WireMeanings(frames) + [] == WireMeanings(frames);
  }

  /** Whatever the bytes mean, a frame whose announced bytes are all there is consumed exactly to
      its announced length, also when its headers do not fit. */
  lemma FramingIgnoresContent(s: seq<byte>)
    requires |s| >= 4
    ensures var length := Get16(true, s[2..4]);
            4 <= length <= |s| ==> DecodeWire(s).1 == s[length..]
                                   && (DecodeWire(s).0.Err? ==> DecodeWire(s).0.error == UnexpectedEof)
  {
    assert s[..4][2..4] == s[2..4];
    var length := Get16(true, s[2..4]);
    if 4 <= length <= |s| {
      assert s[4..][length - 4..] == s[length..];
    }
  }

  /** A well-formed frame cut short never decodes. The reader is documented to report a non-EOF
      error for it, but where the cut falls on a header boundary (nothing, the storage header, or
      the storage header and the four fixed bytes) it reports the clean end of the stream. */
  lemma CutFrameReport(s: Stored, cut: nat)
    requires ValidStored(s) && cut < |EncodeStored(s)|
    ensures var res := DecodeFile(EncodeStored(s)[..cut]).0;
            && res.Err?
            && (res.error == Eof <==> cut in {0, 16, 20})
            && (res.error == UnexpectedEof <==> cut !in {0, 16, 20})
  {
    if cut >= 16 {
      CutAfterStorage(StorageHeader(s), EncodeWire(s.frame), cut);
      CutWireReport(s.frame, cut - 16);
    }
  }

  /** Past a whole storage header the report is that of the frame's own bytes. */
  lemma CutAfterStorage(h: seq<byte>, w: seq<byte>, cut: nat)
    requires |h| == STORAGE_HEADER && h[..4] == STORAGE_MAGIC && 16 <= cut <= |h + w|
    ensures DecodeFile((h + w)[..cut]).0.Err? <==> DecodeWire(w[..cut - 16]).0.Err?
    ensures DecodeFile((h + w)[..cut]).0.Err? ==> DecodeFile((h + w)[..cut]).0 == DecodeWire(w[..cut - 16]).0
  {
    var b := (h + w)[..cut];
    assert b[..16] == h && b[16..] == w[..cut - 16];
  }

  lemma CutWireReport(f: Frame, cut: nat)
    requires ValidFrame(f) && cut < |EncodeWire(f)|
    ensures var res := DecodeWire(EncodeWire(f)[..cut]).0;
            && res.Err?
            && (res.error == Eof <==> cut in {0, 4})
            && (res.error == UnexpectedEof <==> cut !in {0, 4})
  {
    var b := EncodeWire(f)[..cut];
    if cut >= 4 {
      assert b[..4] == EncodeWire(f)[..4];
      assert EncodeWire(f)[..4][2..4] == Put16(true, 4 + |Body(f)|);
    }
  }
}
