/** The APID/CTID filter of the live DLT source (internal/capture/source_dlt.go): parser, printer
    and matching. */
module DltFilter {
  import opened Common

  datatype Rule = Rule(apid: string, ctid: string)

  /** The rules of a filter; an empty CTID stands for any. */
  type Filter = seq<Rule>

  datatype Parsed = Ok(filter: Filter) | EmptyApid(part: string) | NameTooLong(part: string)

  // -------------------------------------------------------- string functions

  /** unicode.IsSpace. */
  predicate IsSpace(c: char) {
    var n := c as int;
    || 0x09 <= n <= 0x0D || n == 0x20 || n == 0x85 || n == 0xA0 || n == 0x1680 || 0x2000 <= n <= 0x200A
    || n == 0x2028 || n == 0x2029 || n == 0x202F || n == 0x205F || n == 0x3000
  }

  predicate Trimmed(s: string) { s == "" || (!IsSpace(s[0]) && !IsSpace(s[|s| - 1])) }

  function TrimLeft(s: string): (r: string)
    ensures r == "" || !IsSpace(r[0])
    ensures |r| <= |s| && r == s[|s| - |r|..]
  {
    if s != "" && IsSpace(s[0]) then TrimLeft(s[1..]) else s
  }

  function TrimRight(s: string): (r: string)
    ensures r == "" || !IsSpace(r[|r| - 1])
    ensures r <= s
  {
    if s != "" && IsSpace(s[|s| - 1]) then TrimRight(s[..|s| - 1]) else s
  }

  /** strings.TrimSpace. */
  function TrimSpace(s: string): (r: string)
    ensures Trimmed(r)
    ensures Trimmed(s) ==> r == s
  {
    TrimRight(TrimLeft(s))
  }

  lemma TrimSpaceKeepsOut(s: string, c: char)
    requires c !in s
    ensures c !in TrimSpace(s)
  {
  }

  /** strings.IndexByte: the first position of `c`, or -1. */
  function IndexByte(s: string, c: char): (i: int)
    ensures -1 <= i < |s|
    ensures i < 0 ==> c !in s
    ensures i >= 0 ==> s[i] == c && c !in s[..i]
  {
    if s == "" then -1
    else if s[0] == c then 0
    else
      var i := IndexByte(s[1..], c);
      assert s == [s[0]] + s[1..];
      if i < 0 then -1 else
        assert s[..i + 1] == [s[0]] + s[1..][..i];
        i + 1
  }

  predicate Without(parts: seq<string>, c: char) { forall i :: 0 <= i < |parts| ==> c !in parts[i] }

  /** strings.Split on one character. */
  function Split(s: string, c: char): (parts: seq<string>)
    ensures Without(parts, c)
    decreases |s|
  {
    var i := IndexByte(s, c);
    if i < 0 then [s] else [s[..i]] + Split(s[i + 1..], c)
  }

  /** strings.Join with one character. */
  function Join(parts: seq<string>, c: char): string {
    if parts == [] then ""
    else if |parts| == 1 then parts[0]
    else parts[0] + ([c] + Join(parts[1..], c))
  }

  /** len of a Go string: the number of its UTF-8 bytes. */
  function ByteLength(s: string): nat {
    if s == "" then 0
    else
      var n := s[0] as int;
      (if n < 0x80 then 1 else if n < 0x800 then 2 else if n < 0x1_0000 then 3 else 4) + ByteLength(s[1..])
  }

  lemma {:induction false} IndexByteIs(s: string, c: char, i: nat)
    requires i < |s| && s[i] == c && c !in s[..i]
    ensures IndexByte(s, c) == i
  {
    if i > 0 {
      assert s[..i] == [s[0]] + s[1..][..i - 1];
      IndexByteIs(s[1..], c, i - 1);
    }
  }

  lemma SplitHead(part: string, rest: string, c: char)
    requires c !in part
    ensures Split(part + ([c] + rest), c) == [part] + Split(rest, c)
  {
    var s := part + ([c] + rest);
    assert s[..|part|] == part && s[|part| + 1..] == rest;
    IndexByteIs(s, c, |part|);
  }

  lemma {:induction false} SplitJoin(parts: seq<string>, c: char)
    requires parts != [] && Without(parts, c)
    ensures Split(Join(parts, c), c) == parts
  {
    if |parts| > 1 {
      SplitJoin(parts[1..], c);
      SplitHead(parts[0], Join(parts[1..], c), c);
    }
  }

  // ------------------------------------------------------------------ parser

  /** One trimmed, non-empty entry. */
  function ParseRule(part: string): Parsed {
    var colon := IndexByte(part, ':');
    var apid := if colon < 0 then part else TrimSpace(part[..colon]);
    var ctid := if colon < 0 then "" else TrimSpace(part[colon + 1..]);
    CheckRule(part, apid, ctid)
  }

  function CheckRule(part: string, apid: string, ctid: string): Parsed {
    if |apid| == 0 then EmptyApid(part)
    else if ByteLength(apid) > 4 || ByteLength(ctid) > 4 then NameTooLong(part)
    else Ok([Rule(apid, ctid)])
  }

  /** The entries from left to right, added to the rules so far. */
  function ParseParts(parts: seq<string>, rules: Filter): Parsed
    decreases |parts|
  {
    if parts == [] then Ok(rules)
    else
      var part := TrimSpace(parts[0]);
      if part == "" then ParseParts(parts[1..], rules)
      else
        var r := ParseRule(part);
        if r.Ok? then ParseParts(parts[1..], rules + r.filter) else r
  }

  function Parse(s: string): Parsed {
    var t := TrimSpace(s);
    if t == "" then Ok([]) else ParseParts(Split(t, ','), [])
  }

  /** internal/capture/source_dlt.go: ParseDLTFilter. */
  method ParseDLTFilter(text: string) returns (res: Parsed)
    ensures res == Parse(text)
  {
    var s := TrimSpace(text);
    if s == "" {
      return Ok([]);
    }
    var rules: Filter := [];
    var parts := Split(s, ',');
    for i := 0 to |parts|
      invariant ParseParts(parts, []) == ParseParts(parts[i..], rules)
    {
      assert parts[i..][1..] == parts[i + 1..];
      var part := TrimSpace(parts[i]);
      if part == "" {
        continue;
      }
      var colon := IndexByte(part, ':');
      var apid, ctid;
      if colon < 0 {
        apid, ctid := part, "";
      } else {
        apid, ctid := TrimSpace(part[..colon]), TrimSpace(part[colon + 1..]);
      }
      if |apid| == 0 {
        return EmptyApid(part);
      }
      if ByteLength(apid) > 4 || ByteLength(ctid) > 4 {
        return NameTooLong(part);
      }
      rules := rules + [Rule(apid, ctid)];
    }
    return Ok(rules);
  }

  // ----------------------------------------------------------------- printer

  function PrintRule(r: Rule): string { if r.ctid == "" then r.apid else r.apid + ":" + r.ctid }

  function PrintRules(f: Filter): (parts: seq<string>)
    ensures |parts| == |f| && forall i :: 0 <= i < |f| ==> parts[i] == PrintRule(f[i])
  {
    seq(|f|, i requires 0 <= i < |f| => PrintRule(f[i]))
  }

  function Print(f: Filter): string { Join(PrintRules(f), ',') }

  /** internal/capture/source_dlt.go: DLTFilter.String. */
  method FilterString(f: Filter) returns (s: string)
    ensures s == Print(f)
  {
    if |f| == 0 {
      return "";
    }
    var parts := new string[|f|](_ => "");
    for i := 0 to |f|
      invariant forall j :: 0 <= j < i ==> parts[j] == PrintRule(f[j])
    {
      parts[i] := if f[i].ctid == "" then f[i].apid else f[i].apid + ":" + f[i].ctid;
    }
    assert parts[..] == PrintRules(f);
    return Join(parts[..], ',');
  }

  /** internal/capture/source_dlt.go: DLTFilter.Accept. */
  method Accept(f: Filter, apid: string, ctid: string) returns (ok: bool)
    ensures ok <==> f == [] || exists r :: r in f && r.apid == apid && (r.ctid == "" || r.ctid == ctid)
  {
    if |f| == 0 {
      return true;
    }
    for i := 0 to |f|
      invariant forall j :: 0 <= j < i ==> !(f[j].apid == apid && (f[j].ctid == "" || f[j].ctid == ctid))
    {
      if f[i].apid != apid {
        continue;
      }
      if f[i].ctid == "" || f[i].ctid == ctid {
        assert f[i] in f;
        return true;
      }
    }
    return false;
  }

  // -------------------------------------------------------------------- laws

  /** The rules the parser can produce. */
  predicate Canonical(r: Rule) {
    && r.apid != "" && Trimmed(r.apid) && ',' !in r.apid && ':' !in r.apid && ByteLength(r.apid) <= 4
    && Trimmed(r.ctid) && ',' !in r.ctid && ByteLength(r.ctid) <= 4
  }

  predicate CanonicalFilter(f: Filter) { forall i :: 0 <= i < |f| ==> Canonical(f[i]) }

  lemma ParsedRuleIsCanonical(part: string)
    requires Trimmed(part) && ',' !in part && ParseRule(part).Ok?
    ensures |ParseRule(part).filter| == 1 && Canonical(ParseRule(part).filter[0])
  {
    var colon, r := IndexByte(part, ':'), ParseRule(part).filter[0];
    if colon >= 0 {
      var apid, ctid := part[..colon], part[colon + 1..];
      assert ',' !in apid && ':' !in apid && ',' !in ctid;
      TrimSpaceKeepsOut(apid, ':');
      TrimSpaceKeepsOut(apid, ',');
      TrimSpaceKeepsOut(ctid, ',');
      assert r == Rule(TrimSpace(apid), TrimSpace(ctid));
    } else {
      assert r == Rule(part, "");
    }
  }

  lemma {:induction false} ParsedPartsAreCanonical(parts: seq<string>, rules: Filter)
    requires Without(parts, ',') && CanonicalFilter(rules) && ParseParts(parts, rules).Ok?
    ensures CanonicalFilter(ParseParts(parts, rules).filter)
    decreases |parts|
  {
    if parts != [] {
      var part := TrimSpace(parts[0]);
      if part == "" {
        ParsedPartsAreCanonical(parts[1..], rules);
      } else {
        TrimSpaceKeepsOut(parts[0], ',');
        ParsedRuleIsCanonical(part);
        OneMoreCanonical(rules, ParseRule(part).filter);
        ParsedPartsAreCanonical(parts[1..], rules + ParseRule(part).filter);
      }
    }
  }

  lemma OneMoreCanonical(rules: Filter, more: Filter)
    requires CanonicalFilter(rules) && |more| == 1 && Canonical(more[0])
    ensures CanonicalFilter(rules + more)
  {
  }

  lemma PrintedRuleShape(r: Rule)
    requires Canonical(r)
    ensures var part := PrintRule(r); part != "" && Trimmed(part) && ',' !in part
  {
  }

  lemma PairParses(apid: string, ctid: string)
    requires Canonical(Rule(apid, ctid))
    ensures ParseRule(apid + ":" + ctid) == Ok([Rule(apid, ctid)])
  {
    var part := apid + ":" + ctid;
    assert part[..|apid|] == apid;
    assert part[|apid| + 1..] == ctid;
    IndexByteIs(part, ':', |apid|);
  }

  lemma PrintedRuleParses(r: Rule)
    requires Canonical(r)
    ensures ParseRule(PrintRule(r)) == Ok([r])
  {
    if r.ctid == "" {
      assert IndexByte(r.apid, ':') < 0;
    } else {
      PairParses(r.apid, r.ctid);
    }
  }

  lemma ParsePartsHead(parts: seq<string>, rules: Filter, r: Rule)
    requires parts != [] && parts[0] != "" && Trimmed(parts[0]) && ParseRule(parts[0]) == Ok([r])
    ensures ParseParts(parts, rules) == ParseParts(parts[1..], rules + [r])
  {
  }

  lemma {:induction false} PrintedPartsParse(f: Filter, n: nat)
    requires CanonicalFilter(f) && n <= |f|
    ensures ParseParts(PrintRules(f)[n..], f[..n]) == Ok(f)
    decreases |f| - n
  {
    var parts := PrintRules(f)[n..];
    if n == |f| {
      assert f[..n] == f;
    } else {
      PrintedRuleShape(f[n]);
      PrintedRuleParses(f[n]);
      ParsePartsHead(parts, f[..n], f[n]);
      PrintedPartsParse(f, n + 1);
      assert parts[1..] == PrintRules(f)[n + 1..];
      TakeMore(f, n);
    }
  }

  lemma {:induction false} JoinedIsTrimmed(parts: seq<string>)
    requires parts != [] && forall i :: 0 <= i < |parts| ==> parts[i] != "" && Trimmed(parts[i])
    ensures var s := Join(parts, ','); s != "" && Trimmed(s)
  {
    if |parts| > 1 {
      JoinedIsTrimmed(parts[1..]);
    }
  }

  /** Printing is canonical: the printed form of a canonical filter parses back to the filter. */
  lemma PrintParses(f: Filter)
    requires CanonicalFilter(f)
    ensures Parse(Print(f)) == Ok(f)
  {
    if f != [] {
      var parts := PrintRules(f);
      forall i | 0 <= i < |f| ensures parts[i] != "" && Trimmed(parts[i]) && ',' !in parts[i] {
        PrintedRuleShape(f[i]);
      }
      JoinedIsTrimmed(parts);
      SplitJoin(parts, ',');
      PrintedPartsParse(f, 0);
      assert parts[0..] == parts && f[..0] == [];
    }
  }

  /** The filters the parser produces are exactly the canonical ones, and every one of them survives
      a round trip through its printed form. */
  lemma RoundTrip(f: Filter)
    ensures (exists s :: Parse(s) == Ok(f)) <==> CanonicalFilter(f)
    ensures (exists s :: Parse(s) == Ok(f)) ==> Parse(Print(f)) == Ok(f)
  {
    if s :| Parse(s) == Ok(f) {
      if TrimSpace(s) != "" {
        ParsedPartsAreCanonical(Split(TrimSpace(s), ','), []);
      }
    }
    if CanonicalFilter(f) {
      PrintParses(f);
    }
  }

  // ----------------------------------------------- white space and bad entries

  /** Below 128 the space characters are tab, line feed, vertical tab, form feed, return and space. */
  lemma AsciiSpaces(c: char)
    requires c < 128 as char
    ensures IsSpace(c) <==> c == ' ' || c == '\t' || c == '\n' || c == '\r' || c as int == 11 || c as int == 12
  {
  }

  /** A text has at least as many bytes as characters, exactly as many if all are below 128, and at
      most four times as many. */
  lemma {:induction false} ByteLengthBounds(s: string)
    ensures |s| <= ByteLength(s) <= 4 * |s|
    ensures ByteLength(s) == |s| <==> forall i :: 0 <= i < |s| ==> s[i] < 128 as char
  {
    if s != "" {
      ByteLengthBounds(s[1..]);
      assert forall i :: 1 <= i < |s| ==> s[i] == s[1..][i - 1];
      assert (forall i :: 0 <= i < |s| ==> s[i] < 128 as char)
        <==> s[0] < 128 as char && forall i :: 0 <= i < |s[1..]| ==> s[1..][i] < 128 as char;
    }
  }

  predicate Spaces(s: string) { forall i :: 0 <= i < |s| ==> IsSpace(s[i]) }

  lemma {:induction false} TrimLeftPadded(pad: string, s: string)
    requires Spaces(pad) && (s == "" || !IsSpace(s[0]))
    ensures TrimLeft(pad + s) == s
  {
    if pad == "" {
      assert pad + s == s;
    } else {
      assert (pad + s)[1..] == pad[1..] + s;
      TrimLeftPadded(pad[1..], s);
    }
  }

  lemma {:induction false} TrimRightPadded(s: string, pad: string)
    requires Spaces(pad) && (s == "" || !IsSpace(s[|s| - 1]))
    ensures TrimRight(s + pad) == s
  {
    if pad == "" {
      assert s + pad == s;
    } else {
      assert (s + pad)[..|s + pad| - 1] == s + pad[..|pad| - 1];
      TrimRightPadded(s, pad[..|pad| - 1]);
    }
  }

  /** Trimming takes away exactly the space around a trimmed text. */
  lemma TrimPadded(before: string, s: string, after: string)
    requires Spaces(before) && Trimmed(s) && Spaces(after)
    ensures TrimSpace(before + s + after) == s
  {
    if s == "" {
      assert before + s + after == (before + after) + "";
      TrimLeftPadded(before + after, "");
    } else {
      Regroup(before, s, after);
      TrimLeftPadded(before, s + after);
      TrimRightPadded(s, after);
    }
  }

  /** An entry of a filter text as a user may write it: nothing but space, an application id alone, or
      both ids around a colon, with space anywhere around the ids. */
  datatype Written =
    | Blank(pad: string)
    | Alone(before: string, apid: string, after: string)
    | Both(before: string, apid: string, gap: string, gap2: string, ctid: string, after: string)

  predicate ValidEntry(w: Written) {
    match w
    case Blank(pad) => Spaces(pad)
    case Alone(before, apid, after) => Spaces(before) && Name(apid) && apid != "" && Spaces(after)
    case Both(before, apid, gap, gap2, ctid, after) =>
      && Spaces(before) && Name(apid) && (apid == "" ==> gap == "") && Spaces(gap)
      && Spaces(gap2) && Trimmed(ctid) && (ctid == "" ==> gap2 == "") && Spaces(after)
  }

  /** An id without space around it and without a colon. */
  predicate Name(s: string) { Trimmed(s) && ':' !in s }

  /** The entry without the space around it. */
  function Core(w: Written): string {
    match w
    case Blank(_) => ""
    case Alone(_, apid, _) => apid
    case Both(_, apid, gap, gap2, ctid, _) => apid + gap + (":" + (gap2 + ctid))
  }

  function Entry(w: Written): string {
    match w
    case Blank(pad) => pad + "" + ""
    case Alone(before, _, after) => before + Core(w) + after
    case Both(before, _, _, _, _, after) => before + Core(w) + after
  }

  /** What an entry with these ids means: an error without an application id or with an id of more
      than four bytes, and otherwise its rule. */
  function OfIds(part: string, apid: string, ctid: string): Parsed {
    if |apid| == 0 then EmptyApid(part)
    else if ByteLength(apid) > 4 || ByteLength(ctid) > 4 then NameTooLong(part)
    else Ok([Rule(apid, ctid)])
  }

  function Verdict(w: Written): Parsed
    requires !w.Blank?
  {
    OfIds(Core(w), w.apid, if w.Both? then w.ctid else "")
  }

  /** Space around an entry goes away. */
  lemma EntryTrims(w: Written)
    requires ValidEntry(w)
    ensures TrimSpace(Entry(w)) == Core(w) && (Core(w) == "" <==> w.Blank?)
  {
    match w
    case Blank(pad) => TrimPadded(pad, "", "");
    case Alone(before, apid, after) => TrimPadded(before, apid, after);
    case Both(before, apid, gap, gap2, ctid, after) =>
      CoreTrimmed(w);
      TrimPadded(before, Core(w), after);
  }

  lemma CoreTrimmed(w: Written)
    requires ValidEntry(w) && w.Both?
    ensures Trimmed(Core(w)) && Core(w) != ""
  {
    var c, n := Core(w), |w.apid + w.gap|;
    assert c[n] == ':';
    assert c[0] == if w.apid == "" then ':' else w.apid[0];
    assert c[|c| - 1] == if w.ctid == "" then ':' else w.ctid[|w.ctid| - 1];
  }

  lemma NoColonInSpaces(pad: string)
    requires Spaces(pad)
    ensures ':' !in pad
  {
    assert !IsSpace(':');
  }

  lemma CutAtColon(left: string, right: string)
    requires ':' !in left
    ensures var part := left + (":" + right);
            IndexByte(part, ':') == |left| && part[..|left|] == left && part[|left| + 1..] == right
  {
    var part := left + (":" + right);
    assert part[..|left|] == left && part[|left|] == ':';
    IndexByteIs(part, ':', |left|);
  }

  lemma TrimPaddedLeft(pad: string, s: string)
    requires Spaces(pad) && Trimmed(s)
    ensures TrimSpace(pad + s) == s
  {
    TrimPadded(pad, s, []);
    assert pad + s + [] == pad + s;
  }

  lemma TrimPaddedRight(s: string, pad: string)
    requires Spaces(pad) && Trimmed(s)
    ensures TrimSpace(s + pad) == s
  {
    assert [] + s == s;
    TrimPadded([], s, pad);
  }

  lemma RuleOfPair(part: string, colon: nat)
    requires IndexByte(part, ':') == colon
    ensures ParseRule(part) == CheckRule(part, TrimSpace(part[..colon]), TrimSpace(part[colon + 1..]))
  {
  }

  lemma CheckMeans(part: string, apid: string, ctid: string)
    ensures CheckRule(part, apid, ctid) == OfIds(part, apid, ctid)
  {
  }

  lemma PairMeans(apid: string, gap: string, gap2: string, ctid: string)
    requires Name(apid) && Spaces(gap) && Spaces(gap2) && Trimmed(ctid)
    ensures var part := apid + gap + (":" + (gap2 + ctid)); ParseRule(part) == OfIds(part, apid, ctid)
  {
    var left, right := apid + gap, gap2 + ctid;
    NoColonInSpaces(gap);
    CutAtColon(left, right);
    TrimPaddedRight(apid, gap);
    TrimPaddedLeft(gap2, ctid);
    RuleOfPair(left + (":" + right), |left|);
    CheckMeans(left + (":" + right), apid, ctid);
  }

  lemma AloneMeans(apid: string)
    requires ':' !in apid
    ensures ParseRule(apid) == OfIds(apid, apid, "")
  {
    assert IndexByte(apid, ':') < 0;
  }

  /** So does space around the colon, and each entry means its ids. */
  lemma EntryMeans(w: Written)
    requires ValidEntry(w) && !w.Blank?
    ensures ParseRule(Core(w)) == Verdict(w)
  {
    match w
    case Alone(_, apid, _) => AloneMeans(apid);
    case Both(_, apid, gap, gap2, ctid, _) => PairMeans(apid, gap, gap2, ctid);
  }

  function Entries(ws: seq<Written>): (parts: seq<string>)
    ensures |parts| == |ws| && forall i :: 0 <= i < |ws| ==> parts[i] == Entry(ws[i])
  {
    seq(|ws|, i requires 0 <= i < |ws| => Entry(ws[i]))
  }

  /** The rules of the entries up to the first that is in error, or that error. */
  function Meaning(ws: seq<Written>, rules: Filter): Parsed
    decreases |ws|
  {
    if ws == [] then Ok(rules)
    else if ws[0].Blank? then Meaning(ws[1..], rules)
    else
      var v := Verdict(ws[0]);
      if v.Ok? then Meaning(ws[1..], rules + v.filter) else v
  }

  /** One step of the parser over a list of parts. */
  lemma ParsePartsStep(parts: seq<string>, rules: Filter, core: string)
    requires parts != [] && TrimSpace(parts[0]) == core
    ensures core == "" ==> ParseParts(parts, rules) == ParseParts(parts[1..], rules)
    ensures core != "" ==>
              var r := ParseRule(core);
              ParseParts(parts, rules) == if r.Ok? then ParseParts(parts[1..], rules + r.filter) else r
  {
  }

  lemma {:induction false} EntriesParse(ws: seq<Written>, rules: Filter)
    requires forall w :: w in ws ==> ValidEntry(w)
    ensures ParseParts(Entries(ws), rules) == Meaning(ws, rules)
    decreases |ws|
  {
    if |ws| > 0 {
      var w := ws[0];
      assert w in ws && forall x :: x in ws[1..] ==> x in ws;
      EntryTrims(w);
      EntriesTail(ws);
      ParsePartsStep(Entries(ws), rules, Core(w));
      if w.Blank? {
        EntriesParse(ws[1..], rules);
      } else {
        EntryMeans(w);
        if Verdict(w).Ok? {
          EntriesParse(ws[1..], rules + Verdict(w).filter);
        }
      }
    }
  }

  lemma EntriesTail(ws: seq<Written>)
    requires |ws| > 0
    ensures |Entries(ws)| > 0 && Entries(ws)[0] == Entry(ws[0]) && Entries(ws)[1..] == Entries(ws[1..])
  {
  }

  /** Space around a whole filter text does not matter. */
  lemma OuterSpaceIgnored(before: string, s: string, after: string)
    requires Spaces(before) && Trimmed(s) && Spaces(after)
    ensures Parse(before + s + after) == Parse(s)
  {
    TrimPadded(before, s, after);
  }

  /** Any way of writing entries, with space around ids and colons and blank entries between commas,
      parses to the rules of the entries in order, or to the error of the first entry in error. */
  lemma WrittenTextParses(ws: seq<Written>)
    requires ws != [] && forall w :: w in ws ==> ValidEntry(w) && ',' !in Entry(w)
    requires var text := Join(Entries(ws), ','); text != "" && Trimmed(text)
    ensures Parse(Join(Entries(ws), ',')) == Meaning(ws, [])
  {
    forall i | 0 <= i < |ws| ensures ',' !in Entries(ws)[i] {
      assert ws[i] in ws;
    }
    SplitJoin(Entries(ws), ',');
    EntriesParse(ws, []);
  }
}
