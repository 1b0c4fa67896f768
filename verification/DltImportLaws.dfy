/** What the DLT importers make of a payload, frame or line (internal/parser/dlt.go,
    internal/parser/dltbin.go, internal/store/logimport.go), stated with the texts as they stand in
    DLT logs. */
module DltImportLaws {
  import opened Common
  import opened DltFrame
  import opened DltImport
  import JsonGrammar
  import JsonScan

  const CEM_NAME := Ascii("CEM")
  const TRUNCATED := Ascii("<<Message truncated, too long>>")
  const SHIP_START := Ascii("{\"data\":[{\"header\":[{\"protocolId\":\"ee1.0\"")
  const DATAGRAM_START := Ascii("{\"datagram\":")

  /** The text occurs somewhere in the payload. */
  ghost predicate Occurs(payload: seq<byte>, text: seq<byte>) {
    exists i: nat :: OccursAt(payload, text, i)
  }

  lemma ContainsIsOccurs(payload: seq<byte>, text: seq<byte>)
    ensures Contains(payload, text) <==> Occurs(payload, text)
  {
  }

  // ---------------------------------------------------------- marked payloads

  /** A payload that shows signs of EEBus content. */
  ghost predicate ShowsEEBus(apid: seq<byte>, ctid: seq<byte>, payload: seq<byte>) {
    || Occurs(payload, Ascii("\"protocolId\":\"ee1.0\""))
    || Occurs(payload, DATAGRAM_START)
    || (apid == CEM_NAME && ctid == CEM_NAME
        && (Occurs(payload, Ascii("[Session ")) || Occurs(payload, Ascii("[ConnectionWorker "))))
  }

  /** A payload that DLT marked as truncated is counted exactly if it shows signs of EEBus content,
      and ignored otherwise; it is never kept. */
  lemma MarkedVerdict(pats: Patterns, apid: seq<byte>, ctid: seq<byte>, payload: seq<byte>, timestamp: int)
    requires Occurs(payload, TRUNCATED)
    ensures JudgePayload(ExtractEEBus(pats, apid, ctid, payload), timestamp)
         == if ShowsEEBus(apid, ctid, payload) then Drop else Ignore
  {
    ContainsIsOccurs(payload, TRUNCATED);
    ContainsIsOccurs(payload, Ascii("\"protocolId\":\"ee1.0\""));
    ContainsIsOccurs(payload, DATAGRAM_START);
    ContainsIsOccurs(payload, Ascii("[Session "));
    ContainsIsOccurs(payload, Ascii("[ConnectionWorker "));
  }

  /** An unmarked payload without any EEBus text is ignored. */
  lemma OtherPayloadIsIgnored(pats: Patterns, apid: seq<byte>, ctid: seq<byte>, payload: seq<byte>, timestamp: int)
    requires !Occurs(payload, TRUNCATED) && NotCaptured(pats, apid, ctid, payload)
    requires !Occurs(payload, SHIP_START) && !Occurs(payload, DATAGRAM_START)
    ensures JudgePayload(ExtractEEBus(pats, apid, ctid, payload), timestamp) == Ignore
  {
    ContainsIsOccurs(payload, TRUNCATED);
    ContainsIsOccurs(payload, SHIP_START);
    ContainsIsOccurs(payload, DATAGRAM_START);
  }

  // ------------------------------------------------------------- cut payloads

  lemma IndexIs(s: seq<byte>, pat: seq<byte>, i: nat)
    requires OccursAt(s, pat, i) && forall j: nat :: j < i ==> !OccursAt(s, pat, j)
    ensures Index(s, pat) == Some(i)
  {
  }

  lemma OccursInPrefix(s: seq<byte>, n: nat, pat: seq<byte>, i: nat)
    requires n <= |s|
    ensures OccursAt(s[..n], pat, i) <==> OccursAt(s, pat, i) && i + |pat| <= n
  {
    if i + |pat| <= n {
      assert s[..n][i..i + |pat|] == s[i..i + |pat|];
    }
  }

  /** Where a pattern is found once its text is cut off. */
  lemma IndexInPrefix(s: seq<byte>, n: nat, pat: seq<byte>)
    requires n <= |s|
    ensures Index(s[..n], pat) == match Index(s, pat)
                                  case None => None
                                  case Some(i) => if i + |pat| <= n then Some(i) else None
  {
    forall i: nat ensures OccursAt(s[..n], pat, i) <==> OccursAt(s, pat, i) && i + |pat| <= n {
      OccursInPrefix(s, n, pat, i);
    }
    var r := Index(s, pat);
    if r.Some? && r.value + |pat| <= n {
      IndexIs(s[..n], pat, r.value);
    }
  }

  /** Neither of the two Porsche CEM patterns applies to a payload. */
  predicate NotCaptured(pats: Patterns, apid: seq<byte>, ctid: seq<byte>, payload: seq<byte>) {
    apid == CEM_NAME && ctid == CEM_NAME ==> pats.send(payload).None? && pats.receive(payload).None?
  }

  /** A payload that ends in a SHIP frame, cut off anywhere. The loss is counted exactly when the
      prefix that marks the frame is still whole; the uncut frame is kept as it is. */
  lemma CutShipFrameVerdict(pats: Patterns, apid: seq<byte>, ctid: seq<byte>, lead: seq<byte>, v: JsonGrammar.Json,
                            cut: nat, timestamp: int)
    requires JsonGrammar.Valid(v) && v.Object? && SHIP_START <= JsonGrammar.Print(v, [])
    requires cut <= |JsonGrammar.Print(v, [])|
    requires NotCaptured(pats, apid, ctid, lead + JsonGrammar.Print(v, [])[..cut])
    requires var p := lead + JsonGrammar.Print(v, []);
             !Contains(p, TRUNCATED) && Index(p, SHIP_START) == Some(|lead|)
    ensures var json := JsonGrammar.Print(v, []);
            var p := lead + json[..cut];
            var verdict := JudgePayload(ExtractEEBus(pats, apid, ctid, p), timestamp);
            && (cut == |json| ==> verdict == Keep(json, Unknown, timestamp))
            && (|SHIP_START| <= cut < |json| ==> verdict == Drop)
            && (cut < |SHIP_START| && !Contains(p, DATAGRAM_START) ==> verdict == Ignore)
  {
    CutAtPrefix(lead, v, cut, SHIP_START);
    IndexOfCut(lead, v, cut, TRUNCATED);
    if cut > 0 {
      CutOffIsRejected(v, cut);
    }
  }

  /** A payload that ends in a bare SPINE datagram, cut off anywhere: the same with its own prefix. */
  lemma CutDatagramVerdict(pats: Patterns, apid: seq<byte>, ctid: seq<byte>, lead: seq<byte>, v: JsonGrammar.Json,
                           cut: nat, timestamp: int)
    requires JsonGrammar.Valid(v) && v.Object? && DATAGRAM_START <= JsonGrammar.Print(v, [])
    requires cut <= |JsonGrammar.Print(v, [])|
    requires NotCaptured(pats, apid, ctid, lead + JsonGrammar.Print(v, [])[..cut])
    requires var p := lead + JsonGrammar.Print(v, []);
             !Contains(p, TRUNCATED) && !Contains(p, SHIP_START) && Index(p, DATAGRAM_START) == Some(|lead|)
    ensures var json := JsonGrammar.Print(v, []);
            JudgePayload(ExtractEEBus(pats, apid, ctid, lead + json[..cut]), timestamp) ==
              if cut == |json| then Keep(json, Unknown, timestamp)
              else if cut >= |DATAGRAM_START| then Drop
              else Ignore
  {
    CutAtPrefix(lead, v, cut, DATAGRAM_START);
    IndexOfCut(lead, v, cut, TRUNCATED);
    IndexOfCut(lead, v, cut, SHIP_START);
    if cut > 0 {
      CutOffIsRejected(v, cut);
    }
  }

  lemma IndexOfCut(lead: seq<byte>, v: JsonGrammar.Json, cut: nat, pat: seq<byte>)
    requires cut <= |JsonGrammar.Print(v, [])|
    ensures var json := JsonGrammar.Print(v, []);
            Index(lead + json[..cut], pat) == match Index(lead + json, pat)
                                              case None => None
                                              case Some(i) => if i + |pat| <= |lead| + cut then Some(i) else None
  {
    var json := JsonGrammar.Print(v, []);
    assert lead + json[..cut] == (lead + json)[..|lead| + cut];
    IndexInPrefix(lead + json, |lead| + cut, pat);
  }

  /** The prefix in front of the JSON text is found exactly if the cut leaves it whole, and what
      follows `lead` is the cut text. */
  lemma CutAtPrefix(lead: seq<byte>, v: JsonGrammar.Json, cut: nat, pat: seq<byte>)
    requires cut <= |JsonGrammar.Print(v, [])| && Index(lead + JsonGrammar.Print(v, []), pat) == Some(|lead|)
    ensures var json := JsonGrammar.Print(v, []);
            && Index(lead + json[..cut], pat) == (if |pat| <= cut then Some(|lead|) else None)
            && (lead + json[..cut])[|lead|..] == json[..cut] && json[..|json|] == json
  {
    IndexOfCut(lead, v, cut, pat);
  }

  lemma CutOffIsRejected(v: JsonGrammar.Json, cut: nat)
    requires JsonGrammar.Valid(v) && v.Object? && 0 < cut <= |JsonGrammar.Print(v, [])|
    ensures JsonScan.Accepts(JsonGrammar.Print(v, [])[..cut]) <==> cut == |JsonGrammar.Print(v, [])|
  {
    JsonGrammar.EveryCutOfContainerIsRejected(v, cut);
  }

  /** A JSON object or array that one of the two Porsche CEM patterns captures, cut off anywhere: the
      whole is kept with the direction of its pattern, and every cut is counted. */
  lemma CutCapturedVerdict(pats: Patterns, payload: seq<byte>, v: JsonGrammar.Json, cut: nat, timestamp: int)
    requires JsonGrammar.Valid(v) && (v.Object? || v.Array?) && 0 < cut <= |JsonGrammar.Print(v, [])|
    requires !Contains(payload, TRUNCATED)
    requires (if pats.send(payload).Some? then pats.send(payload) else pats.receive(payload))
          == Some(JsonGrammar.Print(v, [])[..cut])
    ensures var json := JsonGrammar.Print(v, []);
            JudgePayload(ExtractEEBus(pats, CEM_NAME, CEM_NAME, payload), timestamp) ==
              if cut < |json| then Drop
              else Keep(json, if pats.send(payload).Some? then Outgoing else Incoming, timestamp)
  {
    var json := JsonGrammar.Print(v, []);
    JsonGrammar.EveryCutOfContainerIsRejected(v, cut);
    assert json[..|json|] == json;
  }

  // --------------------------------------------------------- frames and lines

  /** A frame becomes what its text becomes, with the time stamp of the frame; without verbose mode or
      without text it is ignored. */
  lemma FrameVerdict(pats: Patterns, frame: DltMessage)
    ensures JudgeFrame(pats, frame) != Ignore ==> frame.verbose && frame.args != []
    ensures JudgeFrame(pats, frame).Keep? ==>
              JudgeFrame(pats, frame).timestamp == frame.timestamp && JsonScan.Balanced(JudgeFrame(pats, frame).json)
    ensures frame.verbose && frame.args != [] ==>
              JudgeFrame(pats, frame)
              == JudgePayload(ExtractEEBus(pats, frame.apid, frame.ctid, frame.args), frame.timestamp)
  {
    var v := JudgeFrame(pats, frame);
    if v.Keep? {
      JsonScan.AcceptsExactlyBalanced(v.json);
    }
  }

  /** A line becomes what its payload becomes, except that a complete payload without a readable time
      stamp is ignored; truncations are counted with or without one. */
  lemma LineVerdict(pats: Patterns, apid: seq<byte>, ctid: seq<byte>, payload: seq<byte>,
                    timestamp: Option<int>, t: int)
    ensures var v := JudgePayload(ExtractEEBus(pats, apid, ctid, payload), t);
            var line := JudgeLine(pats, Matched(apid, ctid, payload, timestamp));
            && (line == Drop <==> v == Drop)
            && (line.Keep? <==> v.Keep? && timestamp.Some?)
            && (timestamp == Some(t) ==> line == v)
    ensures JudgeLine(pats, Unmatched) == Ignore
  {
  }

  // ---------------------------------------------------------------- summaries

  /** The zero time lies as many days before the epoch as the years 1 to 1969 have. */
  lemma ZeroTimeIsYearOne()
    ensures var years := 1969;
            ZERO_TIME == -(365 * years + years / 4 - years / 100 + years / 400) * 86_400 * 1_000_000_000
  {
  }

  /** The start of a trace: the first time stamp that is not the zero time. */
  lemma {:induction false} StartIsFirst(messages: seq<Entry>, i: nat)
    requires i < |messages| && messages[i].timestamp != ZERO_TIME
    requires forall j :: 0 <= j < i ==> messages[j].timestamp == ZERO_TIME
    ensures StartTime(messages) == messages[i].timestamp
  {
    var front := messages[..|messages| - 1];
    if i < |front| {
      StartIsFirst(front, i);
    } else {
      ZeroStart(front);
    }
  }

  lemma {:induction false} ZeroStart(messages: seq<Entry>)
    requires forall j :: 0 <= j < |messages| ==> messages[j].timestamp == ZERO_TIME
    ensures StartTime(messages) == ZERO_TIME
  {
    if messages != [] {
      ZeroStart(messages[..|messages| - 1]);
    }
  }

  /** The trace of an import: nothing without a kept verdict; otherwise the numbered messages, the
      number of truncations, and the time stamps of the first and last message, the last one left out
      if it is the zero time. */
  lemma ImportSummary(vs: seq<Verdict>)
    ensures Summarize(vs) == NothingFound <==> forall i :: 0 <= i < |vs| ==> !vs[i].Keep?
    ensures var messages := Numbered(vs);
            messages != [] && messages[0].timestamp != ZERO_TIME ==>
              var last := messages[|messages| - 1].timestamp;
              Summarize(vs) == Imported(messages[0].timestamp, if last == ZERO_TIME then None else Some(last),
                                        Dropped(vs), messages)
  {
    Accounting(vs);
    var kept, messages := Kept(vs), Numbered(vs);
    assert messages != [] ==> vs[kept[0]].Keep?;
    if messages != [] && messages[0].timestamp != ZERO_TIME {
      StartIsFirst(messages, 0);
    }
  }
}
