/** Which DLT payloads become messages (internal/parser/dlt.go, internal/parser/dltbin.go), and the
    two DLT importers that number and count them (internal/store/logimport.go). */
module DltImport {
  import opened Common
  import opened DltFrame
  import opened DltFrameLaws
  import JsonScan

  datatype Direction = Incoming | Outgoing | Unknown

  /** The outcome of the payload extractor. */
  datatype Extract = NoContent | MarkedTruncated | Content(json: seq<byte>, direction: Direction)

  /** The two Porsche CEM regular expressions, as functions from a payload to their capture group. */
  datatype Patterns = Patterns(send: seq<byte> -> Option<seq<byte>>, receive: seq<byte> -> Option<seq<byte>>)

  /** The bytes of a string of ASCII characters. */
  function Ascii(s: string): (b: seq<byte>)
    ensures |b| == |s|
  {
    seq(|s|, i requires 0 <= i < |s| => CharByte(s[i]))
  }

  function CharByte(c: char): (b: byte)
    ensures c as int < 256 ==> b as char == c
  {
    c as int % 256
  }

  const CEM := Ascii("CEM")
  const MARKER := Ascii("<<Message truncated, too long>>")
  const SHIP_PREFIX := Ascii("{\"data\":[{\"header\":[{\"protocolId\":\"ee1.0\"")
  const DATAGRAM_PREFIX := Ascii("{\"datagram\":")
  const PROTOCOL_ID := Ascii("\"protocolId\":\"ee1.0\"")
  const SESSION_TAG := Ascii("[Session ")
  const WORKER_TAG := Ascii("[ConnectionWorker ")

  predicate OccursAt(s: seq<byte>, pat: seq<byte>, i: nat) {
    i + |pat| <= |s| && s[i..i + |pat|] == pat
  }

  /** strings.Index: where `pat` first occurs in `s`. */
  function Index(s: seq<byte>, pat: seq<byte>): Option<nat> { IndexFrom(s, pat, 0) }

  function IndexFrom(s: seq<byte>, pat: seq<byte>, from: nat): (r: Option<nat>)
    ensures r.Some? ==> from <= r.value && OccursAt(s, pat, r.value)
                        && forall i: nat :: from <= i < r.value ==> !OccursAt(s, pat, i)
    ensures r.None? ==> forall i: nat :: from <= i ==> !OccursAt(s, pat, i)
    decreases |s| - from
  {
    if from + |pat| > |s| then None
    else if OccursAt(s, pat, from) then Some(from)
    else if from == |s| then None
    else IndexFrom(s, pat, from + 1)
  }

  predicate Contains(s: seq<byte>, pat: seq<byte>) { Index(s, pat).Some? }

  // ---------------------------------------------------------- classification

  /** internal/parser/dlt.go: looksLikeEEBusPayload. */
  predicate LooksLikeEEBus(apid: seq<byte>, ctid: seq<byte>, payload: seq<byte>) {
    || (apid == CEM && ctid == CEM && (Contains(payload, SESSION_TAG) || Contains(payload, WORKER_TAG)))
    || Contains(payload, PROTOCOL_ID)
    || Contains(payload, DATAGRAM_PREFIX)
  }

  /** internal/parser/dlt.go: ExtractEEBusFromDLTPayload. */
  function ExtractEEBus(pats: Patterns, apid: seq<byte>, ctid: seq<byte>, payload: seq<byte>): Extract {
    if Contains(payload, MARKER) then
      if LooksLikeEEBus(apid, ctid, payload) then MarkedTruncated else NoContent
    else if apid == CEM && ctid == CEM && pats.send(payload).Some? then
      Content(pats.send(payload).value, Outgoing)
    else if apid == CEM && ctid == CEM && pats.receive(payload).Some? then
      Content(pats.receive(payload).value, Incoming)
    else
      var ship, datagram := Index(payload, SHIP_PREFIX), Index(payload, DATAGRAM_PREFIX);
      if ship.Some? then Content(payload[ship.value..], Unknown)
      else if datagram.Some? then Content(payload[datagram.value..], Unknown)
      else NoContent
  }

  /** What an importer does with one frame or line: ignore it, count it as truncated, or keep it. */
  datatype Verdict = Ignore | Drop | Keep(json: seq<byte>, direction: Direction, timestamp: int)

  function JudgePayload(e: Extract, timestamp: int): Verdict {
    match e
    case NoContent => Ignore
    case MarkedTruncated => Drop
    case Content(json, direction) =>
      if JsonScan.Accepts(json) then Keep(json, direction, timestamp) else Drop
  }

  function JudgeFrame(pats: Patterns, frame: DltMessage): Verdict {
    if !frame.verbose || frame.args == [] then Ignore
    else JudgePayload(ExtractEEBus(pats, frame.apid, frame.ctid, frame.args), frame.timestamp)
  }

  /** internal/parser/dltbin.go: DLTFrameToMessage, up to the JSON decoding of the kept text. */
  method DLTFrameToMessage(pats: Patterns, frame: DltMessage) returns (v: Verdict)
    ensures v == JudgeFrame(pats, frame)
  {
    if !frame.verbose || frame.args == [] {
      return Ignore;
    }
    var extract := ExtractEEBus(pats, frame.apid, frame.ctid, frame.args);
    match extract {
      case NoContent => return Ignore;
      case MarkedTruncated => return Drop;
      case Content(json, direction) =>
        var complete := JsonScan.IsCompleteJSON(json);
        return if complete then Keep(json, direction, frame.timestamp) else Drop;
    }
  }

  // ------------------------------------------------------------- accounting

  /** A stored message, before its JSON is decoded. */
  datatype Entry = Entry(sequenceNum: nat, timestamp: int, direction: Direction, json: seq<byte>)

  datatype Import =
    | Imported(startedAt: int, stoppedAt: Option<int>, skippedTruncated: nat, messages: seq<Entry>)
    | NothingFound
    | Unreadable(error: ReadError)
    | ScanFailed

  /** time.Time's zero value, 1 January of year 1, in nanoseconds since the Unix epoch. */
  const ZERO_TIME: int := -62_135_596_800_000_000_000

  /** The kept ones, numbered from 1. */
  function Numbered(vs: seq<Verdict>): seq<Entry> {
    if vs == [] then []
    else
      var front, v := Numbered(vs[..|vs| - 1]), vs[|vs| - 1];
      if v.Keep? then front + [Entry(|front| + 1, v.timestamp, v.direction, v.json)] else front
  }

  function Dropped(vs: seq<Verdict>): nat {
    if vs == [] then 0 else Dropped(vs[..|vs| - 1]) + (if vs[|vs| - 1].Drop? then 1 else 0)
  }

  function Ignored(vs: seq<Verdict>): nat {
    if vs == [] then 0 else Ignored(vs[..|vs| - 1]) + (if vs[|vs| - 1].Ignore? then 1 else 0)
  }

  /** The first time stamp that is not the zero time. */
  function StartTime(messages: seq<Entry>): int {
    if messages == [] then ZERO_TIME
    else
      var front := StartTime(messages[..|messages| - 1]);
      if front == ZERO_TIME then messages[|messages| - 1].timestamp else front
  }

  function Summarize(vs: seq<Verdict>): Import {
    var messages := Numbered(vs);
    if messages == [] then NothingFound
    else
      var last := messages[|messages| - 1].timestamp;
      Imported(StartTime(messages), if last == ZERO_TIME then None else Some(last), Dropped(vs), messages)
  }

  lemma OneMore(vs: seq<Verdict>, v: Verdict)
    ensures Numbered(vs + [v]) == Numbered(vs) +
              (if v.Keep? then [Entry(|Numbered(vs)| + 1, v.timestamp, v.direction, v.json)] else [])
    ensures Dropped(vs + [v]) == Dropped(vs) + (if v.Drop? then 1 else 0)
    ensures Ignored(vs + [v]) == Ignored(vs) + (if v.Ignore? then 1 else 0)
  {
    assert (vs + [v])[..|vs|] == vs;
  }

  lemma StartTimeOfOneMore(messages: seq<Entry>, m: Entry)
    ensures StartTime(messages + [m]) == if StartTime(messages) == ZERO_TIME then m.timestamp else StartTime(messages)
  {
    assert (messages + [m])[..|messages|] == messages;
  }

  function JudgeAll(pats: Patterns, frames: seq<DltMessage>): (vs: seq<Verdict>)
    ensures |vs| == |frames| && forall i :: 0 <= i < |vs| ==> vs[i] == JudgeFrame(pats, frames[i])
  {
    seq(|frames|, i requires 0 <= i < |frames| => JudgeFrame(pats, frames[i]))
  }

  /** The result of importing a stream of frames that ends with `error`. */
  function ImportOf(pats: Patterns, frames: seq<DltMessage>, error: ReadError): Import {
    if error == Eof then Summarize(JudgeAll(pats, frames)) else Unreadable(error)
  }

  /** The variables both importers keep over their loops. */
  datatype Tally = Tally(messages: seq<Entry>, firstTS: int, lastTS: int, seqNum: nat, skippedTruncated: nat)

  const EMPTY_TALLY := Tally([], ZERO_TIME, ZERO_TIME, 0, 0)

  /** The variables after the verdicts `vs`. */
  predicate Tallies(t: Tally, vs: seq<Verdict>) {
    && t.messages == Numbered(vs) && t.seqNum == |t.messages| && t.skippedTruncated == Dropped(vs)
    && t.firstTS == StartTime(t.messages)
    && t.lastTS == if t.messages == [] then ZERO_TIME else t.messages[|t.messages| - 1].timestamp
  }

  /** The updates of both loops for one verdict. */
  method Count(t0: Tally, v: Verdict, ghost vs: seq<Verdict>) returns (t: Tally)
    requires Tallies(t0, vs)
    ensures Tallies(t, vs + [v])
  {
    OneMore(vs, v);
    t := t0;
    match v {
      case Ignore =>
      case Drop =>
        t := t.(skippedTruncated := t.skippedTruncated + 1);
      case Keep(json, direction, timestamp) =>
        var m := Entry(t.seqNum + 1, timestamp, direction, json);
        StartTimeOfOneMore(t.messages, m);
        if t.firstTS == ZERO_TIME {
          t := t.(firstTS := timestamp);
        }
        t := t.(seqNum := t.seqNum + 1, lastTS := timestamp, messages := t.messages + [m]);
    }
  }

  /** The end of both importers. */
  method Finish(t: Tally, ghost vs: seq<Verdict>) returns (res: Import)
    requires Tallies(t, vs)
    ensures res == Summarize(vs)
  {
    if |t.messages| == 0 {
      return NothingFound;
    }
    return Imported(t.firstTS, if t.lastTS == ZERO_TIME then None else Some(t.lastTS), t.skippedTruncated, t.messages);
  }

  /** internal/store/logimport.go: ImportDLTBinaryFile. */
  method ImportDLTBinaryFile(r: Reader, pats: Patterns) returns (res: Import)
    modifies r
    ensures res == ImportOf(pats, DecodeAll(old(r.rest)).0, DecodeAll(old(r.rest)).1)
  {
    var t := EMPTY_TALLY;
    ghost var frames: seq<DltMessage> := [];
    ghost var all := DecodeAll(r.rest);
    assert all.0 == frames + all.0;
    while true
      invariant all == (frames + DecodeAll(r.rest).0, DecodeAll(r.rest).1)
      invariant Tallies(t, JudgeAll(pats, frames))
      decreases |r.rest|
    {
      ghost var ahead := DecodeAll(r.rest);
      var frame := ReadDLTMessage(r);
      if frame.Err? {
        assert all.0 == frames + [] == frames;
        if frame.error == Eof {
          break;
        }
        return Unreadable(frame.error);
      }
      assert ahead.0 == [frame.value] + DecodeAll(r.rest).0;
      Regroup(frames, [frame.value], DecodeAll(r.rest).0);
      var v := DLTFrameToMessage(pats, frame.value);
      t := Count(t, v, JudgeAll(pats, frames));
      JudgeOneMore(pats, frames, frame.value);
      frames := frames + [frame.value];
    }
    res := Finish(t, JudgeAll(pats, frames));
  }

  lemma JudgeOneMore(pats: Patterns, frames: seq<DltMessage>, frame: DltMessage)
    ensures JudgeAll(pats, frames + [frame]) == JudgeAll(pats, frames) + [JudgeFrame(pats, frame)]
  {
  }

  // ------------------------------------------------------------ text exports

  /** A line of a DLT text export: the capture groups the importer uses, with the parsed time stamp,
      or a line the line pattern does not match. */
  datatype Line = Unmatched | Matched(apid: seq<byte>, ctid: seq<byte>, payload: seq<byte>, timestamp: Option<int>)

  function JudgeLine(pats: Patterns, line: Line): Verdict {
    match line
    case Unmatched => Ignore
    case Matched(apid, ctid, payload, timestamp) =>
      var v := JudgePayload(ExtractEEBus(pats, apid, ctid, payload), timestamp.GetOr(ZERO_TIME));
      if v.Keep? && timestamp.None? then Ignore else v
  }

  function JudgeLines(pats: Patterns, lines: seq<Line>): (vs: seq<Verdict>)
    ensures |vs| == |lines| && forall i :: 0 <= i < |vs| ==> vs[i] == JudgeLine(pats, lines[i])
  {
    seq(|lines|, i requires 0 <= i < |lines| => JudgeLine(pats, lines[i]))
  }

  /** The part of ImportDLTTextLogFile's loop that decides about one line. */
  method ClassifyLine(pats: Patterns, line: Line) returns (v: Verdict)
    ensures v == JudgeLine(pats, line)
  {
    if line.Unmatched? {
      return Ignore;
    }
    var extract := ExtractEEBus(pats, line.apid, line.ctid, line.payload);
    if extract.NoContent? {
      return Ignore;
    }
    if extract.MarkedTruncated? {
      return Drop;
    }
    var complete := JsonScan.IsCompleteJSON(extract.json);
    if !complete {
      return Drop;
    }
    if line.timestamp.None? {
      return Ignore;
    }
    return Keep(extract.json, extract.direction, line.timestamp.value);
  }

  /** internal/store/logimport.go: ImportDLTTextLogFile, on the lines the scanner yields and
      whether it then stops with an error. */
  method ImportDLTTextLogFile(lines: seq<Line>, scanError: bool, pats: Patterns) returns (res: Import)
    ensures res == if scanError then ScanFailed else Summarize(JudgeLines(pats, lines))
  {
    var t := EMPTY_TALLY;
    for i := 0 to |lines|
      invariant Tallies(t, JudgeLines(pats, lines[..i]))
    {
      var v := ClassifyLine(pats, lines[i]);
      t := Count(t, v, JudgeLines(pats, lines[..i]));
      assert JudgeLines(pats, lines[..i + 1]) == JudgeLines(pats, lines[..i]) + [v];
    }
    if scanError {
      return ScanFailed;
    }
    assert lines[..|lines|] == lines;
    res := Finish(t, JudgeLines(pats, lines));
  }

  // -------------------------------------------------------------------- laws

  /** The positions of the kept ones. */
  function Kept(vs: seq<Verdict>): seq<nat> {
    if vs == [] then []
    else Kept(vs[..|vs| - 1]) + (if vs[|vs| - 1].Keep? then [|vs| - 1 as nat] else [])
  }

  /** The messages stand one for one, in order and numbered from 1, for the kept verdicts, and every
      verdict is a message, a counted truncation or ignored. */
  lemma {:induction false} Accounting(vs: seq<Verdict>)
    ensures |Numbered(vs)| + Dropped(vs) + Ignored(vs) == |vs|
    ensures |Numbered(vs)| == |Kept(vs)|
    ensures forall i :: 0 <= i < |Kept(vs)| ==>
              && Kept(vs)[i] < |vs|
              && var v := vs[Kept(vs)[i]];
                 v.Keep? && Numbered(vs)[i] == Entry(i + 1, v.timestamp, v.direction, v.json)
    ensures forall i, j :: 0 <= i < j < |Kept(vs)| ==> Kept(vs)[i] < Kept(vs)[j]
    ensures forall k: nat :: k < |vs| && vs[k].Keep? ==> k in Kept(vs)
  {
    if vs != [] {
      var front, v := vs[..|vs| - 1], vs[|vs| - 1];
      Accounting(front);
      assert vs == front + [v];
      OneMore(front, v);
    }
  }

  /** A file that is a concatenation of well-formed frames imports to the accounting of what the
      frames mean. */
  lemma WholeFileImport(pats: Patterns, frames: seq<Stored>)
    requires forall f :: f in frames ==> ValidStored(f)
    ensures var (read, error) := DecodeAll(EncodeAll(frames));
            ImportOf(pats, read, error) == Summarize(JudgeAll(pats, Meanings(frames)))
  {
    ConcatenationDecodes(frames);
  }

  /** A file that breaks off inside its last frame: if the break falls on a header boundary the
      import succeeds without that frame, and otherwise the whole file is refused. */
  lemma CutFileImport(pats: Patterns, frames: seq<Stored>, last: Stored, cut: nat)
    requires (forall f :: f in frames ==> ValidStored(f)) && ValidStored(last) && cut < |EncodeStored(last)|
    ensures var (read, error) := DecodeAll(EncodeAll(frames) + EncodeStored(last)[..cut]);
            ImportOf(pats, read, error) ==
              if cut in {0, 16, 20} then Summarize(JudgeAll(pats, Meanings(frames))) else Unreadable(UnexpectedEof)
  {
    var tail := EncodeStored(last)[..cut];
    StreamRoundTrip(frames, tail);
    CutFrameReport(last, cut);
    assert DecodeAll(tail) == ([], DecodeFile(tail).0.error);
    assert Meanings(frames) + [] == Meanings(frames);
  }
}
