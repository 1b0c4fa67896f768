/** The binary DLT frame reader (internal/parser/dltbin.go) and the frame layout of AUTOSAR
    PRS_LogAndTraceProtocol section 5.1 it reads. Go strings are byte sequences here; time stamps
    are nanoseconds since the Unix epoch. */
module DltFrame {
  import opened Common

  const STORAGE_HEADER := 16
  const STORAGE_MAGIC: seq<byte> := [0x44, 0x4C, 0x54, 0x01]
  const SPACE: byte := 0x20

  datatype ReadError = Eof | UnexpectedEof | BadMagic | BogusLength

  datatype Result<+T> = Ok(value: T) | Err(error: ReadError)

  datatype DltMessage = DltMessage(timestamp: int, ecuId: seq<byte>, apid: seq<byte>, ctid: seq<byte>,
                                   verbose: bool, args: seq<byte>)

  // ----------------------------------------------------------------- reader

  /** io.ReadFull: the outcome and what is left of the stream. */
  function ReadFullOf(n: nat, s: seq<byte>): (Result<seq<byte>>, seq<byte>) {
    if n <= |s| then (Ok(s[..n]), s[n..])
    else if s == [] then (Err(Eof), [])
    else (Err(UnexpectedEof), [])
  }

  /** An io.Reader over the bytes that have not been read yet. */
  class Reader {
    var rest: seq<byte>

    constructor (bytes: seq<byte>)
      ensures rest == bytes
    {
      rest := bytes;
    }

    method ReadFull(n: nat) returns (r: Result<seq<byte>>)
      modifies this
      ensures (r, rest) == ReadFullOf(n, old(rest))
      ensures r.Ok? ==> |r.value| == n
    {
      if n <= |rest| {
        r, rest := Ok(rest[..n]), rest[n..];
      } else {
        r, rest := Err(if rest == [] then Eof else UnexpectedEof), [];
      }
    }
  }

  // ------------------------------------------------------------ byte orders

  function Get16(be: bool, b: seq<byte>): nat
    requires |b| == 2
  {
    var first: int, second: int := b[0], b[1];
    if be then first * 0x100 + second else second * 0x100 + first
  }

  function Get32(be: bool, b: seq<byte>): nat
    requires |b| == 4
  {
    if be then Get16(be, b[..2]) * 0x1_0000 + Get16(be, b[2..])
    else Get16(be, b[2..]) * 0x1_0000 + Get16(be, b[..2])
  }

  function Put16(be: bool, n: nat): (b: seq<byte>)
    requires n < 0x1_0000
    ensures |b| == 2 && Get16(be, b) == n
  {
    if be then [n / 0x100, n % 0x100] else [n % 0x100, n / 0x100]
  }

  function Put32(be: bool, n: nat): (b: seq<byte>)
    requires n < 0x1_0000_0000
    ensures |b| == 4 && Get32(be, b) == n
  {
    var hi, lo := Put16(be, n / 0x1_0000), Put16(be, n % 0x1_0000);
    var b := if be then hi + lo else lo + hi;
    assert b[..2] == if be then hi else lo;
    assert b[2..] == if be then lo else hi;
    b
  }

  predicate Flag(bits: nat, weight: nat)
    requires weight > 0
  {
    bits / weight % 2 == 1
  }

  // -------------------------------------------------- nul-terminated fields

  function BeforeNul(b: seq<byte>): (r: seq<byte>)
    ensures r <= b && 0 !in r
    ensures |r| < |b| ==> b[|r|] == 0
  {
    if b == [] || b[0] == 0 then [] else [b[0]] + BeforeNul(b[1..])
  }

  /** internal/parser/dltbin.go: indexNul. */
  method IndexNul(b: seq<byte>) returns (n: int)
    ensures n < 0 ==> 0 !in b
    ensures n >= 0 ==> n < |b| && b[n] == 0 && 0 !in b[..n]
  {
    for i := 0 to |b|
      invariant 0 !in b[..i]
    {
      if b[i] == 0 {
        return i;
      }
    }
    return -1;
  }

  /** internal/parser/dltbin.go: trimZero. */
  method TrimZero(b: seq<byte>) returns (r: seq<byte>)
    ensures r == BeforeNul(b)
  {
    var n := IndexNul(b);
    r := if n < 0 then b else b[..n];
    BeforeNulIs(b, |r|);
  }

  lemma {:induction false} BeforeNulIs(b: seq<byte>, n: nat)
    requires n <= |b| && 0 !in b[..n] && (n < |b| ==> b[n] == 0)
    ensures BeforeNul(b) == b[..n]
  {
    if n > 0 {
      assert b[..n] == [b[0]] + b[1..][..n - 1];
      BeforeNulIs(b[1..], n - 1);
    }
  }

  // ------------------------------------------------------- verbose arguments

  predicate IsStringType(typeInfo: nat) { Flag(typeInfo, 0x200) }

  /** `s` added to the text gathered so far. */
  function AddText(out: seq<byte>, s: seq<byte>): seq<byte> {
    (if |out| > 0 then out + [SPACE] else []) + s
  }

  datatype StringArg = StringArg(text: seq<byte>, size: nat)

  /** The string argument at the start of `p`: its text up to a nul, and its size with type info and
      length; None if `p` does not start with a string argument that fits. */
  function FirstArg(p: seq<byte>, be: bool): (r: Option<StringArg>)
    ensures r.Some? ==> 6 <= r.value.size <= |p|
  {
    if |p| < 6 || !IsStringType(Get32(be, p[..4])) then None
    else
      var size := 6 + Get16(be, p[4..6]);
      if |p| < size then None else Some(StringArg(BeforeNul(p[6..size]), size))
  }

  /** The text gathered from the argument list `p` on top of `out`, up to the first argument that
      is not a string or does not fit. */
  function Walk(p: seq<byte>, be: bool, out: seq<byte>): seq<byte>
    decreases |p|
  {
    match FirstArg(p, be)
    case None => out
    case Some(arg) => Walk(p[arg.size..], be, AddText(out, arg.text))
  }

  /** The argument at position `pos` of the payload. */
  lemma ArgAt(p: seq<byte>, pos: nat, be: bool)
    requires pos + 4 <= |p|
    ensures FirstArg(p[pos..], be) ==
              if pos + 6 > |p| || !IsStringType(Get32(be, p[pos..pos + 4])) then None
              else
                var size := 6 + Get16(be, p[pos + 4..pos + 6]);
                if pos + size > |p| then None else Some(StringArg(BeforeNul(p[pos + 6..pos + size]), size))
  {
    TakeOfDrop(p, pos, 4);
    if pos + 6 <= |p| {
      SliceOfDrop(p, pos, 4, 6);
      var size := 6 + Get16(be, p[pos + 4..pos + 6]);
      if pos + size <= |p| {
        SliceOfDrop(p, pos, 6, size);
      }
    }
  }

  /** One step of `Walk` inside a longer payload. */
  lemma WalkFrom(p: seq<byte>, pos: nat, be: bool, out: seq<byte>)
    requires pos <= |p|
    ensures match FirstArg(p[pos..], be)
            case None => Walk(p[pos..], be, out) == out
            case Some(arg) =>
              pos + arg.size <= |p| && Walk(p[pos..], be, out) == Walk(p[pos + arg.size..], be, AddText(out, arg.text))
  {
    var arg := FirstArg(p[pos..], be);
    if arg.Some? {
      SliceOfDrop(p, pos, 0, arg.value.size);
    }
  }

  /** The body of decodeVerboseStringArgs' loop up to the argument's text. */
  method ReadArg(p: seq<byte>, pos: nat, be: bool) returns (arg: Option<StringArg>)
    requires pos + 4 <= |p|
    ensures arg == FirstArg(p[pos..], be)
  {
    ArgAt(p, pos, be);
    var typeInfo := Get32(be, p[pos..pos + 4]);
    if !IsStringType(typeInfo) || pos + 6 > |p| {
      return None;
    }
    var sl := Get16(be, p[pos + 4..pos + 6]);
    if pos + (6 + sl) > |p| {
      return None;
    }
    var s := TrimZero(p[pos + 6..pos + (6 + sl)]);
    return Some(StringArg(s, 6 + sl));
  }

  /** internal/parser/dltbin.go: decodeVerboseStringArgs. */
  method DecodeVerboseStringArgs(p: seq<byte>, be: bool) returns (out: seq<byte>)
    ensures out == Walk(p, be, [])
  {
    out := [];
    var pos := 0;
    while pos + 4 <= |p|
      invariant 0 <= pos <= |p|
      invariant Walk(p, be, []) == Walk(p[pos..], be, out)
      decreases |p| - pos
    {
      WalkFrom(p, pos, be, out);
      var arg := ReadArg(p, pos, be);
      if arg.None? {
        break;
      }
      if |out| > 0 {
        out := out + [SPACE];
      }
      out := out + arg.value.text;
      pos := pos + arg.value.size;
    }
  }

  // ---------------------------------------------------------- frame decoding

  /** Size of the optional fields of the standard header (ECU id, session id, time stamp). */
  function OptionalSize(htyp: nat): nat {
    (if Flag(htyp, 4) then 4 else 0) + (if Flag(htyp, 8) then 4 else 0) + (if Flag(htyp, 16) then 4 else 0)
  }

  function ExtendedSize(htyp: nat): nat { if Flag(htyp, 1) then 10 else 0 }

  /** The meaning of the bytes after the four fixed ones of the standard header. */
  function DecodeBody(htyp: nat, body: seq<byte>): Result<DltMessage> {
    var ext := OptionalSize(htyp);
    var start := ext + ExtendedSize(htyp);
    if |body| < start then Err(UnexpectedEof)
    else
      var ecu := if Flag(htyp, 4) then BeforeNul(body[..4]) else [];
      if !Flag(htyp, 1) then Ok(DltMessage(0, ecu, [], [], false, []))
      else
        var verbose := Flag(body[ext], 1);
        Ok(DltMessage(0, ecu, BeforeNul(body[ext + 2..ext + 6]), BeforeNul(body[ext + 6..ext + 10]), verbose,
                      if verbose then Walk(body[start..], Flag(htyp, 2), []) else []))
  }

  /** A frame without storage header, and the rest of the stream. */
  function DecodeWire(s: seq<byte>): (Result<DltMessage>, seq<byte>) {
    var (std, rest) := ReadFullOf(4, s);
    if std.Err? then (Err(std.error), rest)
    else
      var length := Get16(true, std.value[2..4]);
      if length < 4 then (Err(BogusLength), rest)
      else
        var (body, after) := ReadFullOf(length - 4, rest);
        (if body.Err? then Err(body.error) else DecodeBody(std.value[0], body.value), after)
  }

  /** A frame of a `.dlt` file, which has a storage header in front. */
  function DecodeFile(s: seq<byte>): (Result<DltMessage>, seq<byte>) {
    var (storage, rest) := ReadFullOf(STORAGE_HEADER, s);
    if storage.Err? then (Err(storage.error), rest)
    else if storage.value[..4] != STORAGE_MAGIC then (Err(BadMagic), rest)
    else
      var (frame, after) := DecodeWire(rest);
      (if frame.Err? then frame else Ok(AddStorage(storage.value, frame.value)), after)
  }

  function AddStorage(storage: seq<byte>, msg: DltMessage): DltMessage
    requires |storage| == STORAGE_HEADER
  {
    msg.(timestamp := WallClock(Get32(false, storage[4..8]), Get32(false, storage[8..12])),
         ecuId := if msg.ecuId == [] then BeforeNul(storage[12..16]) else msg.ecuId)
  }

  function WallClock(secs: nat, usecs: nat): int { secs * 1_000_000_000 + usecs * 1_000 }

  /** The optional fields of the standard header: the position after them, and the ECU id. */
  method ParseOptional(htyp: byte, rest: seq<byte>) returns (res: Result<(nat, seq<byte>)>)
    ensures res == if |rest| < OptionalSize(htyp) then Err(UnexpectedEof)
                   else Ok((OptionalSize(htyp), if Flag(htyp, 4) then BeforeNul(rest[..4]) else []))
  {
    var pos, ecuId := 0, [];
    if Flag(htyp, 4) {
      if pos + 4 > |rest| {
        return Err(UnexpectedEof);
      }
      ecuId := TrimZero(rest[pos..pos + 4]);
      pos := pos + 4;
    }
    if Flag(htyp, 8) {
      if pos + 4 > |rest| {
        return Err(UnexpectedEof);
      }
      pos := pos + 4;
    }
    if Flag(htyp, 16) {
      if pos + 4 > |rest| {
        return Err(UnexpectedEof);
      }
      pos := pos + 4;
    }
    return Ok((pos, ecuId));
  }

  /** The part of readStandardAndPayload that walks the headers and the payload of one frame. */
  method ParseBody(htyp: byte, rest: seq<byte>) returns (res: Result<DltMessage>)
    ensures res == DecodeBody(htyp, rest)
  {
    var optional := ParseOptional(htyp, rest);
    if optional.Err? {
      return Err(optional.error);
    }
    var (pos, ecuId) := optional.value;
    var msg := DltMessage(0, ecuId, [], [], false, []);
    if Flag(htyp, 1) {
      if pos + 10 > |rest| {
        return Err(UnexpectedEof);
      }
      var apid := TrimZero(rest[pos + 2..pos + 6]);
      var ctid := TrimZero(rest[pos + 6..pos + 10]);
      msg := msg.(apid := apid, ctid := ctid, verbose := Flag(rest[pos], 1));
      pos := pos + 10;
    }
    if !msg.verbose {
      return Ok(msg);
    }
    var args := DecodeVerboseStringArgs(rest[pos..], Flag(htyp, 2));
    return Ok(msg.(args := args));
  }

  /** internal/parser/dltbin.go: readStandardAndPayload. */
  method ReadStandardAndPayload(r: Reader) returns (res: Result<DltMessage>)
    modifies r
    ensures (res, r.rest) == DecodeWire(old(r.rest))
  {
    var std := r.ReadFull(4);
    if std.Err? {
      return Err(std.error);
    }
    var msgLen := Get16(true, std.value[2..4]);
    if msgLen < 4 {
      return Err(BogusLength);
    }
    var body := r.ReadFull(msgLen - 4);
    if body.Err? {
      return Err(body.error);
    }
    res := ParseBody(std.value[0], body.value);
  }

  /** internal/parser/dltbin.go: ReadDLTMessage. */
  method ReadDLTMessage(r: Reader) returns (res: Result<DltMessage>)
    modifies r
    ensures (res, r.rest) == DecodeFile(old(r.rest))
    ensures res.Ok? ==> |r.rest| < |old(r.rest)|
  {
    var header := r.ReadFull(STORAGE_HEADER);
    if header.Err? {
      return Err(header.error);
    }
    var storage := header.value;
    if storage[0..4] != STORAGE_MAGIC {
      return Err(BadMagic);
    }
    var secs := Get32(false, storage[4..8]);
    var usecs := Get32(false, storage[8..12]);
    var ecuId := TrimZero(storage[12..16]);
    res := ReadStandardAndPayload(r);
    if res.Err? {
      return;
    }
    var msg := res.value.(timestamp := WallClock(secs, usecs));
    if msg.ecuId == [] {
      msg := msg.(ecuId := ecuId);
    }
    return Ok(msg);
  }

  /** internal/parser/dltbin.go: ReadDLTMessageStream. */
  method ReadDLTMessageStream(r: Reader, fallback: int) returns (res: Result<DltMessage>)
    modifies r
    ensures var (wire, after) := DecodeWire(old(r.rest));
            r.rest == after && res == if wire.Ok? then Ok(wire.value.(timestamp := fallback)) else wire
  {
    res := ReadStandardAndPayload(r);
    if res.Ok? {
      res := Ok(res.value.(timestamp := fallback));
    }
  }
}
