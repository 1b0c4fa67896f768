/** The bracket scanner that decides whether an extracted JSON text was cut off
    (internal/parser/dlt.go), and the language it accepts. */
module JsonScan {
  import opened Common

  // ---------------------------------------------------------------- scanner

  /** The three scanner variables, or the early return on a negative depth. */
  datatype State = Scan(depth: int, inString: bool, escape: bool) | Rejected

  function At(depth: int): State { Scan(depth, false, false) }

  /** One byte: 5C is the backslash, 22 the quote, 7B and 5B open, 7D and 5D close. */
  function Step(s: State, c: byte): State {
    if s.Rejected? then s
    else if s.escape then s.(escape := false)
    else if s.inString then
      if c == 0x5C then s.(escape := true)
      else if c == 0x22 then s.(inString := false)
      else s
    else if c == 0x22 then s.(inString := true)
    else if c == 0x7B || c == 0x5B then s.(depth := s.depth + 1)
    else if c == 0x7D || c == 0x5D then
      if s.depth - 1 < 0 then Rejected else s.(depth := s.depth - 1)
    else s
  }

  function Run(s: State, b: seq<byte>): State
    decreases |b|
  {
    if b == [] then s else Run(Step(s, b[0]), b[1..])
  }

  /** Whether the scan of the whole text ends outside strings at depth 0. */
  predicate Accepts(b: seq<byte>) {
    var s := Run(At(0), b);
    s.Scan? && s.depth == 0 && !s.inString
  }

  lemma {:induction false} RunShape(s: State, b: seq<byte>)
    requires s.Scan? ==> (s.escape ==> s.inString)
    ensures var r := Run(s, b); r.Scan? ==> (r.escape ==> r.inString)
    ensures s.Rejected? ==> Run(s, b).Rejected?
    decreases |b|
  {
    if b != [] {
      RunShape(Step(s, b[0]), b[1..]);
    }
  }

  // ------------------------------------------- the language of the scanner

  predicate IsOpen(c: byte) { c == 0x7B || c == 0x5B }

  predicate IsClose(c: byte) { c == 0x7D || c == 0x5D }

  /** One unit of a string literal: an ordinary byte, or a backslash with the byte it escapes. */
  datatype Unit = Raw(c: byte) | Escape(c: byte)

  /** Text whose brackets balance outside string literals. */
  datatype Text =
    | End
    | Plain(c: byte, rest: Text)
    | Quoted(units: seq<Unit>, rest: Text)
    | Nested(open: byte, inner: Text, close: byte, rest: Text)
  {
    predicate Valid() {
      match this
      case End => true
      case Plain(c, rest) => c != 0x22 && !IsOpen(c) && !IsClose(c) && rest.Valid()
      case Quoted(units, rest) => ValidUnits(units) && rest.Valid()
      case Nested(open, inner, close, rest) =>
        IsOpen(open) && inner.Valid() && IsClose(close) && rest.Valid()
    }

    /** The bytes of this text followed by `tail`. */
    function Onto(tail: seq<byte>): seq<byte> {
      match this
      case End => tail
      case Plain(c, rest) => [c] + rest.Onto(tail)
      case Quoted(units, rest) => [0x22] + UnitsOnto(units, [0x22] + rest.Onto(tail))
      case Nested(open, inner, close, rest) => [open] + inner.Onto([close] + rest.Onto(tail))
    }

    function Bytes(): seq<byte> { Onto([]) }
  }

  predicate ValidUnits(units: seq<Unit>) {
    forall u :: u in units && u.Raw? ==> u.c != 0x22 && u.c != 0x5C
  }

  function UnitsOnto(units: seq<Unit>, tail: seq<byte>): seq<byte> {
    if units == [] then tail
    else
      match units[0]
      case Raw(c) => [c] + UnitsOnto(units[1..], tail)
      case Escape(c) => [0x5C] + ([c] + UnitsOnto(units[1..], tail))
  }

  /** `b` is balanced text. */
  ghost predicate Balanced(b: seq<byte>) {
    exists t: Text :: t.Valid() && t.Bytes() == b
  }

  /** Inside a string literal the scanner keeps its depth up to the closing quote. */
  lemma {:induction false} RunUnits(units: seq<Unit>, tail: seq<byte>, d: int)
    requires ValidUnits(units)
    ensures Run(Scan(d, true, false), UnitsOnto(units, tail)) == Run(Scan(d, true, false), tail)
  {
    if units != [] {
      RunUnits(units[1..], tail, d);
      var more := UnitsOnto(units[1..], tail);
      if units[0].Escape? {
        assert UnitsOnto(units, tail)[1..] == [units[0].c] + more;
      }
    }
  }

  lemma {:induction false} RunText(t: Text, tail: seq<byte>, d: nat)
    requires t.Valid()
    ensures Run(At(d), t.Onto(tail)) == Run(At(d), tail)
  {
    match t {
      case End =>
      case Plain(c, rest) =>
        RunText(rest, tail, d);
      case Quoted(units, rest) =>
        RunUnits(units, [0x22] + rest.Onto(tail), d);
        RunText(rest, tail, d);
      case Nested(open, inner, close, rest) =>
        RunText(inner, [close] + rest.Onto(tail), d + 1);
        RunText(rest, tail, d);
    }
  }

  /** A scan that leaves a string literal read string units up to a closing quote. */
  lemma {:induction false} SplitString(b: seq<byte>, d: nat) returns (units: seq<Unit>, rest: seq<byte>)
    requires Run(Scan(d, true, false), b) == At(0)
    ensures ValidUnits(units) && b == UnitsOnto(units, [0x22] + rest)
    ensures Run(At(d), rest) == At(0)
    decreases |b|
  {
    var c := b[0];
    assert b == [c] + b[1..];
    if c == 0x22 {
      units, rest := [], b[1..];
    } else if c == 0x5C {
      assert Run(Scan(d, true, true), b[1..]) == At(0);
      assert b[1..] == [b[1]] + b[2..];
      var more;
      more, rest := SplitString(b[2..], d);
      units := [Escape(b[1])] + more;
    } else {
      var more;
      more, rest := SplitString(b[1..], d);
      units := [Raw(c)] + more;
    }
  }

  /** A scan from depth `d` down to depth 0 read balanced text, and after it (unless `d` is 0)
      the bracket that closes depth `d`. */
  lemma {:induction false} SplitText(b: seq<byte>, d: nat) returns (t: Text, tail: seq<byte>)
    requires Run(At(d), b) == At(0)
    ensures t.Valid() && b == t.Onto(tail) && |tail| <= |b|
    ensures d == 0 ==> tail == []
    ensures d > 0 ==> tail != [] && IsClose(tail[0]) && Run(At(d - 1), tail[1..]) == At(0)
    decreases |b|
  {
    if b == [] {
      t, tail := End, [];
    } else {
      var c := b[0];
      assert b == [c] + b[1..];
      var more;
      if c == 0x22 {
        var units, rest := SplitString(b[1..], d);
        UnitsOntoLength(units, [0x22] + rest);
        more, tail := SplitText(rest, d);
        t := Quoted(units, more);
      } else if IsOpen(c) {
        var inner, after := SplitText(b[1..], d + 1);
        assert after == [after[0]] + after[1..];
        more, tail := SplitText(after[1..], d);
        t := Nested(c, inner, after[0], more);
      } else if IsClose(c) {
        if d == 0 {
          RunShape(Rejected, b[1..]);
        }
        t, tail := End, b;
      } else {
        more, tail := SplitText(b[1..], d);
        t := Plain(c, more);
      }
    }
  }

  lemma {:induction false} UnitsOntoLength(units: seq<Unit>, tail: seq<byte>)
    ensures |tail| <= |UnitsOnto(units, tail)|
  {
    if units != [] {
      UnitsOntoLength(units[1..], tail);
    }
  }

  /** The scanner accepts exactly the balanced texts. */
  lemma AcceptsExactlyBalanced(b: seq<byte>)
    ensures Accepts(b) <==> Balanced(b)
  {
    if Accepts(b) {
      RunShape(At(0), b);
      var t, tail := SplitText(b, 0);
      assert t.Bytes() == b;
    }
    if Balanced(b) {
      var t: Text :| t.Valid() && t.Bytes() == b;
      RunText(t, [], 0);
    }
  }

  /** internal/parser/dlt.go: IsCompleteJSON. */
  method IsCompleteJSON(b: seq<byte>) returns (complete: bool)
    ensures complete <==> Balanced(b)
    ensures complete <==> Accepts(b)
  {
    AcceptsExactlyBalanced(b);
    var depth := 0;
    var inString, escape := false, false;
    for i := 0 to |b|
      invariant Run(At(0), b) == Run(Scan(depth, inString, escape), b[i..])
    {
      var c := b[i];
      assert b[i..][1..] == b[i + 1..];
      if escape {
        escape := false;
        continue;
      }
      if inString {
        if c == 0x5C {
          escape := true;
        } else if c == 0x22 {
          inString := false;
        }
        continue;
      }
      if c == 0x22 {
        inString := true;
      } else if c == 0x7B || c == 0x5B {
        depth := depth + 1;
      } else if c == 0x7D || c == 0x5D {
        depth := depth - 1;
        if depth < 0 {
          RunShape(Rejected, b[i + 1..]);
          return false;
        }
      }
    }
    return depth == 0 && !inString;
  }

  // -------------------------------------------------------- truncated texts

  /** A prefix of a string literal and what follows ends inside the literal, or leaves a prefix
      `past` of what follows. */
  lemma {:induction false} CutUnits(units: seq<Unit>, tail: seq<byte>, p: seq<byte>, d: int)
    returns (past: Option<seq<byte>>)
    requires ValidUnits(units) && p <= UnitsOnto(units, tail)
    ensures past.None? ==> var s := Run(Scan(d, true, false), p); s.Scan? && s.depth == d && s.inString
    ensures past.Some? ==> past.value <= tail && |p| - |past.value| == |UnitsOnto(units, tail)| - |tail|
                           && Run(Scan(d, true, false), p) == Run(Scan(d, true, false), past.value)
  {
    if units == [] {
      past := Some(p);
    } else if p == [] {
      past := None;
    } else if units[0].Raw? {
      past := CutUnits(units[1..], tail, p[1..], d);
    } else {
      var s := Scan(d, true, true);
      assert Run(Scan(d, true, false), p) == Run(s, p[1..]);
      if |p| == 1 {
        past := None;
      } else {
        assert UnitsOnto(units, tail)[2..] == UnitsOnto(units[1..], tail);
        assert Run(s, p[1..]) == Run(Scan(d, true, false), p[2..]);
        past := CutUnits(units[1..], tail, p[2..], d);
      }
    }
  }

  /** No prefix of balanced text brings the scanner below the depth it started from, unless it
      leaves a prefix `past` of what follows the text. */
  lemma {:induction false} CutText(t: Text, tail: seq<byte>, p: seq<byte>, d: nat) returns (past: Option<seq<byte>>)
    requires t.Valid() && p <= t.Onto(tail)
    ensures past.None? ==> var s := Run(At(d), p); s.Scan? && s.depth >= d
    ensures past.Some? ==> past.value <= tail && |p| - |past.value| == |t.Onto(tail)| - |tail|
                           && Run(At(d), p) == Run(At(d), past.value)
  {
    if t.End? {
      past := Some(p);
    } else if p == [] {
      past := None;
    } else {
      match t {
        case Plain(c, rest) =>
          past := CutText(rest, tail, p[1..], d);
        case Quoted(units, rest) =>
          var q := CutUnits(units, [0x22] + rest.Onto(tail), p[1..], d);
          if q.None? || q.value == [] {
            past := None;
          } else {
            past := CutText(rest, tail, q.value[1..], d);
          }
        case Nested(open, inner, close, rest) =>
          var q := CutText(inner, [close] + rest.Onto(tail), p[1..], d + 1);
          if q.None? || q.value == [] {
            past := None;
          } else {
            past := CutText(rest, tail, q.value[1..], d);
          }
      }
    }
  }

  /** A bracketed text is accepted as a whole, and every shorter non-empty cut of it is rejected. */
  lemma EveryTruncationIsRejected(open: byte, inner: Text, close: byte, cut: nat)
    requires IsOpen(open) && inner.Valid() && IsClose(close)
    requires cut <= |Nested(open, inner, close, End).Bytes()|
    ensures var whole := Nested(open, inner, close, End).Bytes();
            Accepts(whole[..cut]) <==> cut == 0 || cut == |whole|
  {
    var t := Nested(open, inner, close, End);
    var whole := t.Bytes();
    var p := whole[..cut];
    if cut == |whole| {
      assert p == whole;
      RunText(t, [], 0);
    } else if cut > 0 {
      assert [close] + End.Onto([]) == [close];
      assert p[1..] == whole[1..][..cut - 1];
      var past := CutText(inner, [close], p[1..], 1);
      assert past.Some? ==> past.value == [];
    }
  }
}
