/** Line reassembly of the log tail source across polls (internal/capture/source_logtail.go). */
module LogTail {
  import opened Common

  const NEWLINE: byte := 0x0A

  /** The part of `s` up to and including its first newline, or all of it without one. */
  function FirstLine(s: seq<byte>): (line: seq<byte>)
    ensures line <= s && (s != [] ==> line != [])
    ensures NEWLINE in line <==> NEWLINE in s
    ensures NEWLINE in line ==> IsLine(line)
    ensures NEWLINE !in line ==> line == s
  {
    if s == [] then []
    else if s[0] == NEWLINE then [NEWLINE]
    else
      assert s == [s[0]] + s[1..];
      [s[0]] + FirstLine(s[1..])
  }

  /** Ends in its only newline. */
  predicate IsLine(line: seq<byte>) {
    line != [] && line[|line| - 1] == NEWLINE && NEWLINE !in line[..|line| - 1]
  }

  function Flatten(lines: seq<seq<byte>>): seq<byte> {
    if lines == [] then [] else Flatten(lines[..|lines| - 1]) + lines[|lines| - 1]
  }

  /** `lines` are complete lines and `partial` an unfinished one that together make up `bytes`. */
  ghost predicate Reassembles(lines: seq<seq<byte>>, partial: seq<byte>, bytes: seq<byte>) {
    && Flatten(lines) + partial == bytes
    && (forall i :: 0 <= i < |lines| ==> IsLine(lines[i]))
    && NEWLINE !in partial
  }

  lemma FlattenMore(lines: seq<seq<byte>>, line: seq<byte>)
    ensures Flatten(lines + [line]) == Flatten(lines) + line
  {
    assert (lines + [line])[..|lines|] == lines;
  }

  lemma LineCompletes(lines: seq<seq<byte>>, partial: seq<byte>, bytes: seq<byte>, line: seq<byte>)
    requires Reassembles(lines, partial, bytes) && IsLine(line)
    ensures Reassembles(lines + [partial + line], [], bytes + line)
  {
    FlattenMore(lines, partial + line);
    Regroup(Flatten(lines), partial, line);
    assert (partial + line)[..|partial + line| - 1] == partial + line[..|line| - 1];
    assert bytes + line + [] == bytes + line;
  }

  lemma PartialGrows(lines: seq<seq<byte>>, partial: seq<byte>, bytes: seq<byte>, line: seq<byte>)
    requires Reassembles(lines, partial, bytes) && NEWLINE !in line
    ensures Reassembles(lines, partial + line, bytes + line)
  {
    Regroup(Flatten(lines), partial, line);
  }

  /** The source: bytes of the file that were not read yet, the kept partial line, and the lines
      handed to processLine. `read` is everything read so far. */
  class LogTailSource {
    var available: seq<byte>
    var partial: seq<byte>
    var processed: seq<seq<byte>>
    ghost var read: seq<byte>

    constructor ()
      ensures Valid() && read == [] && available == []
    {
      available, partial, processed, read := [], [], [], [];
    }

    ghost predicate Valid()
      reads this
    {
      Reassembles(processed, partial, read)
    }

    /** bufio.Reader.ReadString('\n'): a line, or what is left together with the end of the file. */
    method ReadString() returns (line: seq<byte>, eof: bool)
      modifies this`available, this`read
      ensures line == FirstLine(old(available)) && eof == (NEWLINE !in old(available))
      ensures old(available) == line + available && read == old(read) + line
      ensures eof ==> available == []
    {
      line := FirstLine(available);
      eof := NEWLINE !in available;
      available := available[|line|..];
      read := read + line;
    }

    /** readNewLines, called on each tick with the bytes the file has grown by. */
    method ReadNewLines(grown: seq<byte>)
      requires Valid() && available == []
      modifies this
      ensures Valid() && available == [] && read == old(read) + grown
      ensures old(processed) <= processed
    {
      available := grown;
      while true
        invariant Valid() && read + available == old(read) + grown
        invariant old(processed) <= processed
        decreases |available|
      {
        ghost var soFar, kept := read, partial;
        var line, eof := ReadString();
        Regroup(soFar, line, available);
        if |line| != 0 {
          partial := partial + line;
          if line[|line| - 1] == NEWLINE {
            LineCompletes(processed, kept, soFar, line);
            processed := processed + [partial];
            partial := [];
          } else {
            PartialGrows(processed, kept, soFar, line);
          }
        }
        if eof {
          return;
        }
      }
    }
  }

  // -------------------------------------------------------------------- laws

  /** Lines and partial line are determined by the bytes. */
  lemma {:induction false} ReassemblyIsUnique(l1: seq<seq<byte>>, p1: seq<byte>, l2: seq<seq<byte>>, p2: seq<byte>,
                                              bytes: seq<byte>)
    requires Reassembles(l1, p1, bytes) && Reassembles(l2, p2, bytes)
    ensures l1 == l2 && p1 == p2
    decreases |l1|
  {
    EndOfLines(l1);
    EndOfLines(l2);
    SamePartial(Flatten(l1), p1, Flatten(l2), p2);
    if l1 != [] && l2 != [] {
      var f1, f2 := l1[..|l1| - 1], l2[..|l2| - 1];
      LastLine(f1, l1[|l1| - 1], f2, l2[|l2| - 1]);
      assert Flatten(f1) + [] == Flatten(f1);
      ReassemblyIsUnique(f1, [], f2, [], Flatten(f1));
      assert l1 == f1 + [l1[|l1| - 1]] && l2 == f2 + [l2[|l2| - 1]];
    }
  }

  /** The last of several lines is determined. */
  lemma LastLine(f1: seq<seq<byte>>, x1: seq<byte>, f2: seq<seq<byte>>, x2: seq<byte>)
    requires (forall i :: 0 <= i < |f1| ==> IsLine(f1[i])) && (forall i :: 0 <= i < |f2| ==> IsLine(f2[i]))
    requires IsLine(x1) && IsLine(x2) && Flatten(f1) + x1 == Flatten(f2) + x2
    ensures Flatten(f1) == Flatten(f2) && x1 == x2
  {
    EndOfLines(f1);
    EndOfLines(f2);
    var b1, b2 := x1[..|x1| - 1], x2[..|x2| - 1];
    assert x1 == b1 + [NEWLINE] && x2 == b2 + [NEWLINE];
    Regroup(Flatten(f1), b1, [NEWLINE]);
    Regroup(Flatten(f2), b2, [NEWLINE]);
    DropLast(Flatten(f1) + b1, Flatten(f2) + b2);
    SamePartial(Flatten(f1), b1, Flatten(f2), b2);
  }

  lemma DropLast(a: seq<byte>, b: seq<byte>)
    requires a + [NEWLINE] == b + [NEWLINE]
    ensures a == b
  {
    assert (a + [NEWLINE])[..|a|] == a && (b + [NEWLINE])[..|b|] == b;
  }

  /** Flattened lines are empty or end in a newline. */
  lemma EndOfLines(lines: seq<seq<byte>>)
    requires forall i :: 0 <= i < |lines| ==> IsLine(lines[i])
    ensures var s := Flatten(lines); if lines == [] then s == [] else s != [] && s[|s| - 1] == NEWLINE
  {
  }

  lemma SamePartial(a: seq<byte>, p: seq<byte>, b: seq<byte>, q: seq<byte>)
    requires a + p == b + q && NEWLINE !in p && NEWLINE !in q
    requires (a == [] || a[|a| - 1] == NEWLINE) && (b == [] || b[|b| - 1] == NEWLINE)
    ensures a == b && p == q
  {
    var s := a + p;
    assert forall i :: |a| <= i < |s| ==> s[i] == p[i - |a|];
    assert forall i :: |b| <= i < |s| ==> s[i] == q[i - |b|];
    assert a != [] ==> s[|a| - 1] == NEWLINE;
    assert b != [] ==> s[|b| - 1] == NEWLINE;
    assert |a| == |b|;
    assert s[..|a|] == a && s[..|b|] == b;
    assert s[|a|..] == p && s[|b|..] == q;
  }

  /** However a file's growth is split over the ticks, two sources that have read the same bytes have
      processed the same lines and keep the same partial line. */
  lemma SplitIndependent(s: LogTailSource, t: LogTailSource)
    requires s.Valid() && t.Valid() && s.read == t.read
    ensures s.processed == t.processed && s.partial == t.partial
  {
    ReassemblyIsUnique(s.processed, s.partial, t.processed, t.partial, s.read);
  }

  /** A run of ticks: the source ends up with all the growth read, whatever the chunks. */
  method Poll(source: LogTailSource, chunks: seq<seq<byte>>)
    requires source.Valid() && source.available == []
    modifies source
    ensures source.Valid() && source.read == old(source.read) + Flatten(chunks)
  {
    assert source.read + [] == source.read;
    for i := 0 to |chunks|
      invariant source.Valid() && source.available == []
      invariant source.read == old(source.read) + Flatten(chunks[..i])
    {
      assert chunks[..i + 1] == chunks[..i] + [chunks[i]];
      FlattenMore(chunks[..i], chunks[i]);
      Regroup(old(source.read), Flatten(chunks[..i]), chunks[i]);
      source.ReadNewLines(chunks[i]);
    }
    assert chunks[..|chunks|] == chunks;
  }
}
