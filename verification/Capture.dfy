/** The capture engine (internal/capture/capture.go): its lock-protected fields as a class, and the
    system of interleaved starts, stops and source goroutines around it. */
module Capture {
  import opened Common

  /** A sequence number as issued: by which goroutine, in which session, for which trace. */
  datatype Stamp = Stamp(goroutine: nat, session: nat, traceId: int, number: nat)

  /** Where a source goroutine is in the emit closure of runSource. */
  datatype Phase = Waiting | Stamped(stamp: Stamp) | Inserted(stamp: Stamp) | Finished

  /** The engine's fields; `session` counts the successful starts. */
  datatype Fields = Fields(capturing: bool, traceId: int, seqNum: nat, session: nat)

  /** The fields, the source goroutines with the sessions they were started in, and what was issued,
      inserted and announced to the callbacks so far, with the trace of each session. */
  datatype State = State(fields: Fields, sources: map<nat, Phase>, homes: map<nat, nat>, traces: seq<int>,
                         issued: seq<Stamp>, inserted: seq<Stamp>, announced: seq<Stamp>)

  datatype Action =
    | Start(g: nat, traceId: int)
    | Stop
    | Issue(g: nat)
    | Insert(g: nat)
    | Announce(g: nat)
    | Finish(g: nat)

  const INITIAL := State(Fields(false, 0, 0, 0), map[], map[], [], [], [], [])

  // ------------------------------------------- the engine's critical sections

  function Started(f: Fields, traceId: int): Fields {
    if f.capturing then f else Fields(true, traceId, 0, f.session + 1)
  }

  function Stopped(f: Fields): Fields { f.(capturing := false) }

  function Counted(f: Fields): Fields { f.(seqNum := f.seqNum + 1) }

  /** The fields of the engine, each method being one section under its mutex. */
  class Engine {
    var capturing: bool
    var traceId: int
    var seqNum: nat
    ghost var session: nat

    constructor ()
      ensures View() == INITIAL.fields
    {
      capturing, traceId, seqNum, session := false, 0, 0, 0;
    }

    ghost function View(): Fields
      reads this
    {
      Fields(capturing, traceId, seqNum, session)
    }

    /** Engine.StartWithSource; the result says whether the source was started. */
    method StartWithSource(trace: int) returns (started: bool)
      modifies this
      ensures started == !old(capturing)
      ensures View() == Started(old(View()), trace)
    {
      if capturing {
        return false;
      }
      capturing := true;
      traceId := trace;
      seqNum := 0;
      session := session + 1;
      return true;
    }

    /** Engine.Stop. */
    method Stop()
      modifies this
      ensures View() == Stopped(old(View()))
    {
      if !capturing {
        return;
      }
      capturing := false;
    }

    /** The first section of the emit closure in runSource. */
    method Issue() returns (number: nat, trace: int)
      modifies this
      ensures View() == Counted(old(View()))
      ensures number == seqNum && trace == traceId
    {
      seqNum := seqNum + 1;
      return seqNum, traceId;
    }

    /** The section at the end of runSource. */
    method Finish()
      modifies this
      ensures View() == Stopped(old(View()))
    {
      capturing := false;
    }
  }

  // ------------------------------------------------------------------- steps

  predicate Enabled(s: State, a: Action) {
    match a
    case Start(g, _) => g !in s.sources
    case Stop => true
    case Issue(g) => g in s.sources && s.sources[g].Waiting?
    case Insert(g) => g in s.sources && s.sources[g].Stamped?
    case Announce(g) => g in s.sources && s.sources[g].Inserted?
    case Finish(g) => g in s.sources && s.sources[g].Waiting?
  }

  function Do(s: State, a: Action): State
    requires Enabled(s, a)
  {
    match a
    case Start(g, traceId) =>
      if s.fields.capturing then s
      else s.(fields := Started(s.fields, traceId), sources := s.sources[g := Waiting],
              homes := s.homes[g := s.fields.session + 1], traces := s.traces + [traceId])
    case Stop => s.(fields := Stopped(s.fields))
    case Issue(g) =>
      var f := Counted(s.fields);
      var stamp := Stamp(g, f.session, f.traceId, f.seqNum);
      s.(fields := f, sources := s.sources[g := Stamped(stamp)], issued := s.issued + [stamp])
    case Insert(g) =>
      var stamp := s.sources[g].stamp;
      s.(sources := s.sources[g := Inserted(stamp)], inserted := s.inserted + [stamp])
    case Announce(g) =>
      var stamp := s.sources[g].stamp;
      s.(sources := s.sources[g := Waiting], announced := s.announced + [stamp])
    case Finish(g) =>
      s.(fields := Stopped(s.fields), sources := s.sources[g := Finished])
  }

  function After(run: seq<Action>): Option<State> {
    if run == [] then Some(INITIAL)
    else
      match After(run[..|run| - 1])
      case None => None
      case Some(s) => if Enabled(s, run[|run| - 1]) then Some(Do(s, run[|run| - 1])) else None
  }

  // -------------------------------------------------------------- invariants

  /** The stamps of one session, in the order they were issued. */
  function OfSession(stamps: seq<Stamp>, k: nat): seq<Stamp> {
    if stamps == [] then []
    else
      var x := stamps[|stamps| - 1];
      OfSession(stamps[..|stamps| - 1], k) + (if x.session == k then [x] else [])
  }

  /** The stamps of one goroutine, in order. */
  function OfSource(stamps: seq<Stamp>, g: nat): seq<Stamp> {
    if stamps == [] then []
    else
      var x := stamps[|stamps| - 1];
      OfSource(stamps[..|stamps| - 1], g) + (if x.goroutine == g then [x] else [])
  }

  lemma StampsMore(stamps: seq<Stamp>, x: Stamp)
    ensures forall k :: OfSession(stamps + [x], k) == OfSession(stamps, k) + (if x.session == k then [x] else [])
    ensures forall g :: OfSource(stamps + [x], g) == OfSource(stamps, g) + (if x.goroutine == g then [x] else [])
  {
    assert (stamps + [x])[..|stamps|] == stamps;
  }

  lemma SourceMore(stamps: seq<Stamp>, x: Stamp, g: nat)
    ensures OfSource(stamps + [x], g) == if x.goroutine == g then OfSource(stamps, g) + [x] else OfSource(stamps, g)
  {
    StampsMore(stamps, x);
  }

  /** The numbers are 1, 2, 3, … and carry the trace. */
  ghost predicate CountsUp(stamps: seq<Stamp>, traceId: int) {
    forall i :: 0 <= i < |stamps| ==> stamps[i].number == i + 1 && stamps[i].traceId == traceId
  }

  ghost predicate SessionsCountUp(s: State) {
    && s.fields.session == |s.traces|
    && (s.fields.session > 0 ==> s.fields.traceId == s.traces[s.fields.session - 1])
    && (s.fields.session == 0 ==> s.sources == map[])
    && |OfSession(s.issued, s.fields.session)| == s.fields.seqNum
    && (forall k :: k > s.fields.session ==> OfSession(s.issued, k) == [])
    && OfSession(s.issued, 0) == []
    && (forall k :: 1 <= k <= |s.traces| ==> CountsUp(OfSession(s.issued, k), s.traces[k - 1]))
  }

  function Pending(p: Option<Phase>): seq<Stamp> {
    match p case Some(Stamped(x)) => [x] case _ => []
  }

  function Unannounced(p: Option<Phase>): seq<Stamp> {
    match p case Some(Inserted(x)) => [x] case _ => []
  }

  function PhaseOf(s: State, g: nat): Option<Phase> { if g in s.sources then Some(s.sources[g]) else None }

  /** Each goroutine inserts what it was issued and announces what it inserted, one at a time. */
  ghost predicate SourceInOrder(s: State, g: nat) {
    && OfSource(s.issued, g) == OfSource(s.inserted, g) + Pending(PhaseOf(s, g))
    && OfSource(s.inserted, g) == OfSource(s.announced, g) + Unannounced(PhaseOf(s, g))
    && (PhaseOf(s, g).Some? && PhaseOf(s, g).value.Stamped? ==> PhaseOf(s, g).value.stamp.goroutine == g)
    && (PhaseOf(s, g).Some? && PhaseOf(s, g).value.Inserted? ==> PhaseOf(s, g).value.stamp.goroutine == g)
  }

  ghost predicate Inv(s: State) { SessionsCountUp(s) && forall g :: SourceInOrder(s, g) }

  lemma StepKeepsSessions(s: State, a: Action)
    requires SessionsCountUp(s) && Enabled(s, a)
    ensures SessionsCountUp(Do(s, a))
  {
    if a.Issue? {
      IssueKeepsSessions(s, a.g);
    }
  }

  lemma IssueKeepsSessions(s: State, g: nat)
    requires SessionsCountUp(s) && Enabled(s, Issue(g))
    ensures SessionsCountUp(Do(s, Issue(g)))
  {
    var t := Do(s, Issue(g));
    var x := t.sources[g].stamp;
    StampsMore(s.issued, x);
    assert OfSession(t.issued, x.session) == OfSession(s.issued, x.session) + [x];
    forall k | 1 <= k <= |t.traces| ensures CountsUp(OfSession(t.issued, k), t.traces[k - 1]) {
      assert CountsUp(OfSession(s.issued, k), s.traces[k - 1]);
      if k != x.session {
        assert OfSession(t.issued, k) == OfSession(s.issued, k);
      }
    }
  }

  lemma StepKeepsOrder(s: State, a: Action, g: nat)
    requires SourceInOrder(s, g) && Enabled(s, a)
    requires a.Insert? || a.Announce? ==> SourceInOrder(s, a.g)
    ensures SourceInOrder(Do(s, a), g)
  {
    match a {
      case Issue(h) => IssueKeepsOrder(s, h, g);
      case Insert(h) => InsertKeepsOrder(s, h, g);
      case Announce(h) => AnnounceKeepsOrder(s, h, g);
      case _ =>
    }
  }

  lemma NothingAfter(a: seq<Stamp>)
    ensures a + [] == a
  {
  }

  lemma IssueKeepsOrder(s: State, h: nat, g: nat)
    requires SourceInOrder(s, g) && Enabled(s, Issue(h))
    ensures SourceInOrder(Do(s, Issue(h)), g)
  {
    var t := Do(s, Issue(h));
    SourceMore(s.issued, t.sources[h].stamp, g);
    NothingAfter(OfSource(s.inserted, g));
    if g != h {
      assert PhaseOf(t, g) == PhaseOf(s, g);
    }
  }

  lemma InsertKeepsOrder(s: State, h: nat, g: nat)
    requires SourceInOrder(s, g) && SourceInOrder(s, h) && Enabled(s, Insert(h))
    ensures SourceInOrder(Do(s, Insert(h)), g)
  {
    var t := Do(s, Insert(h));
    SourceMore(s.inserted, s.sources[h].stamp, g);
    NothingAfter(OfSource(t.inserted, g));
    NothingAfter(OfSource(s.announced, g));
    if g != h {
      assert PhaseOf(t, g) == PhaseOf(s, g);
    }
  }

  lemma AnnounceKeepsOrder(s: State, h: nat, g: nat)
    requires SourceInOrder(s, g) && SourceInOrder(s, h) && Enabled(s, Announce(h))
    ensures SourceInOrder(Do(s, Announce(h)), g)
  {
    var t := Do(s, Announce(h));
    SourceMore(s.announced, s.sources[h].stamp, g);
    if g != h {
      assert PhaseOf(t, g) == PhaseOf(s, g);
    } else {
      NothingAfter(OfSource(t.announced, g));
      NothingAfter(OfSource(s.inserted, g));
      assert PhaseOf(t, g) == Some(Waiting);
    }
  }

  lemma {:induction false} EveryRunKeepsInv(run: seq<Action>)
    requires After(run).Some?
    ensures Inv(After(run).value)
  {
    if run != [] {
      EveryRunKeepsInv(run[..|run| - 1]);
      var s, a := After(run[..|run| - 1]).value, run[|run| - 1];
      StepKeepsSessions(s, a);
      forall g ensures SourceInOrder(Do(s, a), g) {
        StepKeepsOrder(s, a, g);
      }
    }
  }

  // -------------------------------------------------------------------- laws

  /** In every interleaving, also with sources that outlive their session, the numbers issued in
      session `k` are 1, 2, 3, … without gap or repetition, each with the trace of that session, and
      nothing is issued outside the sessions. */
  lemma EverySessionCountsUp(run: seq<Action>, k: nat)
    requires After(run).Some?
    ensures var s := After(run).value;
            && (1 <= k <= |s.traces| ==> CountsUp(OfSession(s.issued, k), s.traces[k - 1]))
            && (k == 0 || k > |s.traces| ==> OfSession(s.issued, k) == [])
  {
    EveryRunKeepsInv(run);
  }

  lemma {:induction false} OnlySource(stamps: seq<Stamp>, g: nat)
    requires forall i :: 0 <= i < |stamps| ==> stamps[i].goroutine == g
    ensures OfSource(stamps, g) == stamps
  {
    if stamps != [] {
      OnlySource(stamps[..|stamps| - 1], g);
    }
  }

  lemma {:induction false} SourcesOfStamps(stamps: seq<Stamp>, i: nat)
    requires i < |stamps|
    ensures OfSource(stamps, stamps[i].goroutine) != []
  {
    if i < |stamps| - 1 {
      SourcesOfStamps(stamps[..|stamps| - 1], i);
    }
  }

  /** What was inserted was issued, and what was announced was inserted. */
  lemma InsertedWasIssued(s: State, x: Stamp)
    requires SourceInOrder(s, x.goroutine)
    ensures x in s.inserted ==> x in s.issued
    ensures x in s.announced ==> x in s.inserted
  {
    SourceMembers(s.inserted, x);
    SourceMembers(s.issued, x);
    SourceMembers(s.announced, x);
  }

  lemma {:induction false} SourceMembers(stamps: seq<Stamp>, x: Stamp)
    ensures x in OfSource(stamps, x.goroutine) <==> x in stamps
  {
    if stamps != [] {
      SourceMembers(stamps[..|stamps| - 1], x);
      assert stamps == stamps[..|stamps| - 1] + [stamps[|stamps| - 1]];
    }
  }

  lemma {:induction false} SessionMembers(stamps: seq<Stamp>, k: nat, i: nat)
    requires i < |OfSession(stamps, k)|
    ensures OfSession(stamps, k)[i] in stamps && OfSession(stamps, k)[i].session == k
  {
    var front := stamps[..|stamps| - 1];
    assert stamps == front + [stamps[|stamps| - 1]];
    if i < |OfSession(front, k)| {
      SessionMembers(front, k, i);
    }
  }

  /** Picking a session and picking a goroutine commute. */
  lemma {:induction false} PicksCommute(stamps: seq<Stamp>, g: nat, k: nat)
    ensures OfSession(OfSource(stamps, g), k) == OfSource(OfSession(stamps, k), g)
  {
    if stamps != [] {
      var front, x := stamps[..|stamps| - 1], stamps[|stamps| - 1];
      PicksCommute(front, g, k);
      SessionMore(OfSource(front, g), x, k);
      SourceMore(OfSession(front, k), x, g);
      NothingAfter(OfSource(front, g));
      NothingAfter(OfSession(front, k));
    }
  }

  lemma SessionMore(stamps: seq<Stamp>, x: Stamp, k: nat)
    ensures OfSession(stamps + [x], k) == if x.session == k then OfSession(stamps, k) + [x] else OfSession(stamps, k)
  {
    StampsMore(stamps, x);
    NothingAfter(OfSession(stamps, k));
  }

  /** All stamps of session `k` come from goroutine `g`. */
  predicate OnlyFrom(stamps: seq<Stamp>, k: nat, g: nat) {
    forall x :: x in stamps && x.session == k ==> x.goroutine == g
  }

  lemma SessionOfOnlySource(stamps: seq<Stamp>, k: nat, g: nat)
    requires OnlyFrom(stamps, k, g)
    ensures OfSession(OfSource(stamps, g), k) == OfSession(stamps, k)
  {
    PicksCommute(stamps, g, k);
    var own := OfSession(stamps, k);
    forall i | 0 <= i < |own| ensures own[i].goroutine == g {
      SessionMembers(stamps, k, i);
    }
    OnlySource(own, g);
  }

  /** One list is the other and at most one more. */
  predicate AtMostOneMore(a: seq<Stamp>, b: seq<Stamp>) { a <= b && |b| <= |a| + 1 }

  lemma SessionOfOneMore(a: seq<Stamp>, b: seq<Stamp>, k: nat)
    requires AtMostOneMore(a, b)
    ensures AtMostOneMore(OfSession(a, k), OfSession(b, k))
  {
    if |b| > |a| {
      assert b == a + [b[|a|]];
      SessionMore(a, b[|a|], k);
    } else {
      assert a == b;
    }
  }

  /** While only one goroutine emits in a session, the session's messages are inserted, and then
      announced to the callbacks, in the order of their numbers, each at most one behind. */
  lemma OneSourceInOrder(run: seq<Action>, k: nat, g: nat)
    requires After(run).Some? && OnlyFrom(After(run).value.issued, k, g)
    ensures var s := After(run).value;
            && OfSession(s.announced, k) <= OfSession(s.inserted, k) <= OfSession(s.issued, k)
            && |OfSession(s.issued, k)| <= |OfSession(s.announced, k)| + 1
  {
    EveryRunKeepsInv(run);
    var s := After(run).value;
    forall x ensures (x in s.inserted ==> x in s.issued) && (x in s.announced ==> x in s.inserted) {
      InsertedWasIssued(s, x);
    }
    SessionOfOnlySource(s.issued, k, g);
    SessionOfOnlySource(s.inserted, k, g);
    SessionOfOnlySource(s.announced, k, g);
    assert SourceInOrder(s, g);
    SourceOneMore(s, g);
    SessionOfOneMore(OfSource(s.announced, g), OfSource(s.inserted, g), k);
    SessionOfOneMore(OfSource(s.inserted, g), OfSource(s.issued, g), k);
    SessionOfOneMore(OfSource(s.announced, g), OfSource(s.issued, g), k);
  }

  lemma SourceOneMore(s: State, g: nat)
    requires SourceInOrder(s, g)
    ensures AtMostOneMore(OfSource(s.announced, g), OfSource(s.inserted, g))
    ensures AtMostOneMore(OfSource(s.inserted, g), OfSource(s.issued, g))
    ensures AtMostOneMore(OfSource(s.announced, g), OfSource(s.issued, g))
  {
    NothingAfter(OfSource(s.announced, g));
    NothingAfter(OfSource(s.inserted, g));
  }

  /** While a single goroutine emits in a whole run, messages are inserted, and then announced to the callbacks, in
      the order of their numbers, each at most one behind. */
  lemma OneEmitterInOrder(run: seq<Action>, g: nat)
    requires After(run).Some?
    requires forall i :: 0 <= i < |After(run).value.issued| ==> After(run).value.issued[i].goroutine == g
    ensures var s := After(run).value;
            s.announced <= s.inserted <= s.issued && |s.issued| <= |s.announced| + 1
  {
    EveryRunKeepsInv(run);
    var s := After(run).value;
    OnlySource(s.issued, g);
    InsertedByIssuers(s, g);
    OnlySource(s.inserted, g);
    OnlySource(s.announced, g);
    assert SourceInOrder(s, g);
  }

  lemma InsertedByIssuers(s: State, g: nat)
    requires Inv(s) && forall i :: 0 <= i < |s.issued| ==> s.issued[i].goroutine == g
    ensures forall i :: 0 <= i < |s.inserted| ==> s.inserted[i].goroutine == g
    ensures forall i :: 0 <= i < |s.announced| ==> s.announced[i].goroutine == g
  {
    forall i | 0 <= i < |s.inserted| ensures s.inserted[i].goroutine == g {
      SourcesOfStamps(s.inserted, i);
      OthersIssuedNothing(s.issued, g, s.inserted[i].goroutine);
      assert SourceInOrder(s, s.inserted[i].goroutine);
    }
    forall i | 0 <= i < |s.announced| ensures s.announced[i].goroutine == g {
      SourcesOfStamps(s.announced, i);
      OthersIssuedNothing(s.issued, g, s.announced[i].goroutine);
      assert SourceInOrder(s, s.announced[i].goroutine);
    }
  }

  lemma {:induction false} OthersIssuedNothing(stamps: seq<Stamp>, g: nat, h: nat)
    requires forall i :: 0 <= i < |stamps| ==> stamps[i].goroutine == g
    ensures h != g ==> OfSource(stamps, h) == []
  {
    if stamps != [] {
      OthersIssuedNothing(stamps[..|stamps| - 1], g, h);
    }
  }

  // ------------------------------------------------------------- capturing flag

  /** Some start of the run is followed by no stop and no end of a source. */
  ghost predicate OpenStart(run: seq<Action>) {
    exists i :: 0 <= i < |run| && run[i].Start? && forall j :: i < j < |run| ==> !run[j].Stop? && !run[j].Finish?
  }

  lemma OpenStartMore(run: seq<Action>, a: Action)
    ensures OpenStart(run + [a]) <==> a.Start? || (OpenStart(run) && !a.Stop? && !a.Finish?)
  {
    var more := run + [a];
    assert more[|run|] == a && forall i :: 0 <= i < |run| ==> more[i] == run[i];
    if OpenStart(run) && !a.Stop? && !a.Finish? {
      var i :| 0 <= i < |run| && run[i].Start? && forall j :: i < j < |run| ==> !run[j].Stop? && !run[j].Finish?;
      assert more[i].Start?;
    }
  }

  /** The engine is capturing exactly if some start was followed by neither a stop nor the end of any
      source goroutine, whichever session that goroutine belongs to. */
  lemma {:induction false} CapturingExactly(run: seq<Action>)
    requires After(run).Some?
    ensures After(run).value.fields.capturing <==> OpenStart(run)
  {
    if run != [] {
      var front, a := run[..|run| - 1], run[|run| - 1];
      assert run == front + [a];
      CapturingExactly(front);
      OpenStartMore(front, a);
    }
  }

  /** A start that finds the engine not capturing opens the next session with the given trace and an
      idle source of its own; one that finds it capturing changes nothing. */
  lemma StartOpensSession(s: State, g: nat, traceId: int)
    requires Enabled(s, Start(g, traceId))
    ensures var t := Do(s, Start(g, traceId));
            if s.fields.capturing then t == s
            else
              && t.fields == Fields(true, traceId, 0, s.fields.session + 1) && t.traces == s.traces + [traceId]
              && t.sources == s.sources[g := Waiting] && t.homes == s.homes[g := s.fields.session + 1]
              && t.issued == s.issued && t.inserted == s.inserted && t.announced == s.announced
  {
  }

  /** Stopping and finishing end neither numbering nor session. */
  lemma EndingKeepsSession(s: State, a: Action)
    requires Enabled(s, a) && (a.Stop? || a.Finish?)
    ensures Do(s, a).fields == Fields(false, s.fields.traceId, s.fields.seqNum, s.fields.session)
    ensures Do(s, a).traces == s.traces && Do(s, a).issued == s.issued
  {
  }

  /** Every source that was started and has not finished can go on, wherever it is in its closure, and
      ends only between messages. */
  lemma NoSourceIsStuck(s: State, g: nat)
    requires g in s.sources
    ensures match s.sources[g]
            case Waiting => Enabled(s, Issue(g)) && Enabled(s, Finish(g))
            case Stamped(_) => Enabled(s, Insert(g)) && !Enabled(s, Finish(g))
            case Inserted(_) => Enabled(s, Announce(g)) && !Enabled(s, Finish(g))
            case Finished => !Enabled(s, Issue(g)) && !Enabled(s, Finish(g))
  {
  }

  /** The methods of the engine are the sections of the steps: from the engine's fields each step
      leads to the fields the method leaves, and numbers with what the method returns. */
  lemma MethodsAreSteps(s: State, g: nat, traceId: int)
    ensures Enabled(s, Start(g, traceId)) ==> Do(s, Start(g, traceId)).fields == Started(s.fields, traceId)
    ensures Do(s, Stop).fields == Stopped(s.fields)
    ensures Enabled(s, Finish(g)) ==> Do(s, Finish(g)).fields == Stopped(s.fields)
    ensures Enabled(s, Issue(g)) ==>
              var t := Do(s, Issue(g));
              && t.fields == Counted(s.fields)
              && t.issued == s.issued + [Stamp(g, t.fields.session, t.fields.traceId, t.fields.seqNum)]
  {
  }

  // ------------------------------------------------------- a source's own session

  ghost predicate AllFinished(s: State) { forall g :: g in s.sources ==> s.sources[g].Finished? }

  predicate Unfinished(s: State, g: nat) { g in s.sources && !s.sources[g].Finished? }

  /** No start of the run succeeds while an earlier source is still running. */
  ghost predicate Orderly(run: seq<Action>) {
    run == [] ||
    (var front, a := run[..|run| - 1], run[|run| - 1];
     && Orderly(front)
     && (After(front).Some? && a.Start? && !After(front).value.fields.capturing ==> AllFinished(After(front).value)))
  }

  /** Every number was issued in the session its goroutine was started in, for that session's trace. */
  ghost predicate OwnSessions(s: State) {
    forall i :: 0 <= i < |s.issued| ==>
      var x := s.issued[i];
      && x.goroutine in s.homes && x.session == s.homes[x.goroutine]
      && 1 <= x.session <= |s.traces| && x.traceId == s.traces[x.session - 1]
  }

  /** Each source was started in a session so far. */
  ghost predicate Housed(s: State) {
    && s.homes.Keys == s.sources.Keys
    && forall g :: g in s.homes ==> 1 <= s.homes[g] <= s.fields.session
  }

  ghost predicate RunningAreCurrent(s: State) {
    forall g :: Unfinished(s, g) && g in s.homes ==> s.homes[g] == s.fields.session
  }

  lemma {:induction false} EveryRunIsHoused(run: seq<Action>)
    requires After(run).Some?
    ensures Housed(After(run).value)
  {
    if run != [] {
      EveryRunIsHoused(run[..|run| - 1]);
      StepKeepsHoused(After(run[..|run| - 1]).value, run[|run| - 1]);
    }
  }

  lemma StepKeepsHoused(s: State, a: Action)
    requires Housed(s) && Enabled(s, a)
    ensures Housed(Do(s, a))
  {
  }

  lemma StepKeepsOwn(s: State, a: Action)
    requires SessionsCountUp(s) && Housed(s) && RunningAreCurrent(s) && OwnSessions(s) && Enabled(s, a)
    requires a.Start? && !s.fields.capturing ==> AllFinished(s)
    ensures RunningAreCurrent(Do(s, a)) && OwnSessions(Do(s, a))
  {
    if a.Issue? {
      assert Unfinished(s, a.g);
    }
  }

  lemma {:induction false} OrderlyKeepsOwn(run: seq<Action>)
    requires After(run).Some? && Orderly(run)
    ensures RunningAreCurrent(After(run).value) && OwnSessions(After(run).value)
  {
    if run != [] {
      var front := run[..|run| - 1];
      OrderlyKeepsOwn(front);
      EveryRunKeepsInv(front);
      EveryRunIsHoused(front);
      StepKeepsOwn(After(front).value, run[|run| - 1]);
    }
  }

  predicate NoStart(more: seq<Action>) { forall i :: 0 <= i < |more| ==> !more[i].Start? }

  lemma {:induction false} OrderlyPrefix(run: seq<Action>, n: nat)
    requires Orderly(run) && n <= |run|
    ensures Orderly(run[..n])
  {
    if n < |run| {
      OrderlyPrefix(run[..|run| - 1], n);
      TakeOfTake(run, |run| - 1, n);
    } else {
      assert run[..n] == run;
    }
  }

  lemma {:induction false} OrderlyWithoutStarts(run: seq<Action>, more: seq<Action>)
    requires Orderly(run) && NoStart(more)
    ensures Orderly(run + more)
    decreases |more|
  {
    if more == [] {
      assert run + more == run;
    } else {
      OrderlyWithoutStarts(run, more[..|more| - 1]);
      assert (run + more)[..|run + more| - 1] == run + more[..|more| - 1];
    }
  }

  lemma AfterMore(run: seq<Action>, a: Action)
    requires After(run).Some? && Enabled(After(run).value, a)
    ensures After(run + [a]) == Some(Do(After(run).value, a))
  {
    assert (run + [a])[..|run|] == run;
  }

  function Rank(p: Phase): nat { if p.Stamped? then 2 else if p.Inserted? then 1 else 0 }

  /** A source that has not finished can go on to issue a number in the current session. */
  lemma {:induction false} IssuesAgain(run: seq<Action>, h: nat) returns (more: seq<Action>)
    requires After(run).Some? && Unfinished(After(run).value, h)
    ensures NoStart(more) && After(run + more).Some?
    ensures var s, t := After(run).value, After(run + more).value;
            t.homes == s.homes && exists i :: 0 <= i < |t.issued| && t.issued[i].goroutine == h
                                              && t.issued[i].session == s.fields.session
    decreases Rank(After(run).value.sources[h])
  {
    var phase := After(run).value.sources[h];
    var a := match phase case Stamped(_) => Insert(h) case Inserted(_) => Announce(h) case _ => Issue(h);
    AfterMore(run, a);
    if a.Issue? {
      more := [a];
      var t := After(run + more).value;
      assert t.issued[|t.issued| - 1].goroutine == h;
    } else {
      var rest := IssuesAgain(run + [a], h);
      Regroup(run, [a], rest);
      more := [a] + rest;
    }
  }

  /** A run with a start that came too early has a point from which, without any further start, some
      source issues a number in a session that is not its own. */
  lemma {:induction false} EarlyStartGoesWrong(run: seq<Action>) returns (n: nat, more: seq<Action>)
    requires After(run).Some? && !Orderly(run)
    ensures n <= |run| && NoStart(more) && After(run[..n] + more).Some?
    ensures !OwnSessions(After(run[..n] + more).value)
  {
    var front := run[..|run| - 1];
    if !Orderly(front) {
      n, more := EarlyStartGoesWrong(front);
      TakeOfTake(run, |front|, n);
    } else {
      var s := After(front).value;
      var h :| h in s.sources && !s.sources[h].Finished?;
      EveryRunIsHoused(front);
      more := IssuesAgain(run, h);
      n := |run|;
      assert run[..n] == run;
    }
  }

  /** When messages stay with the session of their source: no start of a run succeeds before all
      earlier sources have finished if and only if, from every point of the run and however it goes
      on there without a further start, every number belongs to its source's own session and trace. */
  lemma OwnSessionExactly(run: seq<Action>)
    requires After(run).Some?
    ensures Orderly(run) <==>
              forall n: nat, more :: n <= |run| && NoStart(more) && After(run[..n] + more).Some? ==>
                OwnSessions(After(run[..n] + more).value)
  {
    if Orderly(run) {
      forall n: nat, more | n <= |run| && NoStart(more) && After(run[..n] + more).Some?
        ensures OwnSessions(After(run[..n] + more).value)
      {
        OrderlyPrefix(run, n);
        OrderlyWithoutStarts(run[..n], more);
        OrderlyKeepsOwn(run[..n] + more);
      }
    } else {
      var n, more := EarlyStartGoesWrong(run);
    }
  }

  predicate Busy(s: State, g: nat) { g in s.sources && (s.sources[g].Stamped? || s.sources[g].Inserted?) }

  /** The lists differ by the message the one running source has in hand. */
  ghost predicate WholeLogInOrder(s: State) {
    && (forall g, h :: Unfinished(s, g) && Unfinished(s, h) ==> g == h)
    && AtMostOneMore(s.announced, s.inserted) && AtMostOneMore(s.inserted, s.issued)
    && AtMostOneMore(s.announced, s.issued)
    && (forall g :: Busy(s, g) ==>
          if s.sources[g].Stamped? then s.issued == s.inserted + [s.sources[g].stamp] && s.announced == s.inserted
          else s.issued == s.inserted == s.announced + [s.sources[g].stamp])
    && ((forall g :: !Busy(s, g)) ==> s.issued == s.inserted == s.announced)
  }

  lemma StepKeepsWholeLog(s: State, a: Action)
    requires WholeLogInOrder(s) && Enabled(s, a)
    requires a.Start? && !s.fields.capturing ==> AllFinished(s)
    ensures WholeLogInOrder(Do(s, a))
  {
    var t := Do(s, a);
    forall g, h | Unfinished(t, g) && Unfinished(t, h) ensures g == h {
      assert a.Start? || (Unfinished(s, g) && Unfinished(s, h));
    }
    if a.Issue? || a.Insert? || a.Announce? {
      assert Unfinished(s, a.g) && (a.Announce? || Busy(t, a.g));
      forall g | g != a.g ensures !Busy(s, g) && !Busy(t, g) {
        assert !Unfinished(s, g);
      }
    } else {
      forall g ensures Busy(t, g) == Busy(s, g) {
      }
    }
  }

  /** Over a whole run in which sources finish before the next start succeeds, all messages are
      inserted and announced in the order of their numbers, at most one behind. */
  lemma {:induction false} OrderlyRunInOrder(run: seq<Action>)
    requires After(run).Some? && Orderly(run)
    ensures var s := After(run).value;
            s.announced <= s.inserted <= s.issued && |s.issued| <= |s.announced| + 1
    ensures WholeLogInOrder(After(run).value)
  {
    if run != [] {
      var front := run[..|run| - 1];
      OrderlyRunInOrder(front);
      StepKeepsWholeLog(After(front).value, run[|run| - 1]);
    }
  }

  /** A source that outlives its session does take part in the next one: after a stop and a new
      start, what it emits is numbered and traced with the new session. */
  lemma StaleSourceJoinsNextSession()
    ensures var run := [Start(0, 10), Stop, Start(1, 20), Issue(0)];
            After(run).Some? && After(run).value.issued == [Stamp(0, 2, 20, 1)]
  {
    var r0, r1, r2 := [Start(0, 10)], [Start(0, 10), Stop], [Start(0, 10), Stop, Start(1, 20)];
    var r3 := [Start(0, 10), Stop, Start(1, 20), Issue(0)];
    assert r3[..3] == r2 && r2[..2] == r1 && r1[..1] == r0 && r0[..0] == [];
    assert After(r0).Some? && After(r1).Some? && After(r2).Some?;
  }
}
