/** Heartbeat intervals per directional device pair, their statistics
    (internal/analysis/metrics.go) and the heartbeat conformance check
    (internal/analysis/lpc_conformance.go). Durations are nanoseconds, floats are reals. */
module Heartbeat {
  import opened Common
  import opened Model

  const SECOND := 1_000_000_000
  const THRESHOLD := 60 * SECOND

  datatype Pair = Pair(src: string, dst: string)

  datatype Point = Point(ts: int, id: int)

  datatype Gap = Gap(fromId: int, toId: int, from: int, to: int, duration: int)

  predicate IsHeartbeat(m: Message) { m.functionSet == "DeviceDiagnosisHeartbeatData" }

  /** internal/analysis/metrics.go: devicePairFromMsg. */
  function DevicePair(m: Message): Option<Pair> {
    var fallback := m.deviceSource == "" && m.deviceDest == "";
    var src := if fallback then m.sourceAddr else m.deviceSource;
    var dst := if fallback then m.destAddr else m.deviceDest;
    if src == "" || dst == "" then None else Some(Pair(src, dst))
  }

  /** The pair a message is a heartbeat of. */
  function Paired(m: Message): Option<Pair> { if IsHeartbeat(m) then DevicePair(m) else None }

  function PointOf(m: Message): Point { Point(m.timestamp, m.id) }

  function GapBetween(p: Point, q: Point): Gap { Gap(p.id, q.id, p.ts, q.ts, q.ts - p.ts) }

  /** The pairs of the heartbeats, in order, with repetitions. */
  function PairsOf(log: seq<Message>): seq<Pair> {
    if log == [] then []
    else
      var p := Paired(log[|log| - 1]);
      PairsOf(log[..|log| - 1]) + (if p.Some? then [p.value] else [])
  }

  /** The heartbeats of one pair, in order. */
  function Points(log: seq<Message>, p: Pair): seq<Point> {
    if log == [] then []
    else
      var m := log[|log| - 1];
      Points(log[..|log| - 1], p) + (if Paired(m) == Some(p) then [PointOf(m)] else [])
  }

  function GapsOf(points: seq<Point>): seq<Gap> {
    if |points| < 2 then []
    else seq(|points| - 1, i requires 0 <= i < |points| - 1 => GapBetween(points[i], points[i + 1]))
  }

  lemma LogMore(log: seq<Message>, m: Message)
    ensures PairsOf(log + [m]) == if Paired(m).Some? then PairsOf(log) + [Paired(m).value] else PairsOf(log)
    ensures forall p :: Points(log + [m], p) == Points(log, p) + (if Paired(m) == Some(p) then [PointOf(m)] else [])
  {
    assert (log + [m])[..|log|] == log;
  }

  lemma DistinctMore(s: seq<Pair>, x: Pair)
    ensures Distinct(s + [x]) == if x in s then Distinct(s) else Distinct(s) + [x]
  {
    assert (s + [x])[..|s|] == s;
  }

  /** Pairs in the order of their first heartbeat. */
  function Order(log: seq<Message>): seq<Pair> { Distinct(PairsOf(log)) }

  lemma {:induction false} PairHasPoints(log: seq<Message>, p: Pair)
    ensures p in PairsOf(log) <==> Points(log, p) != []
  {
    if log != [] {
      PairHasPoints(log[..|log| - 1], p);
    }
  }

  /** The heartbeats of a log grouped by pair. */
  ghost predicate Grouped(log: seq<Message>, order: seq<Pair>, points: map<Pair, seq<Point>>) {
    && order == Order(log)
    && (forall p :: p in points <==> p in order)
    && (forall p :: p in points ==> points[p] == Points(log, p))
  }

  /** The first loop of collectHeartbeatGapsByPair. */
  method CollectPoints(log: seq<Message>) returns (order: seq<Pair>, points: map<Pair, seq<Point>>)
    ensures Grouped(log, order, points)
  {
    points := map[];
    order := [];
    for i := 0 to |log|
      invariant Grouped(log[..i], order, points)
    {
      assert log[..i + 1] == log[..i] + [log[i]];
      order, points := CollectPoint(log[i], order, points, log[..i]);
    }
    assert log[..|log|] == log;
  }

  /** The body of that loop. */
  method CollectPoint(msg: Message, order0: seq<Pair>, points0: map<Pair, seq<Point>>, ghost log: seq<Message>)
    returns (order: seq<Pair>, points: map<Pair, seq<Point>>)
    requires Grouped(log, order0, points0)
    ensures Grouped(log + [msg], order, points)
  {
    order, points := order0, points0;
    LogMore(log, msg);
    if !IsHeartbeat(msg) {
      return;
    }
    var pair := DevicePair(msg);
    if pair.None? {
      return;
    }
    var p := pair.value;
    DistinctMore(PairsOf(log), p);
    PairHasPoints(log, p);
    if p !in points {
      order := order + [p];
      points := points[p := []];
    }
    points := points[p := points[p] + [PointOf(msg)]];
  }

  /** The inner loop of collectHeartbeatGapsByPair. */
  method MeasureGaps(pts: seq<Point>) returns (own: seq<Gap>)
    requires |pts| >= 2
    ensures own == GapsOf(pts)
  {
    own := [];
    for i := 1 to |pts|
      invariant |own| == i - 1 && forall k :: 0 <= k < i - 1 ==> own[k] == GapBetween(pts[k], pts[k + 1])
    {
      own := own + [GapBetween(pts[i - 1], pts[i])];
    }
  }

  /** internal/analysis/metrics.go: collectHeartbeatGapsByPair. */
  method CollectHeartbeatGapsByPair(log: seq<Message>) returns (order: seq<Pair>, gaps: map<Pair, seq<Gap>>)
    ensures order == Order(log)
    ensures forall p :: p in gaps <==> p in order && |Points(log, p)| >= 2
    ensures forall p :: p in gaps ==> gaps[p] == GapsOf(Points(log, p))
  {
    var points;
    order, points := CollectPoints(log);
    gaps := map[];
    for k := 0 to |order|
      invariant forall p :: p in gaps <==> p in order[..k] && |Points(log, p)| >= 2
      invariant forall p :: p in gaps ==> gaps[p] == GapsOf(Points(log, p))
    {
      var pair := order[k];
      assert order[..k + 1] == order[..k] + [pair];
      var pts := points[pair];
      if |pts| < 2 {
        continue;
      }
      var own := MeasureGaps(pts);
      gaps := gaps[pair := own];
    }
    assert order[..|order|] == order;
  }

  // ------------------------------------------------------- conformance check

  datatype Verdict = NotApplicable | Inconclusive | Pass | Fail

  /** The gaps of the pairs whose sender has the role. */
  function RoleGaps(order: seq<Pair>, log: seq<Message>, roles: set<string>): seq<Gap> {
    if order == [] then []
    else
      var p := order[|order| - 1];
      RoleGaps(order[..|order| - 1], log, roles) + (if p.src in roles then GapsOf(Points(log, p)) else [])
  }

  function TooLong(gaps: seq<Gap>): seq<Gap> {
    if gaps == [] then []
    else
      var g := gaps[|gaps| - 1];
      TooLong(gaps[..|gaps| - 1]) + (if g.duration > THRESHOLD then [g] else [])
  }

  lemma {:induction false} TooLongMembers(gaps: seq<Gap>, g: Gap)
    ensures g in TooLong(gaps) <==> g in gaps && g.duration > THRESHOLD
  {
    if gaps != [] {
      TooLongMembers(gaps[..|gaps| - 1], g);
      assert gaps == gaps[..|gaps| - 1] + [gaps[|gaps| - 1]];
    }
  }

  lemma TooLongMore(gaps: seq<Gap>, g: Gap)
    ensures TooLong(gaps + [g]) == if g.duration > THRESHOLD then TooLong(gaps) + [g] else TooLong(gaps)
  {
    assert (gaps + [g])[..|gaps|] == gaps;
  }

  predicate RoleHeartbeat(m: Message, roles: set<string>) { IsHeartbeat(m) && m.deviceSource in roles }

  function Judge(log: seq<Message>, roles: set<string>): Verdict {
    var gaps := RoleGaps(Order(log), log, roles);
    if forall m :: m in log ==> !RoleHeartbeat(m, roles) then NotApplicable
    else if gaps == [] then Inconclusive
    else if TooLong(gaps) == [] then Pass
    else Fail
  }

  /** The longest duration, and 0 without a positive one. */
  function Longest(gaps: seq<Gap>): int {
    if gaps == [] then 0
    else
      var front, last := Longest(gaps[..|gaps| - 1]), gaps[|gaps| - 1].duration;
      if last > front then last else front
  }

  lemma LongestMore(gaps: seq<Gap>, g: Gap)
    ensures Longest(gaps + [g]) == if g.duration > Longest(gaps) then g.duration else Longest(gaps)
  {
    assert (gaps + [g])[..|gaps|] == gaps;
  }

  /** The figures the summary text is made of. */
  datatype Summary =
    | NoRoleDevice
    | NoHeartbeat
    | TooFew
    | Kept(gaps: nat, worst: int)
    | Violated(violations: nat, gaps: nat, worst: int)

  function Summarize(log: seq<Message>, roles: set<string>): Summary {
    var gaps := RoleGaps(Order(log), log, roles);
    if |roles| == 0 then NoRoleDevice
    else
      match Judge(log, roles)
      case NotApplicable => NoHeartbeat
      case Inconclusive => TooFew
      case Pass => Kept(|gaps|, Longest(gaps))
      case Fail => Violated(|TooLong(gaps)|, |gaps|, Longest(gaps))
  }

  /** The first loop of checkHeartbeatFor. */
  method CountRoleHeartbeats(log: seq<Message>, roles: set<string>) returns (total: nat)
    ensures total == 0 <==> forall m :: m in log ==> !RoleHeartbeat(m, roles)
  {
    total := 0;
    for i := 0 to |log|
      invariant total == 0 <==> forall m :: m in log[..i] ==> !RoleHeartbeat(m, roles)
    {
      assert log[..i + 1] == log[..i] + [log[i]] && log[i] in log[..i + 1];
      if !IsHeartbeat(log[i]) {
        continue;
      }
      if log[i].deviceSource in roles {
        total := total + 1;
      }
    }
    assert log[..|log|] == log;
  }

  /** What the gap loops of checkHeartbeatFor keep: the violations, and the number and the longest of
      the gaps so far. */
  predicate Accounted(gaps: seq<Gap>, violations: seq<Gap>, gapCount: nat, maxGap: int) {
    violations == TooLong(gaps) && gapCount == |gaps| && maxGap == Longest(gaps)
  }

  /** The inner loop of checkHeartbeatFor over the gaps of one pair. */
  method AddViolations(own: seq<Gap>, ghost before: seq<Gap>, violations0: seq<Gap>, gapCount0: nat, maxGap0: int)
    returns (violations: seq<Gap>, gapCount: nat, maxGap: int)
    requires Accounted(before, violations0, gapCount0, maxGap0)
    ensures Accounted(before + own, violations, gapCount, maxGap)
  {
    violations, gapCount, maxGap := violations0, gapCount0, maxGap0;
    assert before + own[..0] == before;
    for i := 0 to |own|
      invariant Accounted(before + own[..i], violations, gapCount, maxGap)
    {
      TakeMore(own, i);
      Regroup(before, own[..i], [own[i]]);
      TooLongMore(before + own[..i], own[i]);
      LongestMore(before + own[..i], own[i]);
      gapCount := gapCount + 1;
      if own[i].duration > maxGap {
        maxGap := own[i].duration;
      }
      if own[i].duration > THRESHOLD {
        violations := violations + [own[i]];
      }
    }
    assert own[..|own|] == own;
  }

  /** internal/analysis/lpc_conformance.go: checkHeartbeatFor. */
  method CheckHeartbeatFor(log: seq<Message>, roles: set<string>)
    returns (verdict: Verdict, summary: Summary, evidence: seq<Gap>)
    ensures verdict == Judge(log, roles) && summary == Summarize(log, roles)
    ensures evidence == if verdict == Fail then TooLong(RoleGaps(Order(log), log, roles)) else []
  {
    if |roles| == 0 {
      return NotApplicable, NoRoleDevice, [];
    }
    var pairOrder, gaps := CollectHeartbeatGapsByPair(log);
    var totalHeartbeats := CountRoleHeartbeats(log, roles);
    var violations: seq<Gap> := [];
    var maxGap, gapCount := 0, 0;
    for k := 0 to |pairOrder|
      invariant Accounted(RoleGaps(pairOrder[..k], log, roles), violations, gapCount, maxGap)
    {
      var pair := pairOrder[k];
      assert pairOrder[..k + 1][..k] == pairOrder[..k];
      ghost var before := RoleGaps(pairOrder[..k], log, roles);
      if pair.src !in roles {
        assert before + [] == before;
        continue;
      }
      var own := if pair in gaps then gaps[pair] else [];
      assert own == GapsOf(Points(log, pair));
      violations, gapCount, maxGap := AddViolations(own, before, violations, gapCount, maxGap);
    }
    assert pairOrder[..|pairOrder|] == pairOrder;
    if totalHeartbeats == 0 {
      return NotApplicable, NoHeartbeat, [];
    } else if gapCount == 0 {
      return Inconclusive, TooFew, [];
    } else if |violations| == 0 {
      return Pass, Kept(gapCount, maxGap), [];
    } else {
      return Fail, Violated(|violations|, gapCount, maxGap), violations;
    }
  }
}
