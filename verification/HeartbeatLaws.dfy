/** What the heartbeat verdict of internal/analysis/lpc_conformance.go says about the log. */
module HeartbeatLaws {
  import opened Common
  import opened Model
  import opened Heartbeat

  /** 60 s in nanoseconds. */
  const LIMIT := 60_000_000_000

  /** A message is a heartbeat of pair `p` exactly if it carries heartbeat data and names `p`: by its
      device addresses, or by its network addresses if it has no device address at all. */
  lemma PairedExactly(m: Message, p: Pair)
    ensures Paired(m) == Some(p) <==>
              && m.functionSet == "DeviceDiagnosisHeartbeatData" && p.src != "" && p.dst != ""
              && (|| (m.deviceSource == p.src && m.deviceDest == p.dst)
                  || (m.deviceSource == "" && m.deviceDest == "" && m.sourceAddr == p.src && m.destAddr == p.dst))
  {
  }

  // ---------------------------------------------- adjacent heartbeats of a log

  /** Messages `i` and `j` are heartbeats of pair `p` with no heartbeat of `p` between them. */
  ghost predicate Adjacent(log: seq<Message>, p: Pair, i: nat, j: nat) {
    && i < j < |log| && Paired(log[i]) == Paired(log[j]) == Some(p)
    && forall k :: i < k < j ==> Paired(log[k]) != Some(p)
  }

  /** The positions of the heartbeats of `p`. */
  function Positions(log: seq<Message>, p: Pair): seq<nat> {
    if log == [] then []
    else
      Positions(log[..|log| - 1], p) + (if Paired(log[|log| - 1]) == Some(p) then [|log| - 1 as nat] else [])
  }

  lemma {:induction false} PositionsCount(log: seq<Message>, p: Pair)
    ensures |Positions(log, p)| == |Points(log, p)|
  {
    if log != [] {
      PositionsCount(log[..|log| - 1], p);
    }
  }

  lemma {:induction false} PositionAt(log: seq<Message>, p: Pair, a: nat)
    requires a < |Positions(log, p)|
    ensures a < |Points(log, p)|
    ensures var k := Positions(log, p)[a];
            k < |log| && Paired(log[k]) == Some(p) && Points(log, p)[a] == PointOf(log[k])
  {
    var front := log[..|log| - 1];
    PositionsCount(front, p);
    if a < |Positions(front, p)| {
      PositionAt(front, p, a);
    }
  }

  lemma {:induction false} PositionsIncrease(log: seq<Message>, p: Pair)
    ensures var ps := Positions(log, p); forall a, b :: 0 <= a < b < |ps| ==> ps[a] < ps[b]
  {
    if log != [] {
      var front := log[..|log| - 1];
      PositionsIncrease(front, p);
      forall a | 0 <= a < |Positions(front, p)| ensures Positions(front, p)[a] < |front| {
        PositionAt(front, p, a);
      }
      assert Positions(front, p) + [] == Positions(front, p);
    }
  }

  lemma {:induction false} PositionOf(log: seq<Message>, p: Pair, k: nat) returns (a: nat)
    requires k < |log| && Paired(log[k]) == Some(p)
    ensures a < |Positions(log, p)| && Positions(log, p)[a] == k
  {
    var front := log[..|log| - 1];
    if k < |front| {
      a := PositionOf(front, p, k);
    } else {
      a := |Positions(front, p)|;
    }
  }

  /** The gap from message `m` to message `n`: their ids, their times, and the time between them. */
  function GapFrom(m: Message, n: Message): Gap {
    Gap(m.id, n.id, m.timestamp, n.timestamp, n.timestamp - m.timestamp)
  }

  /** Some adjacent heartbeats of `p` lie the gap `g` apart. */
  ghost predicate AdjacentGap(log: seq<Message>, p: Pair, g: Gap) {
    exists i: nat, j: nat :: Adjacent(log, p, i, j) && g == GapFrom(log[i], log[j])
  }

  lemma MeasuredIsAdjacent(log: seq<Message>, p: Pair, a: nat)
    requires a < |GapsOf(Points(log, p))|
    ensures AdjacentGap(log, p, GapsOf(Points(log, p))[a])
  {
    PositionsCount(log, p);
    NeighboursAreAdjacent(log, p, a);
    MeasuredGap(log, p, a);
    AdjacencyHasGap(log, p, Positions(log, p)[a], Positions(log, p)[a + 1]);
  }

  lemma MeasuredGap(log: seq<Message>, p: Pair, a: nat)
    requires a + 1 < |Positions(log, p)| == |Points(log, p)|
    ensures var i, j := Positions(log, p)[a], Positions(log, p)[a + 1];
            i < |log| && j < |log| && GapsOf(Points(log, p))[a] == GapFrom(log[i], log[j])
  {
    PositionAt(log, p, a);
    PositionAt(log, p, a + 1);
  }

  lemma AdjacencyHasGap(log: seq<Message>, p: Pair, i: nat, j: nat)
    requires Adjacent(log, p, i, j)
    ensures AdjacentGap(log, p, GapFrom(log[i], log[j]))
  {
  }

  lemma NeighboursAreAdjacent(log: seq<Message>, p: Pair, a: nat)
    requires a + 1 < |Positions(log, p)|
    ensures Adjacent(log, p, Positions(log, p)[a], Positions(log, p)[a + 1])
  {
    var ps := Positions(log, p);
    PositionsIncrease(log, p);
    PositionAt(log, p, a);
    PositionAt(log, p, a + 1);
    forall k | ps[a] < k < ps[a + 1] ensures Paired(log[k]) != Some(p) {
      if Paired(log[k]) == Some(p) {
        var b := PositionOf(log, p, k);
        assert false;
      }
    }
  }

  lemma AdjacentIsMeasured(log: seq<Message>, p: Pair, i: nat, j: nat)
    requires Adjacent(log, p, i, j)
    ensures GapFrom(log[i], log[j]) in GapsOf(Points(log, p))
  {
    var ps := Positions(log, p);
    var a := PositionOf(log, p, i);
    var b := PositionOf(log, p, j);
    PositionsIncrease(log, p);
    PositionsCount(log, p);
    assert a < b;
    PositionAt(log, p, a);
    PositionAt(log, p, a + 1);
    assert b == a + 1;
    PositionAt(log, p, b);
    assert GapsOf(Points(log, p))[a] == GapFrom(log[i], log[j]);
  }

  /** The measured gaps of a pair are the gaps between its adjacent heartbeats. */
  lemma GapsAreAdjacencies(log: seq<Message>, p: Pair, g: Gap)
    ensures g in GapsOf(Points(log, p)) <==> AdjacentGap(log, p, g)
  {
    var gaps := GapsOf(Points(log, p));
    if g in gaps {
      var a :| 0 <= a < |gaps| && gaps[a] == g;
      MeasuredIsAdjacent(log, p, a);
    }
    if AdjacentGap(log, p, g) {
      var i: nat, j: nat :| Adjacent(log, p, i, j) && g == GapFrom(log[i], log[j]);
      AdjacentIsMeasured(log, p, i, j);
    }
  }

  lemma {:induction false} RoleGapsAre(order: seq<Pair>, log: seq<Message>, roles: set<string>, g: Gap)
    ensures g in RoleGaps(order, log, roles)
            <==> exists p :: p in order && p.src in roles && g in GapsOf(Points(log, p))
  {
    if order != [] {
      var front, p := order[..|order| - 1], order[|order| - 1];
      RoleGapsAre(front, log, roles, g);
      assert forall q :: q in order <==> q in front || q == p;
      var own := if p.src in roles then GapsOf(Points(log, p)) else [];
      assert g in RoleGaps(order, log, roles) <==> g in RoleGaps(front, log, roles) || g in own;
    }
  }

  /** The longest gap is no shorter than any gap, and is one of them unless none is positive. */
  lemma {:induction false} LongestIs(gaps: seq<Gap>)
    ensures forall g :: g in gaps ==> g.duration <= Longest(gaps)
    ensures Longest(gaps) == 0 || exists g :: g in gaps && g.duration == Longest(gaps)
  {
    if gaps != [] {
      var front, last := gaps[..|gaps| - 1], gaps[|gaps| - 1];
      LongestIs(front);
      assert gaps == front + [last];
      assert last in gaps && forall g :: g in front ==> g in gaps;
    }
  }

  /** The figures a summary shows agree with its verdict: after a pass the longest gap is at most 60 s,
      after a failure it is longer, and there is at least one violation and no more than gaps. */
  lemma SummaryAgrees(log: seq<Message>, roles: set<string>)
    ensures match Summarize(log, roles)
            case Kept(gaps, worst) => Judge(log, roles) == Pass && gaps > 0 && worst <= LIMIT
            case Violated(violations, gaps, worst) =>
              Judge(log, roles) == Fail && 1 <= violations <= gaps && worst > LIMIT
            case TooFew => Judge(log, roles) == Inconclusive
            case _ => Judge(log, roles) == NotApplicable
  {
    var gaps := RoleGaps(Order(log), log, roles);
    LongestIs(gaps);
    TooLongIsShorter(gaps);
    LongIffTooLong(gaps);
  }

  lemma LongIffTooLong(gaps: seq<Gap>)
    ensures TooLong(gaps) == [] <==> Longest(gaps) <= LIMIT
  {
    LongestIs(gaps);
    forall g ensures g in TooLong(gaps) <==> g in gaps && g.duration > LIMIT {
      TooLongMembers(gaps, g);
    }
    var long := TooLong(gaps);
    assert long != [] ==> long[0] in long;
  }

  /** The evidence keeps the order of the gaps, each as often as it occurs. */
  lemma {:induction false} TooLongInOrder(a: seq<Gap>, b: seq<Gap>)
    ensures TooLong(a + b) == TooLong(a) + TooLong(b)
  {
    if |b| == 0 {
      NothingMore(a, b);
    } else {
      var front, g := b[..|b| - 1], b[|b| - 1];
      TooLongInOrder(a, front);
      SplitLast(a, b);
      TooLongMore(a + front, g);
      Regroup(TooLong(a), TooLong(front), [g]);
    }
  }

  lemma NothingMore(a: seq<Gap>, b: seq<Gap>)
    requires |b| == 0
    ensures a + b == a && TooLong(a) + TooLong(b) == TooLong(a)
  {
  }

  lemma {:induction false} TooLongIsShorter(gaps: seq<Gap>)
    ensures |TooLong(gaps)| <= |gaps|
  {
    if gaps != [] {
      TooLongIsShorter(gaps[..|gaps| - 1]);
    }
  }

  /** Some adjacent heartbeats of a pair with a role sender lie the gap `g` apart. */
  ghost predicate RoleGap(log: seq<Message>, roles: set<string>, g: Gap) {
    exists p: Pair :: p.src in roles && AdjacentGap(log, p, g)
  }

  lemma RoleGapsOfLog(log: seq<Message>, roles: set<string>, g: Gap)
    ensures g in RoleGaps(Order(log), log, roles) <==> RoleGap(log, roles, g)
  {
    RoleGapsAre(Order(log), log, roles, g);
    forall p ensures g in GapsOf(Points(log, p)) <==> AdjacentGap(log, p, g) {
      GapsAreAdjacencies(log, p, g);
    }
    forall p ensures g in GapsOf(Points(log, p)) ==> p in Order(log) {
      PairHasPoints(log, p);
    }
  }

  /** The verdict in terms of the log: without a role heartbeat the check does not apply, without an
      adjacency of a role pair nothing can be measured, and otherwise it fails exactly when some
      adjacency is longer than 60 s. The evidence of a failure is exactly the long ones. */
  lemma VerdictMeaning(log: seq<Message>, roles: set<string>)
    ensures var seen := exists m :: && m in log && m.functionSet == "DeviceDiagnosisHeartbeatData"
                                    && m.deviceSource in roles;
            var measured := exists g :: RoleGap(log, roles, g);
            var long := exists g :: RoleGap(log, roles, g) && g.duration > LIMIT;
            Judge(log, roles) == if !seen then NotApplicable else if !measured then Inconclusive
                                 else if long then Fail else Pass
    ensures forall g :: g in TooLong(RoleGaps(Order(log), log, roles))
                        <==> RoleGap(log, roles, g) && g.duration > LIMIT
  {
    var gaps := RoleGaps(Order(log), log, roles);
    forall g ensures g in gaps <==> RoleGap(log, roles, g) {
      RoleGapsOfLog(log, roles, g);
    }
    forall g ensures g in TooLong(gaps) <==> g in gaps && g.duration > LIMIT {
      TooLongMembers(gaps, g);
    }
    assert gaps != [] ==> gaps[0] in gaps;
    var long := TooLong(gaps);
    assert long != [] ==> long[0] in long;
  }

  /** When every heartbeat carries both device addresses, the verdict needs no look at single
      messages: it fails exactly when some adjacency is long, passes exactly when there are
      adjacencies and none is long. */
  lemma VerdictWithAddresses(log: seq<Message>, roles: set<string>)
    requires forall m :: m in log && IsHeartbeat(m) ==> m.deviceSource != "" && m.deviceDest != ""
    ensures Judge(log, roles) == Fail <==> exists g :: RoleGap(log, roles, g) && g.duration > LIMIT
    ensures Judge(log, roles) == Pass <==> (exists g :: RoleGap(log, roles, g))
                                           && forall g :: RoleGap(log, roles, g) ==> g.duration <= LIMIT
    ensures Judge(log, roles) == Inconclusive <==> (exists m :: m in log && RoleHeartbeat(m, roles))
                                                   && !exists g :: RoleGap(log, roles, g)
  {
    VerdictMeaning(log, roles);
    forall g | RoleGap(log, roles, g)
      ensures exists m :: m in log && RoleHeartbeat(m, roles)
    {
      var p: Pair :| p.src in roles && AdjacentGap(log, p, g);
      var i: nat, j: nat :| Adjacent(log, p, i, j) && g == GapFrom(log[i], log[j]);
      assert log[i] in log && RoleHeartbeat(log[i], roles);
    }
  }

  /** Between two heartbeats whose steps in between are at most `limit` apart, every instant has a
      heartbeat at most `limit` before it, also when the time stamps are not sorted. */
  lemma {:induction false} Covered(points: seq<Point>, t: int, limit: nat) returns (k: nat)
    requires points != [] && points[0].ts <= t <= points[|points| - 1].ts
    requires forall i :: 0 <= i < |points| - 1 ==> points[i + 1].ts - points[i].ts <= limit
    ensures k < |points| && points[k].ts <= t <= points[k].ts + limit
    decreases |points|
  {
    if |points| == 1 {
      k := 0;
    } else if t < points[1].ts {
      k := 0;
    } else {
      k := Covered(points[1..], t, limit);
      k := k + 1;
    }
  }

  lemma PassHasNoLongGap(log: seq<Message>, roles: set<string>)
    requires Judge(log, roles) == Pass
    ensures TooLong(RoleGaps(Order(log), log, roles)) == []
  {
  }

  lemma PassBoundsGaps(log: seq<Message>, roles: set<string>, p: Pair, g: Gap)
    requires TooLong(RoleGaps(Order(log), log, roles)) == [] && p.src in roles && g in GapsOf(Points(log, p))
    ensures g.duration <= LIMIT
  {
    PairHasPoints(log, p);
    assert p in Order(log);
    RoleGapsAre(Order(log), log, roles, g);
    TooLongMembers(RoleGaps(Order(log), log, roles), g);
  }

  /** The first and last heartbeat of a pair stand at the ends of its points. */
  lemma EndsOfPoints(log: seq<Message>, p: Pair, first: nat, last: nat)
    requires first < |log| && last < |log| && Paired(log[first]) == Paired(log[last]) == Some(p)
    requires forall k: nat :: k < |log| && Paired(log[k]) == Some(p) ==> first <= k <= last
    ensures var points := Points(log, p);
            points != [] && points[0] == PointOf(log[first]) && points[|points| - 1] == PointOf(log[last])
  {
    var ps := Positions(log, p);
    var a := PositionOf(log, p, first);
    var b := PositionOf(log, p, last);
    PositionsIncrease(log, p);
    PositionsCount(log, p);
    PositionAt(log, p, 0);
    PositionAt(log, p, |ps| - 1);
    assert a == 0 && b == |ps| - 1;
  }

  /** A pass means what the requirement asks for: at every instant from a role pair's first to its
      last heartbeat, some heartbeat of the pair is at most 60 s old. */
  lemma PassMeansCovered(log: seq<Message>, roles: set<string>, p: Pair, first: nat, last: nat, t: int)
    requires Judge(log, roles) == Pass && p.src in roles
    requires first < |log| && last < |log| && Paired(log[first]) == Paired(log[last]) == Some(p)
    requires forall k: nat :: k < |log| && Paired(log[k]) == Some(p) ==> first <= k <= last
    requires log[first].timestamp <= t <= log[last].timestamp
    ensures exists m :: m in log && Paired(m) == Some(p) && m.timestamp <= t <= m.timestamp + LIMIT
  {
    PassHasNoLongGap(log, roles);
    EndsOfPoints(log, p, first, last);
    var k := PointBefore(log, roles, p, t);
    assert log[k] in log;
  }

  lemma PointBefore(log: seq<Message>, roles: set<string>, p: Pair, t: int) returns (i: nat)
    requires TooLong(RoleGaps(Order(log), log, roles)) == [] && p.src in roles
    requires var points := Points(log, p); points != [] && points[0].ts <= t <= points[|points| - 1].ts
    ensures i < |log| && Paired(log[i]) == Some(p) && log[i].timestamp <= t <= log[i].timestamp + LIMIT
  {
    var points := Points(log, p);
    forall i | 0 <= i < |points| - 1 ensures points[i + 1].ts - points[i].ts <= LIMIT {
      assert GapsOf(points)[i] == GapBetween(points[i], points[i + 1]);
      PassBoundsGaps(log, roles, p, GapsOf(points)[i]);
    }
    var k := Covered(points, t, LIMIT);
    PositionsCount(log, p);
    PositionAt(log, p, k);
    i := Positions(log, p)[k];
  }
}
