/** The interval statistics of internal/analysis/metrics.go over the reals, with the square of the
    standard deviation in place of its root. */
module HeartbeatStats {
  import opened Common
  import opened Model
  import opened Heartbeat

  datatype Jitter = Jitter(pair: Pair, mean: real, variance: real, min: real, max: real, sampleCount: nat)

  /** time.Duration.Milliseconds, which truncates towards zero. */
  function Milliseconds(d: int): int {
    if d >= 0 then d / 1_000_000 else -((-d) / 1_000_000)
  }

  /** The whole milliseconds of a duration: not more than the duration, less than one short of it,
      and on the same side of zero. */
  lemma MillisecondsTruncate(d: int)
    ensures d >= 0 ==> Milliseconds(d) >= 0 && d - 1_000_000 < 1_000_000 * Milliseconds(d) <= d
    ensures Milliseconds(-d) == -Milliseconds(d)
  {
  }

  function Values(gaps: seq<Gap>): seq<real> {
    seq(|gaps|, i requires 0 <= i < |gaps| => Milliseconds(gaps[i].duration) as real)
  }

  function Product(x: real, y: real): real { x * y }

  function Square(x: real): real { x * x }

  function Sum(xs: seq<real>): real {
    if xs == [] then 0.0 else Sum(xs[..|xs| - 1]) + xs[|xs| - 1]
  }

  function SquaredDeviations(xs: seq<real>, center: real): real {
    if xs == [] then 0.0
    else
      SquaredDeviations(xs[..|xs| - 1], center) + Square(xs[|xs| - 1] - center)
  }

  ghost predicate IsMin(m: real, xs: seq<real>) { m in xs && forall x :: x in xs ==> m <= x }

  ghost predicate IsMax(m: real, xs: seq<real>) { m in xs && forall x :: x in xs ==> x <= m }

  /** The numbers of `j` are the statistics of `gaps`. */
  ghost predicate Describes(j: Jitter, p: Pair, gaps: seq<Gap>) {
    var xs, n := Values(gaps), |gaps|;
    && n > 0 && j.pair == p && j.sampleCount == n
    && j.mean == Sum(xs) / n as real && j.variance == SquaredDeviations(xs, j.mean) / n as real
    && IsMin(j.min, xs) && IsMax(j.max, xs)
  }

  /** The first inner loop of computeHeartbeatJitter. */
  method SumAndRange(gaps: seq<Gap>) returns (sum: real, min: real, max: real)
    requires |gaps| > 0
    ensures sum == Sum(Values(gaps)) && IsMin(min, Values(gaps)) && IsMax(max, Values(gaps))
  {
    ghost var xs := Values(gaps);
    min, max := Milliseconds(gaps[0].duration) as real, Milliseconds(gaps[0].duration) as real;
    sum := 0.0;
    assert min == xs[0];
    for i := 0 to |gaps|
      invariant sum == Sum(xs[..i])
      invariant min in xs && max in xs
      invariant forall k :: 0 <= k < i ==> min <= xs[k] <= max
    {
      assert xs[..i + 1][..i] == xs[..i];
      var iv := Milliseconds(gaps[i].duration) as real;
      assert iv == xs[i];
      sum := sum + iv;
      if iv < min {
        min := iv;
      }
      if iv > max {
        max := iv;
      }
    }
    assert xs[..|xs|] == xs;
  }

  /** The second inner loop of computeHeartbeatJitter. */
  method SumOfSquares(gaps: seq<Gap>, mean: real) returns (sumSq: real)
    ensures sumSq == SquaredDeviations(Values(gaps), mean)
  {
    ghost var xs := Values(gaps);
    sumSq := 0.0;
    for i := 0 to |gaps|
      invariant sumSq == SquaredDeviations(xs[..i], mean)
    {
      assert xs[..i + 1][..i] == xs[..i];
      var diff := Milliseconds(gaps[i].duration) as real - mean;
      sumSq := sumSq + diff * diff;
    }
    assert xs[..|xs|] == xs;
  }

  /** The part of computeHeartbeatJitter that measures one pair. */
  method MeasurePair(p: Pair, gaps: seq<Gap>) returns (j: Jitter)
    requires |gaps| > 0
    ensures Describes(j, p, gaps)
  {
    var sum, min, max := SumAndRange(gaps);
    var mean := sum / |gaps| as real;
    var sumSq := SumOfSquares(gaps, mean);
    return Jitter(p, mean, sumSq / |gaps| as real, min, max, |gaps|);
  }

  /** The pairs with at least one gap, in order. */
  function Measured(order: seq<Pair>, log: seq<Message>): seq<Pair> {
    if order == [] then []
    else
      var p := order[|order| - 1];
      Measured(order[..|order| - 1], log) + (if |Points(log, p)| >= 2 then [p] else [])
  }

  /** The measured pairs are the listed pairs with at least two heartbeats. */
  lemma {:induction false} MeasuredExactly(order: seq<Pair>, log: seq<Message>, p: Pair)
    ensures p in Measured(order, log) <==> p in order && |Points(log, p)| >= 2
  {
    if order != [] {
      MeasuredExactly(order[..|order| - 1], log, p);
      assert order == order[..|order| - 1] + [order[|order| - 1]];
    }
  }

  /** One result for each measured pair, in order. */
  ghost predicate DescribeAll(results: seq<Jitter>, order: seq<Pair>, log: seq<Message>) {
    var pairs := Measured(order, log);
    |results| == |pairs| && forall i :: 0 <= i < |pairs| ==>
      Describes(results[i], pairs[i], GapsOf(Points(log, pairs[i])))
  }

  lemma DescribeMore(results: seq<Jitter>, order: seq<Pair>, log: seq<Message>, p: Pair, j: Jitter)
    requires DescribeAll(results, order, log) && |Points(log, p)| >= 2 && Describes(j, p, GapsOf(Points(log, p)))
    ensures DescribeAll(results + [j], order + [p], log)
  {
    assert (order + [p])[..|order|] == order;
    var all, pairs := results + [j], Measured(order + [p], log);
    forall i | 0 <= i < |pairs| ensures Describes(all[i], pairs[i], GapsOf(Points(log, pairs[i]))) {
      if i < |results| {
        assert all[i] == results[i] && pairs[i] == Measured(order, log)[i];
      } else {
        assert all[i] == j && pairs[i] == p;
      }
    }
  }

  /** internal/analysis/metrics.go: computeHeartbeatJitter. */
  method ComputeHeartbeatJitter(log: seq<Message>) returns (results: seq<Jitter>)
    ensures DescribeAll(results, Order(log), log)
  {
    var order, gaps := CollectHeartbeatGapsByPair(log);
    results := [];
    for k := 0 to |order|
      invariant DescribeAll(results, order[..k], log)
    {
      TakeMore(order, k);
      if order[k] !in gaps {
        MeasuredSkips(order[..k], log, order[k]);
        continue;
      }
      var jitter := MeasurePair(order[k], gaps[order[k]]);
      DescribeMore(results, order[..k], log, order[k], jitter);
      results := results + [jitter];
    }
    assert order[..|order|] == order;
  }

  lemma MeasuredSkips(order: seq<Pair>, log: seq<Message>, p: Pair)
    requires |Points(log, p)| < 2
    ensures Measured(order + [p], log) == Measured(order, log)
  {
    assert (order + [p])[..|order|] == order;
  }

  // -------------------------------------------------------------------- laws

  lemma {:induction false} SumBounds(xs: seq<real>, lo: real, hi: real)
    requires forall x :: x in xs ==> lo <= x <= hi
    ensures |xs| as real * lo <= Sum(xs) <= |xs| as real * hi
  {
    if xs != [] {
      var front, n := xs[..|xs| - 1], (|xs| - 1) as real;
      assert forall x :: x in front ==> x in xs;
      SumBounds(front, lo, hi);
      assert xs[|xs| - 1] in xs;
      assert (n + 1.0) * lo == n * lo + lo && (n + 1.0) * hi == n * hi + hi;
    }
  }

  /** One value's squared deviation, for a center between the bounds. */
  lemma DeviationBound(x: real, center: real, lo: real, hi: real)
    requires lo <= x <= hi
    ensures Square(x - center) <= Product(hi - center, center - lo) + Product(x - center, hi + lo - 2.0 * center)
  {
    SquareBound(x - center, hi - center, center - lo);
    assert (hi - center) - (center - lo) == hi + lo - 2.0 * center;
  }

  lemma SquareBound(u: real, a: real, b: real)
    requires -b <= u <= a
    ensures u * u <= a * b + u * (a - b)
  {
    NonNegativeProduct(a - u, b + u);
    Distribute(a, -u, b + u);
    assert a * (b + u) == a * b + a * u;
    assert (-u) * (b + u) == -(u * b) - u * u;
    assert u * (a - b) == u * a - u * b;
  }

  lemma NonNegativeProduct(a: real, b: real)
    requires a >= 0.0 && b >= 0.0
    ensures a * b >= 0.0
  {
  }

  /** The bounds of the squared deviations, added up. */
  function SumOfBounds(xs: seq<real>, center: real, k: real, l: real): real {
    if xs == [] then 0.0 else SumOfBounds(xs[..|xs| - 1], center, k, l) + (k + Product(xs[|xs| - 1] - center, l))
  }

  lemma {:induction false} SumOfBoundsIs(xs: seq<real>, center: real, k: real, l: real)
    ensures SumOfBounds(xs, center, k, l) == Product(|xs| as real, k) + Product(Sum(xs) - |xs| as real * center, l)
  {
    if xs != [] {
      var front, x, n := xs[..|xs| - 1], xs[|xs| - 1], (|xs| - 1) as real;
      SumOfBoundsIs(front, center, k, l);
      SplitSum(n, Sum(front), x, center, k, l);
    }
  }

  lemma {:induction false} DeviationsBound(xs: seq<real>, center: real, lo: real, hi: real)
    requires forall x :: x in xs ==> lo <= x <= hi
    ensures SquaredDeviations(xs, center)
         <= SumOfBounds(xs, center, Product(hi - center, center - lo), hi + lo - 2.0 * center)
  {
    if xs != [] {
      var front, x := xs[..|xs| - 1], xs[|xs| - 1];
      assert forall y :: y in front ==> y in xs;
      assert x in xs;
      DeviationsBound(front, center, lo, hi);
      DeviationBound(x, center, lo, hi);
    }
  }

  lemma SplitSum(n: real, sum: real, x: real, center: real, k: real, l: real)
    ensures Product(n + 1.0, k) + Product((sum + x) - (n + 1.0) * center, l)
         == (Product(n, k) + Product(sum - n * center, l)) + (k + Product(x - center, l))
  {
    assert (n + 1.0) * k == n * k + k;
    assert (sum + x) - (n + 1.0) * center == (sum - n * center) + (x - center);
    Distribute(sum - n * center, x - center, l);
  }

  lemma Distribute(a: real, b: real, l: real)
    ensures (a + b) * l == a * l + b * l
  {
  }

  lemma MeanInRange(xs: seq<real>, mean: real, lo: real, hi: real)
    requires xs != [] && mean == Sum(xs) / |xs| as real && forall x :: x in xs ==> lo <= x <= hi
    ensures lo <= mean <= hi && |xs| as real * mean == Sum(xs)
  {
    var n := |xs| as real;
    assert n * mean == Sum(xs);
    SumBounds(xs, lo, hi);
    Cancel(n, lo, mean);
    Cancel(n, mean, hi);
  }

  lemma VarianceBound(xs: seq<real>, mean: real, variance: real, lo: real, hi: real)
    requires xs != [] && |xs| as real * mean == Sum(xs) && variance == SquaredDeviations(xs, mean) / |xs| as real
    requires forall x :: x in xs ==> lo <= x <= hi
    ensures 0.0 <= variance <= Product(hi - mean, mean - lo)
  {
    var k, l := Product(hi - mean, mean - lo), hi + lo - 2.0 * mean;
    DeviationsBound(xs, mean, lo, hi);
    BoundsAtMean(xs, mean, k, l);
    DeviationsNonNegative(xs, mean);
    QuotientBound(SquaredDeviations(xs, mean), |xs| as real, k);
  }

  lemma BoundsAtMean(xs: seq<real>, mean: real, k: real, l: real)
    requires |xs| as real * mean == Sum(xs)
    ensures SumOfBounds(xs, mean, k, l) == Product(|xs| as real, k)
  {
    SumOfBoundsIs(xs, mean, k, l);
    assert Product(0.0, l) == 0.0;
  }

  lemma QuotientBound(x: real, n: real, k: real)
    requires n > 0.0 && 0.0 <= x <= Product(n, k)
    ensures 0.0 <= x / n <= k
  {
    TimesQuotient(x, n);
    Cancel(n, x / n, k);
    Quotient(x, n);
  }

  lemma TimesQuotient(x: real, n: real)
    requires n > 0.0
    ensures n * (x / n) == x
  {
  }

  lemma ConsistentNumbers(xs: seq<real>, mean: real, variance: real, lo: real, hi: real)
    requires xs != [] && IsMin(lo, xs) && IsMax(hi, xs)
    requires mean == Sum(xs) / |xs| as real && variance == SquaredDeviations(xs, mean) / |xs| as real
    ensures lo <= mean <= hi && 0.0 <= variance <= Product(hi - mean, mean - lo)
  {
    MeanInRange(xs, mean, lo, hi);
    VarianceBound(xs, mean, variance, lo, hi);
  }

  /** The reported statistics of a pair: the mean lies between minimum and maximum, and the variance
      is bounded by the product of its distances to them. */
  lemma StatisticsAreConsistent(j: Jitter, p: Pair, gaps: seq<Gap>)
    requires Describes(j, p, gaps)
    ensures j.min <= j.mean <= j.max
    ensures 0.0 <= j.variance <= Product(j.max - j.mean, j.mean - j.min)
  {
    var xs, lo, mean, hi := Values(gaps), j.min, j.mean, j.max;
    assert |xs| == |gaps|;
    ConsistentNumbers(xs, mean, j.variance, lo, hi);
  }

  /** So the variance is at most a quarter of the squared range. */
  lemma VarianceWithinRange(j: Jitter, p: Pair, gaps: seq<Gap>)
    requires Describes(j, p, gaps)
    ensures 4.0 * j.variance <= Square(j.max - j.min)
  {
    var variance, lo, mean, hi := j.variance, j.min, j.mean, j.max;
    StatisticsAreConsistent(j, p, gaps);
    QuarterRange(mean, variance, lo, hi);
  }

  lemma Cancel(n: real, a: real, b: real)
    requires n > 0.0 && n * a <= n * b
    ensures a <= b
  {
    assert b - a == (n * b - n * a) / n;
    Quotient(n * b - n * a, n);
  }

  lemma Quotient(x: real, n: real)
    requires n > 0.0 && x >= 0.0
    ensures x / n >= 0.0
  {
  }


  lemma QuarterRange(mean: real, variance: real, lo: real, hi: real)
    requires variance <= Product(hi - mean, mean - lo)
    ensures 4.0 * variance <= Square(hi - lo)
  {
    QuarterBound(hi - mean, mean - lo);
    assert (hi - mean) + (mean - lo) == hi - lo;
  }

  lemma QuarterBound(a: real, b: real)
    ensures 4.0 * (a * b) <= (a + b) * (a + b)
  {
    assert (a - b) * (a - b) >= 0.0;
    assert (a + b) * (a + b) - 4.0 * (a * b) == (a - b) * (a - b);
  }

  lemma {:induction false} DeviationsNonNegative(xs: seq<real>, center: real)
    ensures SquaredDeviations(xs, center) >= 0.0
  {
    if xs != [] {
      DeviationsNonNegative(xs[..|xs| - 1], center);
      var diff := xs[|xs| - 1] - center;
      assert diff * diff >= 0.0;
    }
  }

  function TotalDuration(gaps: seq<Gap>): int {
    if gaps == [] then 0 else TotalDuration(gaps[..|gaps| - 1]) + gaps[|gaps| - 1].duration
  }

  /** The gaps of a pair telescope to the time from its first to its last heartbeat. */
  lemma {:induction false} GapsTelescope(points: seq<Point>)
    requires points != []
    ensures TotalDuration(GapsOf(points)) == points[|points| - 1].ts - points[0].ts
  {
    if |points| > 1 {
      var front := points[..|points| - 1];
      GapsTelescope(front);
      assert GapsOf(points)[..|points| - 2] == GapsOf(front);
    }
  }

  /** The number of heartbeats, and of gaps, of the listed pairs. */
  function TotalPoints(order: seq<Pair>, log: seq<Message>): nat {
    if order == [] then 0 else TotalPoints(order[..|order| - 1], log) + |Points(log, order[|order| - 1])|
  }

  function TotalGaps(order: seq<Pair>, log: seq<Message>): nat {
    if order == [] then 0 else TotalGaps(order[..|order| - 1], log) + |GapsOf(Points(log, order[|order| - 1]))|
  }

  lemma PointsMore(log: seq<Message>, m: Message, p: Pair)
    ensures |Points(log + [m], p)| == |Points(log, p)| + (if Paired(m) == Some(p) then 1 else 0)
  {
    LogMore(log, m);
  }

  lemma {:induction false} TotalPointsMore(order: seq<Pair>, log: seq<Message>, m: Message)
    requires NoRepeats(order)
    ensures TotalPoints(order, log + [m]) ==
              TotalPoints(order, log) + (if Paired(m).Some? && Paired(m).value in order then 1 else 0)
  {
    if order != [] {
      var front, p := order[..|order| - 1], order[|order| - 1];
      TotalPointsMore(front, log, m);
      PointsMore(log, m, p);
      assert order == front + [p];
    }
  }

  lemma {:induction false} PointsAreHeartbeats(log: seq<Message>)
    ensures TotalPoints(Order(log), log) == |PairsOf(log)|
  {
    if log != [] {
      var front, m := log[..|log| - 1], log[|log| - 1];
      assert log == front + [m];
      PointsAreHeartbeats(front);
      LogMore(front, m);
      var order := Order(front);
      TotalPointsMore(order, front, m);
      if Paired(m).Some? {
        var p := Paired(m).value;
        DistinctMore(PairsOf(front), p);
        if p !in order {
          PairHasPoints(front, p);
          assert (order + [p])[..|order|] == order;
        }
      }
    }
  }

  lemma {:induction false} GapsOfPairs(order: seq<Pair>, log: seq<Message>)
    requires forall p :: p in order ==> Points(log, p) != []
    ensures TotalGaps(order, log) + |order| == TotalPoints(order, log)
  {
    if order != [] {
      var front, p := order[..|order| - 1], order[|order| - 1];
      assert forall q :: q in front ==> q in order;
      assert p in order;
      GapsOfPairs(front, log);
    }
  }

  /** Over all pairs there are as many gaps as paired heartbeats less the distinct pairs. */
  lemma GapCount(log: seq<Message>)
    ensures TotalGaps(Order(log), log) == |PairsOf(log)| - |Order(log)|
  {
    forall p | p in Order(log) ensures Points(log, p) != [] {
      PairHasPoints(log, p);
    }
    GapsOfPairs(Order(log), log);
    PointsAreHeartbeats(log);
  }
}
