/** The two interpolating percentiles (the runner's own, and the one of the statistics
    library the auditor calls), means and medians, in exact arithmetic. */
module BenchStats {
  import opened Prelude
  import opened Arith
  import opened SortedLists

  /** A float that may be math.inf. */
  datatype Metric = Finite(value: real) | Infinite

  function Fin(x: real): Metric { Finite(x) }
  function MetricLe(a: Metric, b: Metric): bool { b.Infinite? || (a.Finite? && a.value <= b.value) }

  function Ceiling(x: real): int { -((-x).Floor) }

  lemma MulBounds(a: real, q: real)
    requires a >= 0.0 && 0.0 <= q <= 1.0
    ensures 0.0 <= a * q <= a
  {
  }

  function Position(last: nat, q: real): real { last as real * q }

  lemma PositionBounds(last: nat, q: real)
    requires 0.0 <= q <= 1.0
    ensures 0 <= Position(last, q).Floor <= Ceiling(Position(last, q)) <= last
  {
    MulBounds(last as real, q);
  }

  function Between(low: real, high: real, fraction: real): real { low + (high - low) * fraction }

  /** Interpolation at position (n - 1) * q of a sorted list. */
  function At(ordered: seq<real>, q: real): real
    requires |ordered| > 0 && 0.0 <= q <= 1.0
  {
    if |ordered| == 1 then ordered[0]
    else
      PositionBounds(|ordered| - 1, q);
      var pos := Position(|ordered| - 1, q);
      var low, high := pos.Floor, Ceiling(pos);
      if low == high then ordered[low] else Between(ordered[low], ordered[high], pos - low as real)
  }

  function Percentile(values: seq<real>, q: real): Metric
    requires 0.0 <= q <= 1.0
  {
    if |values| == 0 then Infinite else Finite(At(Sort(RealLe, values), q))
  }

  lemma HundredthBelow(a: nat, m: nat)
    requires a <= 99 * m && m >= 1
    ensures 0 <= a / 100 < m
  {
  }

  lemma CutBounds(m: nat, i: nat)
    requires m >= 1 && 1 <= i <= 99
    ensures 0 <= i * m / 100 < m
  {
    MulMonotone(i, 99, m);
    HundredthBelow(i * m, m);
  }

  /** Cut point i of statistics.quantiles(data, n=100, method="inclusive"), on sorted data. */
  function Cut(ordered: seq<real>, i: nat): real
    requires |ordered| >= 2 && 1 <= i <= 99
  {
    CutBounds(|ordered| - 1, i);
    var j, delta := i * (|ordered| - 1) / 100, i * (|ordered| - 1) % 100;
    (ordered[j] * (100 - delta) as real + ordered[j + 1] * delta as real) / 100.0
  }

  /** All 99 cut points; fewer than two values are refused (StatisticsError). */
  function Quantiles(values: seq<real>): Option<seq<real>> {
    if |values| < 2 then None
    else
      var ordered := Sort(RealLe, values);
      Some(seq(99, i requires 0 <= i < 99 => Cut(ordered, i + 1)))
  }

  /** Floor, ceiling and fraction of a / 100 are its quotient and remainder. */
  lemma HundredthsSplit(a: nat)
    ensures (a as real / 100.0).Floor == a / 100
    ensures Ceiling(a as real / 100.0) == if a % 100 == 0 then a / 100 else a / 100 + 1
    ensures a as real / 100.0 - (a / 100) as real == (a % 100) as real / 100.0
  {
    var d, m := a / 100, a % 100;
    assert a == 100 * d + m;
    assert a as real / 100.0 == d as real + m as real / 100.0;
  }

  lemma Interpolate(x: real, y: real, d: real)
    ensures Between(x, y, d / 100.0) == (x * (100.0 - d) + y * d) / 100.0
  {
    var t := d / 100.0;
    assert d == 100.0 * t;
    ScaleOut(x, y, t);
  }

  lemma ScaleOut(x: real, y: real, t: real)
    ensures (x * (100.0 - 100.0 * t) + y * (100.0 * t)) == 100.0 * (x + (y - x) * t)
  {
    assert y * (100.0 * t) == 100.0 * (y * t);
    assert x * (100.0 - 100.0 * t) == 100.0 * x - 100.0 * (x * t);
    assert (y - x) * t == y * t - x * t;
  }

  lemma SamePosition(last: nat, i: nat)
    ensures last as real * (i as real / 100.0) == (i * last) as real / 100.0
  {
    var a, b := last as real, i as real;
    assert (i * last) as real == b * a;
    assert 100.0 * (b / 100.0) == b;
    assert 100.0 * (a * (b / 100.0)) == a * (100.0 * (b / 100.0));
  }

  lemma QuotientOf(j: nat, delta: nat)
    requires delta < 100
    ensures (100 * j + delta) / 100 == j && (100 * j + delta) % 100 == delta
  {
  }

  lemma AtHundredth(ordered: seq<real>, q: real, j: nat, delta: nat)
    requires |ordered| >= 2 && 0.0 <= q <= 1.0 && delta < 100 && j + 1 < |ordered|
    requires Position(|ordered| - 1, q) == (100 * j + delta) as real / 100.0
    ensures At(ordered, q)
            == if delta == 0 then ordered[j] else Between(ordered[j], ordered[j + 1], delta as real / 100.0)
  {
    hide Between, Position, Ceiling;
    HundredthsSplit(100 * j + delta);
    QuotientOf(j, delta);
  }

  lemma CutIsAt(ordered: seq<real>, i: nat)
    requires |ordered| >= 2 && 1 <= i <= 99
    ensures At(ordered, i as real / 100.0) == Cut(ordered, i)
  {
    hide Between, At;
    var last := |ordered| - 1;
    var j, delta := i * last / 100, i * last % 100;
    CutBounds(last, i);
    SamePosition(last, i);
    assert i * last == 100 * j + delta;
    AtHundredth(ordered, i as real / 100.0, j, delta);
    CutInterpolates(ordered, j, delta);
  }

  lemma CutInterpolates(ordered: seq<real>, j: nat, delta: nat)
    requires j + 1 < |ordered| && delta < 100
    ensures (ordered[j] * (100 - delta) as real + ordered[j + 1] * delta as real) / 100.0
            == if delta == 0 then ordered[j] else Between(ordered[j], ordered[j + 1], delta as real / 100.0)
  {
    Interpolate(ordered[j], ordered[j + 1], delta as real);
    assert (100 - delta) as real == 100.0 - delta as real;
  }

  /** The runner's percentile and the library's inclusive cut points are the same
      interpolation: at every hundredth, on every list with at least two values. */
  lemma PercentileIsQuantile(values: seq<real>, i: nat)
    requires |values| >= 2 && 1 <= i <= 99
    ensures Quantiles(values).Some? && |Quantiles(values).value| == 99
    ensures Percentile(values, i as real / 100.0) == Finite(Quantiles(values).value[i - 1])
  {
    hide At, Cut;
    CutIsAt(Sort(RealLe, values), i);
  }

  lemma PercentileKeepsBags(xs: seq<real>, ys: seq<real>, q: real)
    requires multiset(xs) == multiset(ys) && 0.0 <= q <= 1.0
    ensures Percentile(xs, q) == Percentile(ys, q)
  {
    hide At;
    SameSize(xs, ys);
    SortRealsKeepsBags(xs, ys);
  }

  function Milli(x: real): real { x * 1000.0 }

  lemma InterpolateScaled(x: real, y: real, f: real)
    ensures Between(Milli(x), Milli(y), f) == Milli(Between(x, y, f))
  {
  }

  lemma AtScales(ordered: seq<real>, q: real)
    requires |ordered| > 0 && 0.0 <= q <= 1.0
    ensures At(MapSeq(Milli, ordered), q) == Milli(At(ordered, q))
  {
    hide Between, Position;
    if |ordered| > 1 {
      PositionBounds(|ordered| - 1, q);
      var pos := Position(|ordered| - 1, q);
      var low, high := pos.Floor, Ceiling(pos);
      var scaled := MapSeq(Milli, ordered);
      assert scaled[low] == Milli(ordered[low]) && scaled[high] == Milli(ordered[high]);
      InterpolateScaled(ordered[low], ordered[high], pos - low as real);
    }
  }

  /** Scaling to milliseconds before or after taking the percentile is the same. */
  lemma PercentileScales(values: seq<real>, q: real)
    requires |values| > 0 && 0.0 <= q <= 1.0
    ensures Percentile(values, q).Finite?
    ensures Percentile(MapSeq(Milli, values), q) == Finite(Milli(Percentile(values, q).value))
  {
    hide At;
    SortCommutes(Milli, RealLe, RealLe, values);
    AtScales(Sort(RealLe, values), q);
  }

  lemma {:induction false} SumScales(values: seq<real>)
    ensures SumReal(MapSeq(Milli, values)) == Milli(SumReal(values))
  {
    if |values| > 0 {
      var m := |values| - 1;
      assert MapSeq(Milli, values)[..m] == MapSeq(Milli, values[..m]);
      SumScales(values[..m]);
    }
  }

  function Mean(values: seq<real>): real
    requires |values| > 0
  {
    SumReal(values) / |values| as real
  }

  lemma MeanScales(values: seq<real>)
    requires |values| > 0
    ensures Mean(MapSeq(Milli, values)) == Milli(Mean(values))
  {
    SumScales(values);
    var s, n := SumReal(values), |values| as real;
    assert s == n * (s / n);
    assert s * 1000.0 == n * ((s / n) * 1000.0);
  }

  predicate AllPositive(values: seq<real>) {
    forall i :: 0 <= i < |values| ==> values[i] > 0.0
  }

  lemma BetweenPositive(x: real, y: real, f: real)
    requires 0.0 < x <= y && 0.0 <= f
    ensures Between(x, y, f) > 0.0
  {
  }

  lemma AtPositive(ordered: seq<real>, q: real)
    requires |ordered| > 0 && Ordered(RealLe, ordered) && AllPositive(ordered) && 0.0 <= q <= 1.0
    ensures At(ordered, q) > 0.0
  {
    hide Between, Position;
    if |ordered| > 1 {
      PositionBounds(|ordered| - 1, q);
      var pos := Position(|ordered| - 1, q);
      var low, high := pos.Floor, Ceiling(pos);
      assert low < high ==> RealLe(ordered[low], ordered[high]);
      BetweenPositive(ordered[low], ordered[high], pos - low as real);
    }
  }

  lemma PercentilePositive(values: seq<real>, q: real)
    requires |values| > 0 && AllPositive(values) && 0.0 <= q <= 1.0
    ensures Percentile(values, q).Finite? && Percentile(values, q).value > 0.0
  {
    hide At;
    var ordered := Sort(RealLe, values);
    forall i | 0 <= i < |ordered| ensures ordered[i] > 0.0 {
      SortedMember(RealLe, values, i);
    }
    SortOrdered(RealLe, values);
    AtPositive(ordered, q);
  }

  function Half(a: Metric, b: Metric): Metric {
    if a.Infinite? || b.Infinite? then Infinite else Finite((a.value + b.value) / 2.0)
  }

  /** statistics.median over floats that may be infinite. */
  function Median(values: seq<Metric>): Metric
    requires |values| > 0
  {
    var ordered := Sort(MetricLe, values);
    var h := |ordered| / 2;
    if |ordered| % 2 == 1 then ordered[h] else Half(ordered[h - 1], ordered[h])
  }

  /** statistics.median over finite floats. */
  function MedianReal(values: seq<real>): real
    requires |values| > 0
  {
    var ordered := Sort(RealLe, values);
    var h := |ordered| / 2;
    if |ordered| % 2 == 1 then ordered[h] else (ordered[h - 1] + ordered[h]) / 2.0
  }

  lemma MedianOfFinite(values: seq<real>)
    requires |values| > 0
    ensures Median(MapSeq(Fin, values)) == Finite(MedianReal(values))
  {
    SortCommutes(Fin, RealLe, MetricLe, values);
  }

  lemma MedianPositive(values: seq<real>)
    requires |values| > 0 && AllPositive(values)
    ensures MedianReal(values) > 0.0
  {
    var h := |values| / 2;
    SortedMember(RealLe, values, h);
    if |values| % 2 == 0 { SortedMember(RealLe, values, h - 1); }
  }

  function Least(values: seq<real>): real
    requires |values| > 0
  {
    if |values| == 1 then values[0]
    else var rest := Least(values[..|values| - 1]); if values[|values| - 1] < rest then values[|values| - 1] else rest
  }

  function Greatest(values: seq<real>): real
    requires |values| > 0
  {
    if |values| == 1 then values[0]
    else var rest := Greatest(values[..|values| - 1]); if values[|values| - 1] > rest then values[|values| - 1] else rest
  }

  // ------------------------------------------------- what the figures are

  /** The middle value, or halfway between the two middle ones. */
  ghost predicate IsMedian(xs: seq<real>, m: real) {
    && |xs| > 0
    && if |xs| % 2 == 1 then Ranks(xs, |xs| / 2, m)
       else IsMidpoint(xs, |xs| / 2 - 1, m)
  }

  /** Halfway between the values of ranks k and k + 1. */
  ghost predicate IsMidpoint(xs: seq<real>, k: nat, m: real) {
    exists a, b :: Halves(xs, k, a, b, m)
  }

  ghost predicate Halves(xs: seq<real>, k: nat, a: real, b: real, m: real) {
    Ranks(xs, k, a) && Ranks(xs, k + 1, b) && m == (a + b) / 2.0
  }

  lemma MedianRealIsMedian(xs: seq<real>)
    requires |xs| > 0
    ensures IsMedian(xs, MedianReal(xs))
  {
    SortedRanks(xs, |xs| / 2);
    if |xs| % 2 == 0 {
      SortedRanks(xs, |xs| / 2 - 1);
      var a, b := Sort(RealLe, xs)[|xs| / 2 - 1], Sort(RealLe, xs)[|xs| / 2];
      assert Halves(xs, |xs| / 2 - 1, a, b, MedianReal(xs));
    }
  }

  lemma MedianUnique(xs: seq<real>, m: real, n: real)
    requires IsMedian(xs, m) && IsMedian(xs, n)
    ensures m == n
  {
    hide Ranks;
    if |xs| % 2 == 1 {
      RankUnique(xs, |xs| / 2, m, n);
    } else {
      var k: nat := |xs| / 2 - 1;
      var a, b :| Halves(xs, k, a, b, m);
      var c, d :| Halves(xs, k, c, d, n);
      RankUnique(xs, k, a, c);
      RankUnique(xs, k + 1, b, d);
    }
  }

  function Below(v: Metric): Metric -> bool { (x: Metric) => v.Infinite? || (x.Finite? && x.value <= v.value) }
  function Above(v: Metric): Metric -> bool { (x: Metric) => x.Infinite? || (v.Finite? && x.value >= v.value) }

  ghost predicate MetricRanks(xs: seq<Metric>, k: nat, v: Metric) {
    v in xs && k < |xs| && Count(Below(v), xs) >= k + 1 && Count(Above(v), xs) >= |xs| - k
  }

  lemma SortedMetricRanks(xs: seq<Metric>, k: nat)
    requires k < |xs|
    ensures MetricRanks(xs, k, Sort(MetricLe, xs)[k])
  {
    hide Sort, Count, TotalOrder;
    var ys := Sort(MetricLe, xs);
    MetricOrder();
    SortOrdered(MetricLe, xs);
    SortedMember(MetricLe, xs, k);
    CountBefore(MetricLe, Below(ys[k]), xs, ys, k);
    CountAfter(MetricLe, Above(ys[k]), xs, ys, k);
  }

  lemma MetricOrder()
    ensures TotalOrder(MetricLe)
  {
  }

  /** The same for figures that may be infinite: an average with an infinite one is infinite. */
  ghost predicate IsMetricMedian(xs: seq<Metric>, m: Metric) {
    && |xs| > 0
    && if |xs| % 2 == 1 then MetricRanks(xs, |xs| / 2, m)
       else IsMetricMidpoint(xs, |xs| / 2 - 1, m)
  }

  ghost predicate IsMetricMidpoint(xs: seq<Metric>, k: nat, m: Metric) {
    exists a, b :: MetricHalves(xs, k, a, b, m)
  }

  ghost predicate MetricHalves(xs: seq<Metric>, k: nat, a: Metric, b: Metric, m: Metric) {
    && MetricRanks(xs, k, a) && MetricRanks(xs, k + 1, b)
    && m == if a.Finite? && b.Finite? then Finite((a.value + b.value) / 2.0) else Infinite
  }

  lemma MedianIsMedian(xs: seq<Metric>)
    requires |xs| > 0
    ensures IsMetricMedian(xs, Median(xs))
  {
    SortedMetricRanks(xs, |xs| / 2);
    if |xs| % 2 == 0 {
      SortedMetricRanks(xs, |xs| / 2 - 1);
      var a, b := Sort(MetricLe, xs)[|xs| / 2 - 1], Sort(MetricLe, xs)[|xs| / 2];
      assert MetricHalves(xs, |xs| / 2 - 1, a, b, Median(xs));
    }
  }

  /** The percentile lies between the values of the two ranks around position q * (n - 1), at the fraction of
      the way that the position is. */
  ghost predicate IsPercentile(xs: seq<real>, q: real, v: real) {
    IsAtPosition(xs, (|xs| - 1) as real * q, v)
  }

  ghost predicate IsAtPosition(xs: seq<real>, pos: real, v: real) {
    exists a, b, j: nat :: Straddles(xs, pos, j, a, b, v)
  }

  ghost predicate Straddles(xs: seq<real>, pos: real, j: nat, a: real, b: real, v: real) {
    && Ranks(xs, j, a) && j as real <= pos < j as real + 1.0
    && (if pos == j as real then b == a else Ranks(xs, j + 1, b))
    && v == a + (b - a) * (pos - j as real)
  }

  lemma PercentileIsPercentile(xs: seq<real>, q: real)
    requires |xs| > 0 && 0.0 <= q <= 1.0
    ensures Percentile(xs, q).Finite? && IsPercentile(xs, q, Percentile(xs, q).value)
  {
    hide At, IsAtPosition, Position;
    var pos := (|xs| - 1) as real * q;
    PositionIs(|xs| - 1, q);
    AtStraddles(xs, pos, q);
  }

  lemma AtStraddles(xs: seq<real>, pos: real, q: real)
    requires |xs| > 0 && 0.0 <= q <= 1.0 && pos == Position(|xs| - 1, q)
    ensures IsAtPosition(xs, pos, At(Sort(RealLe, xs), q))
  {
    hide Ranks, Position, Sort, Between, Straddles;
    var ys := Sort(RealLe, xs);
    PositionBounds(|xs| - 1, q);
    var j: nat := pos.Floor;
    SortedRanks(xs, j);
    if pos != j as real {
      SortedRanks(xs, j + 1);
      StraddlesBetween(xs, pos, j, ys[j], ys[j + 1]);
    } else {
      StraddlesAt(xs, pos, j, ys[j]);
    }
  }

  lemma StraddlesBetween(xs: seq<real>, pos: real, j: nat, a: real, b: real)
    requires Ranks(xs, j, a) && Ranks(xs, j + 1, b) && j as real < pos < j as real + 1.0
    ensures Straddles(xs, pos, j, a, b, Between(a, b, pos - j as real))
  {
  }

  lemma StraddlesAt(xs: seq<real>, pos: real, j: nat, a: real)
    requires Ranks(xs, j, a) && pos == j as real
    ensures Straddles(xs, pos, j, a, a, a)
  {
  }

  lemma PositionIs(last: nat, q: real)
    ensures Position(last, q) == last as real * q
  {
  }

  lemma LeastIsLeast(xs: seq<real>)
    requires |xs| > 0
    ensures Least(xs) in xs && forall x :: x in xs ==> Least(xs) <= x
  {
    if |xs| > 1 {
      LeastIsLeast(xs[..|xs| - 1]);
      assert xs == xs[..|xs| - 1] + [xs[|xs| - 1]];
    }
  }

  lemma GreatestIsGreatest(xs: seq<real>)
    requires |xs| > 0
    ensures Greatest(xs) in xs && forall x :: x in xs ==> Greatest(xs) >= x
  {
    if |xs| > 1 {
      GreatestIsGreatest(xs[..|xs| - 1]);
      assert xs == xs[..|xs| - 1] + [xs[|xs| - 1]];
    }
  }

  /** Equal values have their own value as mean, and the mean moves by a value's change over the number of
      values: these two facts determine it. */
  lemma MeanMoves(xs: seq<real>, i: nat, v: real)
    requires i < |xs|
    ensures Mean(xs[i := v]) == Mean(xs) + (v - xs[i]) / |xs| as real
  {
    SumRealMoves(xs, i, v);
    var s, n := SumReal(xs), |xs| as real;
    DivideSum(s, v - xs[i], n);
  }

  lemma DivideSum(a: real, b: real, n: real)
    requires n > 0.0
    ensures (a + b) / n == a / n + b / n
  {
    assert n * (a / n) == a && n * (b / n) == b;
    assert n * (a / n + b / n) == a + b;
  }

  lemma MeanOfEqual(xs: seq<real>, v: real)
    requires |xs| > 0 && forall i :: 0 <= i < |xs| ==> xs[i] == v
    ensures Mean(xs) == v
  {
    SumOfEqual(xs, v);
    assert (v * |xs| as real) / |xs| as real == v;
  }

  lemma {:induction false} SumOfEqual(xs: seq<real>, v: real)
    requires forall i :: 0 <= i < |xs| ==> xs[i] == v
    ensures SumReal(xs) == v * |xs| as real
  {
    if |xs| > 0 {
      SumOfEqual(xs[..|xs| - 1], v);
      assert v * (|xs| - 1) as real + v == v * |xs| as real;
    }
  }

  lemma MeanOfThree(xs: seq<real>)
    requires |xs| == 3
    ensures Mean(xs) == (xs[0] + xs[1] + xs[2]) / 3.0
  {
    assert xs[..2][..1] == [xs[0]] && [xs[0]][..0] == [];
    assert SumReal(xs[..2][..1]) == xs[0] && SumReal(xs[..2]) == xs[0] + xs[1];
  }
}
