/** The auditing half: an arm's evidence is recomputed from its samples alone, and the
    decision with it. */
module BenchAudit {
  import opened Prelude
  import opened SortedLists
  import opened BenchStats
  import opened BenchRunner

  const ROUNDS: nat := 3
  const REQUESTS: nat := 6
  const GATE_GAIN: real := 0.10
  const GATE_RATIO: real := 1.25
  const TOLERANCE: real := 0.000000001
  const WALL_SLACK: real := 0.000001

  function Abs(x: real): real { if x < 0.0 then -x else x }

  /** math.isclose with both tolerances at 1e-9. */
  predicate IsClose(a: real, b: real) {
    || Abs(a - b) <= TOLERANCE * Abs(a)
    || Abs(a - b) <= TOLERANCE * Abs(b)
    || Abs(a - b) <= TOLERANCE
  }

  /** equal_number: an infinite claim is refused. */
  predicate Equals(actual: Metric, expected: real) { actual.Finite? && IsClose(actual.value, expected) }

  lemma EqualsItself(x: real)
    ensures Equals(Finite(x), x) && IsClose(x, x)
  {
  }

  predicate SampleOk(row: Row, wall: real) {
    && row.sample.Passed?
    && row.sample.elapsed > 0.0 && row.sample.elapsed <= wall + WALL_SLACK
    && row.sample.completion >= 1 && row.sample.prompt >= 0 && row.sample.textLen >= 1
  }

  datatype Values = Values(outputRate: real, totalRate: real, meanE2e: real, p95E2e: real)

  function Latencies(samples: seq<Row>): seq<real> { MapSeq(Milli, Gather(Elapsed, samples)) }

  function Recompute(samples: seq<Row>, wall: real): Values
    requires wall > 0.0 && |Latencies(samples)| >= 2
  {
    var output, prompt := SumInt(Gather(Completion, samples)), SumInt(Gather(Prompt, samples));
    Values(output as real / wall, (output + prompt) as real / wall, Mean(Latencies(samples)),
           Quantiles(Latencies(samples)).value[94])
  }

  function IndexOf(row: Row): int { row.index }

  predicate ClaimsMatch(rec: Round, v: Values) {
    && IsClose(rec.outputRate, v.outputRate) && IsClose(rec.totalRate, v.totalRate)
    && Equals(rec.meanE2e, v.meanE2e) && Equals(rec.p95E2e, v.p95E2e)
  }

  predicate CountsMatch(rec: Round) {
    var output, prompt := SumInt(Gather(Completion, rec.samples)), SumInt(Gather(Prompt, rec.samples));
    && rec.requests == REQUESTS && rec.passed == REQUESTS && rec.failed == 0
    && rec.outputTokens == output && rec.totalTokens == output + prompt && rec.errors == []
  }

  predicate IndexesComplete(k: nat, samples: seq<Row>) {
    Sort(IntLe, MapSeq(IndexOf, samples)) == seq(REQUESTS, i => k * REQUESTS + i)
  }

  predicate SamplesOk(k: nat, concurrency: nat, rec: Round) {
    && rec.round == k + 1 && rec.concurrency == concurrency
    && |rec.samples| == REQUESTS && rec.wall > 0.0
    && forall i :: 0 <= i < |rec.samples| ==> SampleOk(rec.samples[i], rec.wall)
  }

  lemma {:induction false} GatherPassed(rows: seq<Row>, wall: real)
    requires forall i :: 0 <= i < |rows| ==> SampleOk(rows[i], wall)
    ensures |Gather(Elapsed, rows)| == |Gather(Ttft, rows)| == |rows| && Gather(Error, rows) == []
    ensures AllPositive(Gather(Elapsed, rows))
    ensures SumInt(Gather(Completion, rows)) >= |rows| && SumInt(Gather(Prompt, rows)) >= 0
  {
    if |rows| > 0 {
      var m := |rows| - 1;
      GatherPassed(rows[..m], wall);
      var c, p := Gather(Completion, rows), Gather(Prompt, rows);
      assert SampleOk(rows[m], wall);
      assert c[..|c| - 1] == Gather(Completion, rows[..m]);
      assert p[..|p| - 1] == Gather(Prompt, rows[..m]);
    }
  }

  /** Everything replay_arm requires of one round record. */
  predicate RoundOk(k: nat, concurrency: nat, rec: Round) {
    && SamplesOk(k, concurrency, rec)
    && IndexesComplete(k, rec.samples)
    && CountsMatch(rec)
    && (GatherPassed(rec.samples, rec.wall); ClaimsMatch(rec, Recompute(rec.samples, rec.wall)))
  }

  function ValuesOf(k: nat, concurrency: nat, rec: Round): Values
    requires RoundOk(k, concurrency, rec)
  {
    GatherPassed(rec.samples, rec.wall);
    Recompute(rec.samples, rec.wall)
  }

  datatype Rebuilt = Rebuilt(
    medianOutput: real, meanOutput: real, minOutput: real, maxOutput: real, medianTotal: real,
    medianMean: real, medianP95: real)

  function Rebuild(values: seq<Values>): Rebuilt
    requires |values| > 0
  {
    var rates := MapSeq((v: Values) => v.outputRate, values);
    Rebuilt(MedianReal(rates), Mean(rates), Least(rates), Greatest(rates),
            MedianReal(MapSeq((v: Values) => v.totalRate, values)),
            MedianReal(MapSeq((v: Values) => v.meanE2e, values)),
            MedianReal(MapSeq((v: Values) => v.p95E2e, values)))
  }

  predicate AggregateMatches(a: Aggregate, r: Rebuilt) {
    && a.roundCount == ROUNDS && a.requests == ROUNDS * REQUESTS && a.passed == ROUNDS * REQUESTS && a.failed == 0
    && IsClose(a.medianOutput, r.medianOutput) && IsClose(a.meanOutput, r.meanOutput)
    && IsClose(a.minOutput, r.minOutput) && IsClose(a.maxOutput, r.maxOutput)
    && IsClose(a.medianTotal, r.medianTotal)
    && Equals(a.medianMean, r.medianMean) && Equals(a.medianP95, r.medianP95)
  }

  predicate RoundsOk(concurrency: nat, rounds: seq<Round>) {
    |rounds| == ROUNDS && forall k :: 0 <= k < ROUNDS ==> RoundOk(k, concurrency, rounds[k])
  }

  function AllValues(concurrency: nat, rounds: seq<Round>): seq<Values>
    requires RoundsOk(concurrency, rounds)
  {
    seq(ROUNDS, k requires 0 <= k < ROUNDS => ValuesOf(k, concurrency, rounds[k]))
  }

  /** What replay_arm accepts, and what it returns. */
  predicate Accepts(concurrency: nat, bundle: Bundle) {
    RoundsOk(concurrency, bundle.rounds)
    && AggregateMatches(bundle.aggregate, Rebuild(AllValues(concurrency, bundle.rounds)))
  }

  // ----- the loops -----

  /** The sample loop: stops at the first sample that fails a check. */
  method ReplaySamples(samples: seq<Row>, wall: real)
    returns (ok: bool, latencies: seq<real>, indexes: seq<int>, output: int, prompt: int)
    ensures ok <==> forall i :: 0 <= i < |samples| ==> SampleOk(samples[i], wall)
    ensures ok ==> Collected(samples, latencies, indexes, output, prompt)
  {
    hide SampleOk, Collected;
    ok, latencies, indexes, output, prompt := false, [], [], 0, 0;
    var i := 0;
    CollectNone();
    assert samples[..i] == [];
    while i < |samples|
      invariant 0 <= i <= |samples|
      invariant forall h :: 0 <= h < i ==> SampleOk(samples[h], wall)
      invariant Collected(samples[..i], latencies, indexes, output, prompt)
    {
      var row := samples[i];
      if !SampleOk(row, wall) { return; }
      assert samples[..i + 1][..i] == samples[..i];
      IsPassed(row, wall);
      CollectOne(samples[..i + 1], row, wall, latencies, indexes, output, prompt);
      indexes := indexes + [row.index];
      latencies := latencies + [row.sample.elapsed * 1000.0];
      output, prompt := output + row.sample.completion, prompt + row.sample.prompt;
      i := i + 1;
    }
    assert samples[..i] == samples;
    ok := true;
  }

  method ReplayRound(k: nat, concurrency: nat, rec: Round) returns (v: Option<Values>)
    ensures v.Some? <==> RoundOk(k, concurrency, rec)
    ensures v.Some? ==> v.value == ValuesOf(k, concurrency, rec)
  {
    hide SampleOk, ClaimsMatch, Milli, Sort, Gather, Mean, SumInt;
    v := None;
    if rec.round != k + 1 || rec.concurrency != concurrency { return; }
    if |rec.samples| != REQUESTS || rec.wall <= 0.0 { return; }
    var ok, latencies, indexes, output, prompt := ReplaySamples(rec.samples, rec.wall);
    if !ok { return; }
    GatherPassed(rec.samples, rec.wall);
    if Sort(IntLe, indexes) != seq(REQUESTS, i => k * REQUESTS + i) { return; }
    if rec.requests != REQUESTS || rec.passed != REQUESTS || rec.failed != 0 { return; }
    if rec.outputTokens != output || rec.totalTokens != output + prompt || rec.errors != [] { return; }
    var values := Values(output as real / rec.wall, (output + prompt) as real / rec.wall, Mean(latencies),
                         Quantiles(latencies).value[94]);
    if !ClaimsMatch(rec, values) { return; }
    v := Some(values);
  }

  lemma IsPassed(row: Row, wall: real)
    requires SampleOk(row, wall)
    ensures row.sample.Passed?
  {
  }

  predicate Collected(rows: seq<Row>, latencies: seq<real>, indexes: seq<int>, output: int, prompt: int) {
    && latencies == Latencies(rows) && indexes == MapSeq(IndexOf, rows)
    && output == SumInt(Gather(Completion, rows)) && prompt == SumInt(Gather(Prompt, rows))
  }

  lemma CollectNone()
    ensures Collected([], [], [], 0, 0)
  {
  }

  lemma CollectOne(rows: seq<Row>, row: Row, wall: real, latencies: seq<real>, indexes: seq<int>,
                   output: int, prompt: int)
    requires |rows| > 0 && rows[|rows| - 1] == row && SampleOk(row, wall)
    requires Collected(rows[..|rows| - 1], latencies, indexes, output, prompt)
    ensures row.sample.Passed?
    ensures Collected(rows, latencies + [row.sample.elapsed * 1000.0], indexes + [row.index],
                      output + row.sample.completion, prompt + row.sample.prompt)
  {
    var m := |rows| - 1;
    var c, p := Gather(Completion, rows), Gather(Prompt, rows);
    assert c[..|c| - 1] == Gather(Completion, rows[..m]);
    assert p[..|p| - 1] == Gather(Prompt, rows[..m]);
  }

  method ReplayArm(bundle: Bundle, concurrency: nat) returns (rebuilt: Option<Rebuilt>)
    ensures rebuilt.Some? <==> Accepts(concurrency, bundle)
    ensures rebuilt.Some? ==> rebuilt.value == Rebuild(AllValues(concurrency, bundle.rounds))
  {
    hide RoundOk, ValuesOf, Rebuild, AggregateMatches;
    rebuilt := None;
    if |bundle.rounds| != ROUNDS { return; }
    var computed: seq<Values> := [];
    while |computed| < ROUNDS
      invariant |computed| <= ROUNDS
      invariant forall k :: 0 <= k < |computed| ==>
        RoundOk(k, concurrency, bundle.rounds[k]) && computed[k] == ValuesOf(k, concurrency, bundle.rounds[k])
    {
      var v := ReplayRound(|computed|, concurrency, bundle.rounds[|computed|]);
      if v.None? { return; }
      computed := computed + [v.value];
    }
    assert computed == AllValues(concurrency, bundle.rounds);
    var r := Rebuild(computed);
    if !AggregateMatches(bundle.aggregate, r) { return; }
    rebuilt := Some(r);
  }

  // ----- the decision, recomputed -----

  function Gate(baseline: Rebuilt, candidate: Rebuilt): Decision
    requires baseline.medianOutput != 0.0 && baseline.medianP95 != 0.0
  {
    var gain := candidate.medianOutput / baseline.medianOutput - 1.0;
    var ratio := candidate.medianP95 / baseline.medianP95;
    Gated(gain >= GATE_GAIN && ratio <= GATE_RATIO, gain, ratio)
  }

  lemma LatenciesPositive(samples: seq<Row>, wall: real)
    requires forall i :: 0 <= i < |samples| ==> SampleOk(samples[i], wall)
    ensures |Latencies(samples)| == |samples| && AllPositive(Latencies(samples))
  {
    hide SampleOk;
    GatherPassed(samples, wall);
  }

  lemma P95Positive(v: seq<real>)
    requires |v| >= 2 && AllPositive(v)
    ensures Quantiles(v).Some? && |Quantiles(v).value| == 99 && Quantiles(v).value[94] > 0.0
  {
    hide Quantiles, Percentile;
    PercentileIsQuantile(v, 95);
    PercentilePositive(v, 95 as real / 100.0);
  }

  lemma QuotientPositive(n: int, wall: real)
    requires n > 0 && wall > 0.0
    ensures n as real / wall > 0.0
  {
  }

  lemma ValuesPositive(k: nat, concurrency: nat, rec: Round)
    requires RoundOk(k, concurrency, rec)
    ensures ValuesOf(k, concurrency, rec).outputRate > 0.0 && ValuesOf(k, concurrency, rec).p95E2e > 0.0
  {
    hide SampleOk, ClaimsMatch, Quantiles, IndexesComplete;
    GatherPassed(rec.samples, rec.wall);
    LatenciesPositive(rec.samples, rec.wall);
    P95Positive(Latencies(rec.samples));
    QuotientPositive(SumInt(Gather(Completion, rec.samples)), rec.wall);
  }

  /** Whatever arm was accepted, honest or not, its medians are positive: the recomputed gain
      and ratio never divide by zero. */
  lemma AcceptedIsPositive(concurrency: nat, bundle: Bundle)
    requires Accepts(concurrency, bundle)
    ensures Rebuild(AllValues(concurrency, bundle.rounds)).medianOutput > 0.0
    ensures Rebuild(AllValues(concurrency, bundle.rounds)).medianP95 > 0.0
  {
    hide RoundOk, ValuesOf, MedianReal, AggregateMatches, Mean, Least, Greatest;
    var values := AllValues(concurrency, bundle.rounds);
    forall k | 0 <= k < ROUNDS ensures values[k].outputRate > 0.0 && values[k].p95E2e > 0.0 {
      ValuesPositive(k, concurrency, bundle.rounds[k]);
    }
    MedianPositive(MapSeq((v: Values) => v.outputRate, values));
    MedianPositive(MapSeq((v: Values) => v.p95E2e, values));
  }

  // ------------------------------------------------- what an acceptance says

  /** The rebuilt aggregate's medians are medians, its extremes extremes, its mean the rates' sum over three. */
  lemma RebuildMeans(values: seq<Values>)
    requires |values| == 3
    ensures var r := Rebuild(values);
            var rates := MapSeq((v: Values) => v.outputRate, values);
            && IsMedian(rates, r.medianOutput)
            && IsMedian(MapSeq((v: Values) => v.totalRate, values), r.medianTotal)
            && IsMedian(MapSeq((v: Values) => v.meanE2e, values), r.medianMean)
            && IsMedian(MapSeq((v: Values) => v.p95E2e, values), r.medianP95)
            && (r.minOutput in rates && forall x :: x in rates ==> r.minOutput <= x)
            && (r.maxOutput in rates && forall x :: x in rates ==> r.maxOutput >= x)
            && r.meanOutput == (values[0].outputRate + values[1].outputRate + values[2].outputRate) / 3.0
  {
    hide IsMedian, MedianReal, Least, Greatest, Mean;
    var rates := MapSeq((v: Values) => v.outputRate, values);
    MedianRealIsMedian(rates);
    MedianRealIsMedian(MapSeq((v: Values) => v.totalRate, values));
    MedianRealIsMedian(MapSeq((v: Values) => v.meanE2e, values));
    MedianRealIsMedian(MapSeq((v: Values) => v.p95E2e, values));
    LeastIsLeast(rates);
    GreatestIsGreatest(rates);
    MeanOfThree(rates);
  }

  /** Within 1e-9 of the larger magnitude, or of one. */
  predicate Near(a: real, b: real) {
    var d := if a < b then b - a else a - b;
    1000000000.0 * d <= 1.0 || 1000000000.0 * d <= a || 1000000000.0 * d <= -a
    || 1000000000.0 * d <= b || 1000000000.0 * d <= -b
  }

  lemma CloseMeansNear(a: real, b: real)
    ensures IsClose(a, b) <==> Near(a, b)
  {
  }

  /** An accepted round, honest or forged: six samples, all passed and inside the round, numbered as the round's
      own requests; its counts are theirs, and its figures lie within the tolerance of theirs. */
  lemma AcceptedRoundMeans(k: nat, concurrency: nat, rec: Round)
    requires RoundOk(k, concurrency, rec)
    ensures rec.round == k + 1 && rec.concurrency == concurrency && |rec.samples| == 6 && rec.wall > 0.0 && rec.errors == []
    ensures forall i :: 0 <= i < 6 ==>
              var s := rec.samples[i].sample;
              s.Passed? && 0.0 < s.elapsed <= rec.wall + 0.000001 && s.completion >= 1 && s.prompt >= 0 && s.textLen >= 1
    ensures forall x :: 6 * k <= x < 6 * k + 6 ==> HasIndex(rec.samples, x)
    ensures rec.requests == rec.passed == 6 && rec.failed == 0
    ensures rec.outputTokens == SumInt(Gather(Completion, rec.samples))
    ensures rec.totalTokens == rec.outputTokens + SumInt(Gather(Prompt, rec.samples))
    ensures Near(rec.outputRate, rec.outputTokens as real / rec.wall)
    ensures Near(rec.totalRate, rec.totalTokens as real / rec.wall)
    ensures |Gather(Elapsed, rec.samples)| == 6
    ensures rec.meanE2e.Finite? && Near(rec.meanE2e.value, Mean(MapSeq(Milli, Gather(Elapsed, rec.samples))))
    ensures rec.p95E2e.Finite?
            && Near(rec.p95E2e.value, Quantiles(MapSeq(Milli, Gather(Elapsed, rec.samples))).value[94])
  {
    hide Sort, IsClose, Near, Quantiles, Mean;
    GatherPassed(rec.samples, rec.wall);
    IndexesMean(k, rec.samples);
    var v := ValuesOf(k, concurrency, rec);
    CloseMeansNear(rec.outputRate, v.outputRate);
    CloseMeansNear(rec.totalRate, v.totalRate);
    CloseMeansNear(rec.meanE2e.value, v.meanE2e);
    CloseMeansNear(rec.p95E2e.value, v.p95E2e);
    assert forall i :: 0 <= i < 6 ==> SampleOk(rec.samples[i], rec.wall);
  }

  lemma IndexesMean(k: nat, samples: seq<Row>)
    requires IndexesComplete(k, samples) && |samples| == 6
    ensures forall x :: 6 * k <= x < 6 * k + 6 ==> HasIndex(samples, x)
  {
    var indexes := MapSeq(IndexOf, samples);
    SortOrdered(IntLe, indexes);
    forall x | 6 * k <= x < 6 * k + 6 ensures HasIndex(samples, x) {
      SortedMember(IntLe, indexes, x - 6 * k);
      assert Sort(IntLe, indexes)[x - 6 * k] == x;
      var i :| 0 <= i < 6 && indexes[i] == x;
      assert samples[i].index == x;
    }
  }

  predicate HasIndex(samples: seq<Row>, x: int) {
    exists i :: 0 <= i < |samples| && samples[i].index == x
  }

  /** An accepted arm: three accepted rounds in order, and an aggregate within the tolerance of what they rebuild. */
  lemma AcceptedArmMeans(concurrency: nat, bundle: Bundle)
    requires Accepts(concurrency, bundle)
    ensures |bundle.rounds| == 3 && forall k :: 0 <= k < 3 ==> RoundOk(k, concurrency, bundle.rounds[k])
    ensures var a, r := bundle.aggregate, Rebuild(AllValues(concurrency, bundle.rounds));
            && a.roundCount == 3 && a.requests == 18 && a.passed == 18 && a.failed == 0
            && Near(a.medianOutput, r.medianOutput) && Near(a.meanOutput, r.meanOutput)
            && Near(a.minOutput, r.minOutput) && Near(a.maxOutput, r.maxOutput) && Near(a.medianTotal, r.medianTotal)
            && a.medianMean.Finite? && Near(a.medianMean.value, r.medianMean)
            && a.medianP95.Finite? && Near(a.medianP95.value, r.medianP95)
  {
    hide RoundOk, ValuesOf, Rebuild, IsClose, Near;
    var a, r := bundle.aggregate, Rebuild(AllValues(concurrency, bundle.rounds));
    CloseMeansNear(a.medianOutput, r.medianOutput);
    CloseMeansNear(a.meanOutput, r.meanOutput);
    CloseMeansNear(a.minOutput, r.minOutput);
    CloseMeansNear(a.maxOutput, r.maxOutput);
    CloseMeansNear(a.medianTotal, r.medianTotal);
    if a.medianMean.Finite? { CloseMeansNear(a.medianMean.value, r.medianMean); }
    if a.medianP95.Finite? { CloseMeansNear(a.medianP95.value, r.medianP95); }
  }
}
