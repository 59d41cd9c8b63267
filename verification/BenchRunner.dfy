/** The measuring half: one request's verdict, a round of requests that may complete in any
    order, the rounds of an arm, and the keep/reject decision. REQUESTS are answered by an
    arbitrary environment; clock readings are parameters. */
module BenchRunner {
  import opened Prelude
  import opened SortedLists
  import opened BenchStats

  const REQUESTS_PER_ARM: nat := 6
  const MEASUREMENT_ROUNDS: nat := 3
  const MIN_GAIN: real := 0.10
  const MAX_P95_RATIO: real := 1.25

  /** What a streamed request came to. A text is counted as `core` characters once stripped
      and `margin` white space around them. */
  datatype Reply =
    | Raised(reason: string)
    | Answered(core: nat, margin: nat, correct: bool, completion: Option<int>, prompt: Option<int>,
               elapsed: real, ttft: Option<real>)

  datatype Sample =
    | Passed(elapsed: real, ttft: real, completion: int, prompt: int, textLen: int)
    | Failed(error: string)

  function OneRequest(r: Reply): (s: Sample)
    ensures s.Passed? <==>
      && r.Answered? && r.core > 0 && r.correct
      && r.completion.Some? && r.completion.value > 0 && r.prompt.Some? && r.prompt.value >= 0
      && r.ttft.Some? && 0.0 < r.ttft.value <= r.elapsed
    ensures s.Passed? ==> s.elapsed == r.elapsed && s.elapsed > 0.0 && s.textLen >= 1
  {
    match r
    case Raised(reason) => Failed(reason)
    case Answered(core, margin, correct, completion, prompt, elapsed, ttft) =>
      if core == 0 then Failed("empty_or_invalid_content")
      else if !correct then Failed("benchmark_correctness_failed")
      else if completion.None? || completion.value <= 0 then Failed("invalid_completion_tokens")
      else if prompt.None? || prompt.value < 0 then Failed("invalid_prompt_tokens")
      else if elapsed <= 0.0 then Failed("invalid_elapsed_time")
      else if ttft.None? || ttft.value <= 0.0 || ttft.value > elapsed then Failed("invalid_ttft")
      else Passed(elapsed, ttft.value, completion.value, prompt.value, core + margin)
  }

  datatype Row = Row(index: nat, sample: Sample)

  function ByIndex(a: Row, b: Row): bool { a.index <= b.index }

  function Elapsed(r: Row): seq<real> { if r.sample.Passed? then [r.sample.elapsed] else [] }
  function Ttft(r: Row): seq<real> { if r.sample.Passed? then [r.sample.ttft] else [] }
  function Completion(r: Row): seq<int> { if r.sample.Passed? then [r.sample.completion] else [] }
  function Prompt(r: Row): seq<int> { if r.sample.Passed? then [r.sample.prompt] else [] }
  function Error(r: Row): seq<string> { if r.sample.Failed? then [r.sample.error] else [] }

  datatype Round = Round(
    round: nat, concurrency: nat, requests: nat, passed: int, failed: int, wall: real,
    outputTokens: int, totalTokens: int, outputRate: real, totalRate: real,
    meanE2e: Metric, p95E2e: Metric, meanTtft: Metric, p95Ttft: Metric,
    errors: seq<string>, samples: seq<Row>)

  function Rate(tokens: int, wall: real): real { if wall > 0.0 then tokens as real / wall else 0.0 }

  function MeanMs(v: seq<real>): Metric { if |v| > 0 then Finite(Milli(Mean(v))) else Infinite }

  function P95Ms(v: seq<real>): Metric {
    if |v| > 0 then Finite(Milli(Percentile(v, 0.95).value)) else Infinite
  }

  /** The record of a round whose rows were collected in the given order. */
  function RoundOf(k: nat, concurrency: nat, wall: real, rows: seq<Row>): Round {
    var output, prompt := SumInt(Gather(Completion, rows)), SumInt(Gather(Prompt, rows));
    var latencies, ttfts := Gather(Elapsed, rows), Gather(Ttft, rows);
    Round(k + 1, concurrency, |rows|, |latencies|, |rows| - |latencies|, wall,
          output, output + prompt, Rate(output, wall), Rate(output + prompt, wall),
          MeanMs(latencies), P95Ms(latencies), MeanMs(ttfts), P95Ms(ttfts),
          Gather(Error, rows), Sort(ByIndex, rows))
  }

  /** The rows in the order the requests were submitted. */
  function Submitted(k: nat, replies: seq<Reply>): (rows: seq<Row>)
    ensures |rows| == |replies|
    ensures forall i :: 0 <= i < |replies| ==> rows[i] == Row(k * REQUESTS_PER_ARM + i, OneRequest(replies[i]))
  {
    seq(|replies|, i requires 0 <= i < |replies| => Row(k * REQUESTS_PER_ARM + i, OneRequest(replies[i])))
  }

  /** The record says the same whatever the completion order, but for the order of the errors. */
  ghost predicate Measured(rec: Round, k: nat, concurrency: nat, wall: real, replies: seq<Reply>) {
    var ideal := RoundOf(k, concurrency, wall, Submitted(k, replies));
    && rec.(errors := []) == ideal.(errors := [])
    && multiset(rec.errors) == multiset(ideal.errors)
    && rec.samples == Submitted(k, replies)
  }

  lemma SubmittedSorted(k: nat, replies: seq<Reply>, rows: seq<Row>)
    requires multiset(rows) == multiset(Submitted(k, replies))
    ensures Sort(ByIndex, rows) == Submitted(k, replies)
  {
    hide OneRequest, Sort;
    var ideal := Submitted(k, replies);
    SortOrdered(ByIndex, rows);
    assert Ordered(ByIndex, ideal);
    OrderedUnique(ByIndex, ideal, Sort(ByIndex, rows));
  }

  lemma MetricsKeepBags(v: seq<real>, w: seq<real>)
    requires multiset(v) == multiset(w)
    ensures |v| == |w| && MeanMs(v) == MeanMs(w) && P95Ms(v) == P95Ms(w)
  {
    SameSize(v, w);
    SumRealKeepsBags(v, w);
    PercentileKeepsBags(v, w, 0.95);
  }

  lemma TokensKeepBags(rows: seq<Row>, others: seq<Row>)
    requires multiset(rows) == multiset(others)
    ensures SumInt(Gather(Completion, rows)) == SumInt(Gather(Completion, others))
    ensures SumInt(Gather(Prompt, rows)) == SumInt(Gather(Prompt, others))
  {
    GatherKeepsBags(Completion, rows, others);
    GatherKeepsBags(Prompt, rows, others);
    SumIntKeepsBags(Gather(Completion, rows), Gather(Completion, others));
    SumIntKeepsBags(Gather(Prompt, rows), Gather(Prompt, others));
  }

  lemma LatenciesKeepBags(rows: seq<Row>, others: seq<Row>)
    requires multiset(rows) == multiset(others)
    ensures |Gather(Elapsed, rows)| == |Gather(Elapsed, others)|
    ensures MeanMs(Gather(Elapsed, rows)) == MeanMs(Gather(Elapsed, others))
    ensures P95Ms(Gather(Elapsed, rows)) == P95Ms(Gather(Elapsed, others))
    ensures MeanMs(Gather(Ttft, rows)) == MeanMs(Gather(Ttft, others))
    ensures P95Ms(Gather(Ttft, rows)) == P95Ms(Gather(Ttft, others))
  {
    hide MeanMs, P95Ms;
    GatherKeepsBags(Elapsed, rows, others);
    GatherKeepsBags(Ttft, rows, others);
    MetricsKeepBags(Gather(Elapsed, rows), Gather(Elapsed, others));
    MetricsKeepBags(Gather(Ttft, rows), Gather(Ttft, others));
  }

  lemma CompletionOrderIrrelevant(k: nat, concurrency: nat, wall: real, replies: seq<Reply>, rows: seq<Row>)
    requires multiset(rows) == multiset(Submitted(k, replies))
    ensures Measured(RoundOf(k, concurrency, wall, rows), k, concurrency, wall, replies)
  {
    hide MeanMs, P95Ms, OneRequest, Rate, Gather, Sort, SumInt;
    var ideal := Submitted(k, replies);
    SameSize(rows, ideal);
    TokensKeepBags(rows, ideal);
    LatenciesKeepBags(rows, ideal);
    GatherKeepsBags(Error, rows, ideal);
    SubmittedSorted(k, replies, rows);
    SubmittedSorted(k, replies, ideal);
  }

  function Range(n: nat): (r: seq<nat>)
    ensures |r| == n && forall i :: 0 <= i < n ==> r[i] == i
  {
    seq(n, i requires 0 <= i < n => i)
  }

  function Single<S, T>(f: S -> T): S -> seq<T> { x => [f(x)] }

  lemma {:induction false} GatherSingles<S, T>(f: S -> T, xs: seq<S>)
    ensures Gather(Single(f), xs) == MapSeq(f, xs)
  {
    if |xs| > 0 {
      var m := |xs| - 1;
      GatherSingles(f, xs[..m]);
      assert MapSeq(f, xs) == MapSeq(f, xs[..m]) + [f(xs[m])];
    }
  }

  lemma MapKeepsBags<S, T>(f: S -> T, xs: seq<S>, ys: seq<S>)
    requires multiset(xs) == multiset(ys)
    ensures multiset(MapSeq(f, xs)) == multiset(MapSeq(f, ys))
  {
    GatherKeepsBags(Single(f), xs, ys);
    GatherSingles(f, xs);
    GatherSingles(f, ys);
  }

  function RowAt(k: nat, replies: seq<Reply>, i: nat): Row {
    Row(k * REQUESTS_PER_ARM + i, OneRequest(if i < |replies| then replies[i] else Raised("")))
  }

  predicate Permutes(order: seq<nat>, n: nat) { multiset(order) == multiset(Range(n)) }

  /** `order` is the order in which as_completed hands back the futures. */
  method Benchmark(k: nat, concurrency: nat, wall: real, replies: seq<Reply>, order: seq<nat>) returns (rec: Round)
    requires |replies| == REQUESTS_PER_ARM && Permutes(order, REQUESTS_PER_ARM)
    ensures Measured(rec, k, concurrency, wall, replies)
  {
    hide OneRequest, RoundOf, Measured, RowAt, Submitted;
    var rows: seq<Row> := [];
    ghost var rowAt := (i: nat) => RowAt(k, replies, i);
    InRange(order, REQUESTS_PER_ARM);
    var done := 0;
    while done < |order|
      invariant 0 <= done <= |order|
      invariant rows == MapSeq(rowAt, order[..done])
    {
      RowOfRequest(k, replies, order[done]);
      rows := rows + [Row(k * REQUESTS_PER_ARM + order[done], OneRequest(replies[order[done]]))];
      done := done + 1;
    }
    assert order[..done] == order;
    RowsPermuted(k, replies, order, rows);
    CompletionOrderIrrelevant(k, concurrency, wall, replies, rows);
    rec := RoundOf(k, concurrency, wall, rows);
  }

  lemma InRange(order: seq<nat>, n: nat)
    requires Permutes(order, n)
    ensures |order| == n && forall i :: 0 <= i < |order| ==> order[i] < n
  {
    SameSize(order, Range(n));
    forall i | 0 <= i < |order| ensures order[i] < n {
      InBag(order, i);
      assert order[i] in Range(n);
    }
  }

  lemma RowOfRequest(k: nat, replies: seq<Reply>, i: nat)
    requires i < |replies|
    ensures RowAt(k, replies, i) == Row(k * REQUESTS_PER_ARM + i, OneRequest(replies[i]))
  {
  }

  lemma RowsPermuted(k: nat, replies: seq<Reply>, order: seq<nat>, rows: seq<Row>)
    requires |replies| == REQUESTS_PER_ARM && Permutes(order, REQUESTS_PER_ARM)
    requires rows == MapSeq((i: nat) => RowAt(k, replies, i), order)
    ensures multiset(rows) == multiset(Submitted(k, replies))
  {
    hide OneRequest;
    var rowAt := (i: nat) => RowAt(k, replies, i);
    MapKeepsBags(rowAt, order, Range(REQUESTS_PER_ARM));
    assert MapSeq(rowAt, Range(REQUESTS_PER_ARM)) == Submitted(k, replies);
  }

  // ----- the rounds of an arm -----

  datatype Aggregate = Aggregate(
    roundCount: nat, requests: int, passed: int, failed: int,
    medianOutput: real, meanOutput: real, minOutput: real, maxOutput: real, medianTotal: real,
    medianMean: Metric, medianP95: Metric, medianMeanTtft: Metric, medianP95Ttft: Metric)

  datatype Bundle = Bundle(rounds: seq<Round>, aggregate: Aggregate)

  /** None is the ValueError for no rounds. */
  function AggregateRounds(rounds: seq<Round>): Option<Aggregate> {
    if |rounds| == 0 then None
    else
      var rates := MapSeq((r: Round) => r.outputRate, rounds);
      Some(Aggregate(
        |rounds|,
        SumInt(MapSeq((r: Round) => r.requests, rounds)),
        SumInt(MapSeq((r: Round) => r.passed, rounds)),
        SumInt(MapSeq((r: Round) => r.failed, rounds)),
        MedianReal(rates), Mean(rates), Least(rates), Greatest(rates),
        MedianReal(MapSeq((r: Round) => r.totalRate, rounds)),
        Median(MapSeq((r: Round) => r.meanE2e, rounds)),
        Median(MapSeq((r: Round) => r.p95E2e, rounds)),
        Median(MapSeq((r: Round) => r.meanTtft, rounds)),
        Median(MapSeq((r: Round) => r.p95Ttft, rounds))))
  }

  /** One arm's inputs: the wall time and the replies of each round. */
  datatype Arm = Arm(walls: seq<real>, replies: seq<seq<Reply>>)

  ghost predicate IsArm(arm: Arm) {
    && |arm.walls| == |arm.replies| == MEASUREMENT_ROUNDS
    && forall k :: 0 <= k < MEASUREMENT_ROUNDS ==> |arm.replies[k]| == REQUESTS_PER_ARM
  }

  ghost predicate MeasuredArm(bundle: Bundle, concurrency: nat, arm: Arm) {
    && IsArm(arm)
    && |bundle.rounds| == MEASUREMENT_ROUNDS
    && (forall k :: 0 <= k < MEASUREMENT_ROUNDS ==>
          Measured(bundle.rounds[k], k, concurrency, arm.walls[k], arm.replies[k]))
    && AggregateRounds(bundle.rounds) == Some(bundle.aggregate)
  }

  method BenchmarkRounds(concurrency: nat, arm: Arm, orders: seq<seq<nat>>) returns (bundle: Bundle)
    requires IsArm(arm) && |orders| == MEASUREMENT_ROUNDS
    requires forall k :: 0 <= k < MEASUREMENT_ROUNDS ==> Permutes(orders[k], REQUESTS_PER_ARM)
    ensures MeasuredArm(bundle, concurrency, arm)
  {
    hide Measured, Permutes;
    var raw: seq<Round> := [];
    while |raw| < MEASUREMENT_ROUNDS
      invariant |raw| <= MEASUREMENT_ROUNDS
      invariant forall k :: 0 <= k < |raw| ==> Measured(raw[k], k, concurrency, arm.walls[k], arm.replies[k])
    {
      var k := |raw|;
      var rec := Benchmark(k, concurrency, arm.walls[k], arm.replies[k], orders[k]);
      raw := raw + [rec];
    }
    bundle := Bundle(raw, AggregateRounds(raw).value);
  }

  // ----- the decision -----

  datatype Decision =
    | Refused(reason: string)
    | Gated(keep: bool, gain: real, ratio: real)

  predicate Keep(d: Decision) { d.Gated? && d.keep }

  function ArmFault(a: Aggregate): Option<string> {
    if a.requests < 0 || a.passed < 0 || a.failed < 0 then Some("invalid_counts")
    else if a.failed != 0 then Some("request_failure")
    else if a.roundCount != MEASUREMENT_ROUNDS || a.requests != MEASUREMENT_ROUNDS * REQUESTS_PER_ARM
            || a.passed + a.failed != a.requests then Some("incomplete_measurements")
    else if a.medianOutput <= 0.0 then Some("invalid_metric")
    else if a.medianP95.Infinite? || a.medianP95.value <= 0.0 then Some("invalid_metric")
    else if a.medianP95Ttft.Infinite? || a.medianP95Ttft.value <= 0.0 then Some("invalid_metric")
    else None
  }

  function Verdict(baseline: Aggregate, candidate: Aggregate): Decision {
    if ArmFault(baseline).Some? then Refused(ArmFault(baseline).value)
    else if ArmFault(candidate).Some? then Refused(ArmFault(candidate).value)
    else
      var gain := candidate.medianOutput / baseline.medianOutput - 1.0;
      var ratio := candidate.medianP95.value / baseline.medianP95.value;
      Gated(gain >= MIN_GAIN && ratio <= MAX_P95_RATIO, gain, ratio)
  }

  /** What an arm's aggregate says of its rounds: medians are medians, extremes are extremes, and the mean is the
      rounds' sum over their number. */
  lemma AggregateMeans(rounds: seq<Round>)
    requires |rounds| > 0
    ensures AggregateRounds(rounds).Some?
    ensures var a := AggregateRounds(rounds).value;
            var rates := MapSeq((r: Round) => r.outputRate, rounds);
            && IsMedian(rates, a.medianOutput)
            && IsMedian(MapSeq((r: Round) => r.totalRate, rounds), a.medianTotal)
            && IsMetricMedian(MapSeq((r: Round) => r.meanE2e, rounds), a.medianMean)
            && IsMetricMedian(MapSeq((r: Round) => r.p95E2e, rounds), a.medianP95)
            && IsMetricMedian(MapSeq((r: Round) => r.meanTtft, rounds), a.medianMeanTtft)
            && IsMetricMedian(MapSeq((r: Round) => r.p95Ttft, rounds), a.medianP95Ttft)
            && (a.minOutput in rates && forall x :: x in rates ==> a.minOutput <= x)
            && (a.maxOutput in rates && forall x :: x in rates ==> a.maxOutput >= x)
            && (|rounds| == 3 ==> a.meanOutput == (rounds[0].outputRate + rounds[1].outputRate + rounds[2].outputRate) / 3.0)
  {
    hide IsMedian, IsMetricMedian, Median, MedianReal, Least, Greatest, Mean, SumInt;
    var rates := MapSeq((r: Round) => r.outputRate, rounds);
    MedianRealIsMedian(rates);
    MedianRealIsMedian(MapSeq((r: Round) => r.totalRate, rounds));
    MedianIsMedian(MapSeq((r: Round) => r.meanE2e, rounds));
    MedianIsMedian(MapSeq((r: Round) => r.p95E2e, rounds));
    MedianIsMedian(MapSeq((r: Round) => r.meanTtft, rounds));
    MedianIsMedian(MapSeq((r: Round) => r.p95Ttft, rounds));
    LeastIsLeast(rates);
    GreatestIsGreatest(rates);
    if |rounds| == 3 { MeanOfThree(rates); }
  }

  /** KEEP, said without quotients: nothing failed or is missing on either side, the candidate's median throughput
      is at least 11/10 of the baseline's, and its median p95 at most 5/4 of the baseline's. */
  lemma KeepMeans(b: Aggregate, c: Aggregate)
    ensures Keep(Verdict(b, c)) <==>
      && Sound(b) && Sound(c)
      && 10.0 * c.medianOutput >= 11.0 * b.medianOutput && 4.0 * c.medianP95.value <= 5.0 * b.medianP95.value
  {
    if ArmFault(b).None? && ArmFault(c).None? {
      QuotientAtLeast(c.medianOutput, b.medianOutput);
      QuotientAtMost(c.medianP95.value, b.medianP95.value);
    }
  }

  /** Eighteen requests in three rounds, all passed, with figures. */
  predicate Sound(a: Aggregate) {
    && a.roundCount == 3 && a.requests == 18 && a.passed == 18 && a.failed == 0
    && a.medianOutput > 0.0
    && a.medianP95.Finite? && a.medianP95.value > 0.0 && a.medianP95Ttft.Finite? && a.medianP95Ttft.value > 0.0
  }

  lemma QuotientAtLeast(x: real, y: real)
    requires y > 0.0
    ensures x / y - 1.0 >= 0.10 <==> 10.0 * x >= 11.0 * y
  {
    var r := x / y;
    assert x == r * y;
    if r >= 1.1 { assert (r - 1.1) * y >= 0.0; } else { assert (1.1 - r) * y > 0.0; }
  }

  lemma QuotientAtMost(x: real, y: real)
    requires y > 0.0
    ensures x / y <= 1.25 <==> 4.0 * x <= 5.0 * y
  {
    var r := x / y;
    assert x == r * y;
    if r <= 1.25 { assert (1.25 - r) * y >= 0.0; } else { assert (r - 1.25) * y > 0.0; }
  }

  // ---------------------------------------------------- what a record says

  /** Two rounds that differ in one reply: their token counts and the sum behind their mean latency differ by
      that reply's own share, which is none where it did not pass. Rates are tokens over the wall time, and the
      p95 is the 95th percentile of the passed latencies. */
  lemma RoundFollowsReplies(rec: Round, rec': Round, k: nat, concurrency: nat, wall: real, replies: seq<Reply>,
                            i: nat, r: Reply)
    requires i < |replies| && Measured(rec, k, concurrency, wall, replies)
    requires Measured(rec', k, concurrency, wall, replies[i := r])
    ensures rec.requests == |replies| && rec.passed + rec.failed == |replies|
    ensures rec'.passed - rec.passed == Share(r, 1) - Share(replies[i], 1)
    ensures rec'.outputTokens - rec.outputTokens == Share(r, Tokens(r)) - Share(replies[i], Tokens(replies[i]))
    ensures rec'.totalTokens - rec.totalTokens
         == Share(r, Tokens(r) + PromptTokens(r)) - Share(replies[i], Tokens(replies[i]) + PromptTokens(replies[i]))
    ensures LatencySum(rec') - LatencySum(rec) == 1000.0 * (Latency(r) - Latency(replies[i]))
    ensures wall > 0.0 ==> rec.outputRate * wall == rec.outputTokens as real && rec.totalRate * wall == rec.totalTokens as real
  {
    hide OneRequest, Sort, P95Ms, Gather, SumInt, Share, Latency, Tokens, PromptTokens, MeanMs, Rate, SumReal;
    var rows := Submitted(k, replies);
    var row := Row(k * REQUESTS_PER_ARM + i, OneRequest(r));
    assert Submitted(k, replies[i := r]) == rows[i := row];
    SumIntGatherMoves(Completion, rows, i, row);
    SumIntGatherMoves(Prompt, rows, i, row);
    SumRealGatherMoves(Elapsed, rows, i, row);
    RowShares(row, r);
    RowShares(rows[i], replies[i]);
    MeanTimesCount(Gather(Elapsed, rows));
    MeanTimesCount(Gather(Elapsed, rows[i := row]));
    assert rec.meanE2e == MeanMs(Gather(Elapsed, rows)) && rec'.meanE2e == MeanMs(Gather(Elapsed, rows[i := row]));
    RateTimesWall(rec.outputTokens, wall);
    RateTimesWall(rec.totalTokens, wall);
  }

  /** A reply's tokens as the server reported them, and its latency; what it adds if it passed. */
  function Tokens(r: Reply): int { if r.Answered? && r.completion.Some? then r.completion.value else 0 }
  function PromptTokens(r: Reply): int { if r.Answered? && r.prompt.Some? then r.prompt.value else 0 }
  function Share(r: Reply, n: int): int { if OneRequest(r).Passed? then n else 0 }
  function Latency(r: Reply): real { if OneRequest(r).Passed? && r.Answered? then r.elapsed else 0.0 }

  /** Mean latency times the number it was taken over. */
  function LatencySum(rec: Round): real {
    if rec.meanE2e.Finite? then rec.meanE2e.value * rec.passed as real else 0.0
  }

  lemma RowShares(row: Row, r: Reply)
    requires row.sample == OneRequest(r)
    ensures SumInt(Completion(row)) == Share(r, Tokens(r))
    ensures SumInt(Completion(row)) + SumInt(Prompt(row)) == Share(r, Tokens(r) + PromptTokens(r))
    ensures SumReal(Elapsed(row)) == Latency(r) && |Elapsed(row)| == Share(r, 1)
  {
  }

  lemma MeanTimesCount(v: seq<real>)
    ensures MeanMs(v).Finite? <==> |v| > 0
    ensures |v| > 0 ==> MeanMs(v).value * |v| as real == 1000.0 * SumReal(v)
    ensures |v| == 0 ==> SumReal(v) == 0.0
  {
    if |v| > 0 {
      var s, n := SumReal(v), |v| as real;
      assert (s / n) * n == s;
      assert ((s / n) * 1000.0) * n == 1000.0 * ((s / n) * n);
    }
  }

  lemma RateTimesWall(tokens: int, wall: real)
    ensures wall > 0.0 ==> Rate(tokens, wall) * wall == tokens as real
  {
  }

  /** A round in which nothing passed has no tokens and no figures. */
  lemma {:induction false} NothingMeasured(rec: Round, k: nat, concurrency: nat, wall: real, replies: seq<Reply>)
    requires Measured(rec, k, concurrency, wall, replies)
    requires forall i :: 0 <= i < |replies| ==> OneRequest(replies[i]).Failed?
    ensures rec.passed == 0 && rec.outputTokens == 0 && rec.totalTokens == 0
    ensures rec.meanE2e.Infinite? && rec.p95E2e.Infinite? && rec.meanTtft.Infinite? && rec.p95Ttft.Infinite?
  {
    hide OneRequest, Sort;
    NothingGathered(Submitted(k, replies));
  }

  lemma {:induction false} NothingGathered(rows: seq<Row>)
    requires forall i :: 0 <= i < |rows| ==> rows[i].sample.Failed?
    ensures Gather(Completion, rows) == [] && Gather(Prompt, rows) == []
    ensures Gather(Elapsed, rows) == [] && Gather(Ttft, rows) == []
  {
    if |rows| > 0 { NothingGathered(rows[..|rows| - 1]); }
  }

  /** The p95 figures are 95th percentiles, in milliseconds, of what was gathered. */
  lemma P95MsMeans(v: seq<real>)
    ensures |v| > 0 ==> P95Ms(v).Finite? && IsPercentile(v, 0.95, P95Ms(v).value / 1000.0)
  {
    hide At;
    if |v| > 0 {
      PercentileIsPercentile(v, 0.95);
      assert P95Ms(v).value / 1000.0 == Percentile(v, 0.95).value;
    }
  }

  function ElapsedTimes(replies: seq<Reply>): seq<real>
    requires forall i :: 0 <= i < |replies| ==> OneRequest(replies[i]).Passed?
  {
    seq(|replies|, i requires 0 <= i < |replies| => (assert OneRequest(replies[i]).Passed?; replies[i].elapsed))
  }

  function FirstTokens(replies: seq<Reply>): seq<real>
    requires forall i :: 0 <= i < |replies| ==> OneRequest(replies[i]).Passed?
  {
    seq(|replies|, i requires 0 <= i < |replies| => (assert OneRequest(replies[i]).Passed?; replies[i].ttft.value))
  }

  lemma {:induction false} GatheredOfPassed(k: nat, replies: seq<Reply>, n: nat)
    requires n <= |replies| && forall i :: 0 <= i < |replies| ==> OneRequest(replies[i]).Passed?
    ensures Gather(Elapsed, Submitted(k, replies)[..n]) == ElapsedTimes(replies)[..n]
    ensures Gather(Ttft, Submitted(k, replies)[..n]) == FirstTokens(replies)[..n]
  {
    hide OneRequest;
    if n > 0 {
      var rows := Submitted(k, replies);
      GatheredOfPassed(k, replies, n - 1);
      assert rows[..n][..n - 1] == rows[..n - 1];
      PassedFields(replies[n - 1]);
      assert Elapsed(rows[n - 1]) == [ElapsedTimes(replies)[n - 1]] && Ttft(rows[n - 1]) == [FirstTokens(replies)[n - 1]];
    }
  }

  lemma PassedFields(r: Reply)
    requires OneRequest(r).Passed?
    ensures r.Answered? && r.ttft.Some? && OneRequest(r).elapsed == r.elapsed && OneRequest(r).ttft == r.ttft.value
  {
  }

  /** Where every request passed, the four latency figures are, in milliseconds, the mean and the 95th percentile
      of the requests' own latencies and times to first token. */
  lemma FiguresOfPassed(rec: Round, k: nat, concurrency: nat, wall: real, replies: seq<Reply>)
    requires |replies| > 0 && Measured(rec, k, concurrency, wall, replies)
    requires forall i :: 0 <= i < |replies| ==> OneRequest(replies[i]).Passed?
    ensures rec.meanE2e == Finite(1000.0 * Mean(ElapsedTimes(replies)))
    ensures rec.meanTtft == Finite(1000.0 * Mean(FirstTokens(replies)))
    ensures rec.p95E2e.Finite? && IsPercentile(ElapsedTimes(replies), 0.95, rec.p95E2e.value / 1000.0)
    ensures rec.p95Ttft.Finite? && IsPercentile(FirstTokens(replies), 0.95, rec.p95Ttft.value / 1000.0)
  {
    hide OneRequest, Sort, Gather, SumInt, IsPercentile, P95Ms, Mean;
    var n := |replies|;
    GatheredOfPassed(k, replies, n);
    assert Submitted(k, replies)[..n] == Submitted(k, replies);
    assert ElapsedTimes(replies)[..n] == ElapsedTimes(replies) && FirstTokens(replies)[..n] == FirstTokens(replies);
    P95MsMeans(ElapsedTimes(replies));
    P95MsMeans(FirstTokens(replies));
  }
}
