/** Runner and auditor agree: the auditor accepts what the runner measured exactly when every
    request passed within its round, and then reaches the same figures and the same decision. */
module BenchAgreement {
  import opened Prelude
  import opened SortedLists
  import opened BenchStats
  import opened BenchRunner
  import opened BenchAudit

  predicate InTime(reply: Reply, wall: real) {
    OneRequest(reply).Passed? && OneRequest(reply).elapsed <= wall + WALL_SLACK
  }

  ghost predicate RoundPassed(replies: seq<Reply>, wall: real) {
    wall > 0.0 && forall i :: 0 <= i < |replies| ==> InTime(replies[i], wall)
  }

  lemma RowOk(k: nat, replies: seq<Reply>, wall: real, i: nat)
    requires i < |replies|
    ensures SampleOk(Submitted(k, replies)[i], wall) <==> InTime(replies[i], wall)
  {
  }

  lemma AllRowsOk(k: nat, replies: seq<Reply>, wall: real)
    ensures (forall i :: 0 <= i < |replies| ==> SampleOk(Submitted(k, replies)[i], wall))
            <==> (forall i :: 0 <= i < |replies| ==> InTime(replies[i], wall))
  {
    hide SampleOk, InTime, Submitted;
    forall i | 0 <= i < |replies| ensures SampleOk(Submitted(k, replies)[i], wall) <==> InTime(replies[i], wall) {
      RowOk(k, replies, wall, i);
    }
  }

  lemma IndexesOfSubmitted(k: nat, replies: seq<Reply>)
    requires |replies| == REQUESTS_PER_ARM
    ensures IndexesComplete(k, Submitted(k, replies))
  {
    hide OneRequest;
    var indexes := MapSeq(IndexOf, Submitted(k, replies));
    assert indexes == seq(REQUESTS, i => k * REQUESTS + i);
    SortOrdered(IntLe, indexes);
    OrderedUnique(IntLe, indexes, Sort(IntLe, indexes));
  }

  lemma LatencyFigures(samples: seq<Row>)
    requires |Gather(Elapsed, samples)| == |samples| >= 2
    ensures MeanMs(Gather(Elapsed, samples)) == Finite(Mean(Latencies(samples)))
    ensures Quantiles(Latencies(samples)).Some? && |Quantiles(Latencies(samples)).value| == 99
    ensures P95Ms(Gather(Elapsed, samples)) == Finite(Quantiles(Latencies(samples)).value[94])
  {
    hide Quantiles, Percentile, Mean, Milli;
    var v := Gather(Elapsed, samples);
    MeanScales(v);
    PercentileScales(v, 0.95);
    PercentileIsQuantile(MapSeq(Milli, v), 95);
    assert 95 as real / 100.0 == 0.95;
  }

  predicate SameFigures(rec: Round, v: Values) {
    && rec.outputRate == v.outputRate && rec.totalRate == v.totalRate
    && rec.meanE2e == Finite(v.meanE2e) && rec.p95E2e == Finite(v.p95E2e)
  }

  lemma SameFiguresMatch(rec: Round, v: Values)
    requires SameFigures(rec, v)
    ensures ClaimsMatch(rec, v)
  {
    EqualsItself(v.outputRate);
    EqualsItself(v.totalRate);
    EqualsItself(v.meanE2e);
    EqualsItself(v.p95E2e);
  }

  lemma NoErrors(errors: seq<string>)
    requires |multiset(errors)| == 0
    ensures errors == []
  {
    assert |multiset(errors)| == |errors|;
  }

  /** A measured round is accepted exactly when every request passed in time, and the
      recomputed figures are the recorded ones. */
  lemma RoundAccepted(rec: Round, k: nat, concurrency: nat, wall: real, replies: seq<Reply>)
    requires |replies| == REQUESTS_PER_ARM && Measured(rec, k, concurrency, wall, replies)
    ensures RoundOk(k, concurrency, rec) <==> RoundPassed(replies, wall)
    ensures RoundOk(k, concurrency, rec) ==> SameFigures(rec, ValuesOf(k, concurrency, rec))
  {
    hide SampleOk, InTime, ClaimsMatch, Gather, Sort, SumInt, MeanMs, P95Ms, Quantiles, Mean, Milli, IndexesComplete;
    AllRowsOk(k, replies, wall);
    assert SamplesOk(k, concurrency, rec) <==> RoundPassed(replies, wall) by { hide RoundOk, ValuesOf; }
    if RoundPassed(replies, wall) {
      PassedRoundAccepted(rec, k, concurrency, wall, replies);
    }
  }

  lemma PassedRoundAccepted(rec: Round, k: nat, concurrency: nat, wall: real, replies: seq<Reply>)
    requires |replies| == REQUESTS_PER_ARM && Measured(rec, k, concurrency, wall, replies)
    requires SamplesOk(k, concurrency, rec)
    ensures RoundOk(k, concurrency, rec) && SameFigures(rec, ValuesOf(k, concurrency, rec))
  {
    hide SampleOk, ClaimsMatch, Gather, Sort, SumInt, MeanMs, P95Ms, Quantiles, Mean, Milli, IndexesComplete;
    GatherPassed(rec.samples, wall);
    NoErrors(rec.errors);
    IndexesOfSubmitted(k, replies);
    LatencyFigures(rec.samples);
    SameFiguresMatch(rec, Recompute(rec.samples, wall));
  }

  // ----- an arm -----

  ghost predicate ArmPassed(arm: Arm)
    requires IsArm(arm)
  {
    forall k :: 0 <= k < MEASUREMENT_ROUNDS ==> RoundPassed(arm.replies[k], arm.walls[k])
  }

  predicate SameAggregate(a: Aggregate, r: Rebuilt) {
    && a.medianOutput == r.medianOutput && a.meanOutput == r.meanOutput
    && a.minOutput == r.minOutput && a.maxOutput == r.maxOutput && a.medianTotal == r.medianTotal
    && a.medianMean == Finite(r.medianMean) && a.medianP95 == Finite(r.medianP95)
  }

  predicate Alike(rounds: seq<Round>, values: seq<Values>) {
    |rounds| == |values| > 0 && forall k :: 0 <= k < |rounds| ==> SameFigures(rounds[k], values[k])
  }

  lemma RatesAlike(rounds: seq<Round>, values: seq<Values>)
    requires Alike(rounds, values)
    ensures MapSeq((r: Round) => r.outputRate, rounds) == MapSeq((v: Values) => v.outputRate, values)
    ensures MapSeq((r: Round) => r.totalRate, rounds) == MapSeq((v: Values) => v.totalRate, values)
  {
  }

  lemma MediansAlike(rounds: seq<Round>, values: seq<Values>)
    requires Alike(rounds, values)
    ensures Median(MapSeq((r: Round) => r.meanE2e, rounds)) == Finite(MedianReal(MapSeq((v: Values) => v.meanE2e, values)))
    ensures Median(MapSeq((r: Round) => r.p95E2e, rounds)) == Finite(MedianReal(MapSeq((v: Values) => v.p95E2e, values)))
  {
    hide Median, MedianReal;
    var means := MapSeq((v: Values) => v.meanE2e, values);
    var p95s := MapSeq((v: Values) => v.p95E2e, values);
    assert MapSeq((r: Round) => r.meanE2e, rounds) == MapSeq(Fin, means);
    assert MapSeq((r: Round) => r.p95E2e, rounds) == MapSeq(Fin, p95s);
    MedianOfFinite(means);
    MedianOfFinite(p95s);
  }

  lemma AggregatesAlike(rounds: seq<Round>, values: seq<Values>)
    requires Alike(rounds, values)
    ensures AggregateRounds(rounds).Some? && SameAggregate(AggregateRounds(rounds).value, Rebuild(values))
  {
    hide Median, MedianReal, Least, Greatest, Mean, SumInt;
    RatesAlike(rounds, values);
    MediansAlike(rounds, values);
  }

  lemma SumOfThree(a: int, b: int, c: int)
    ensures SumInt([a, b, c]) == a + b + c
  {
    assert [a, b, c][..2] == [a, b] && [a, b][..1] == [a] && [a][..0] == [];
    assert SumInt([a]) == a && SumInt([a, b]) == a + b;
  }

  lemma CountsOf(rounds: seq<Round>)
    requires |rounds| == MEASUREMENT_ROUNDS
    ensures AggregateRounds(rounds).Some?
    ensures var a := AggregateRounds(rounds).value;
      && a.roundCount == 3
      && a.requests == rounds[0].requests + rounds[1].requests + rounds[2].requests
      && a.passed == rounds[0].passed + rounds[1].passed + rounds[2].passed
      && a.failed == rounds[0].failed + rounds[1].failed + rounds[2].failed
  {
    hide Median, MedianReal, Least, Greatest, Mean;
    SumOfThree(rounds[0].requests, rounds[1].requests, rounds[2].requests);
    SumOfThree(rounds[0].passed, rounds[1].passed, rounds[2].passed);
    SumOfThree(rounds[0].failed, rounds[1].failed, rounds[2].failed);
    assert MapSeq((r: Round) => r.requests, rounds) == [rounds[0].requests, rounds[1].requests, rounds[2].requests];
    assert MapSeq((r: Round) => r.passed, rounds) == [rounds[0].passed, rounds[1].passed, rounds[2].passed];
    assert MapSeq((r: Round) => r.failed, rounds) == [rounds[0].failed, rounds[1].failed, rounds[2].failed];
  }

  lemma SameAggregateMatches(a: Aggregate, r: Rebuilt)
    requires SameAggregate(a, r)
    requires a.roundCount == ROUNDS && a.requests == ROUNDS * REQUESTS && a.passed == a.requests && a.failed == 0
    ensures AggregateMatches(a, r)
  {
    hide IsClose;
    EqualsItself(r.medianOutput);
    EqualsItself(r.meanOutput);
    EqualsItself(r.minOutput);
    EqualsItself(r.maxOutput);
    EqualsItself(r.medianTotal);
    EqualsItself(r.medianMean);
    EqualsItself(r.medianP95);
  }

  lemma RoundsAccepted(bundle: Bundle, concurrency: nat, arm: Arm)
    requires MeasuredArm(bundle, concurrency, arm)
    ensures RoundsOk(concurrency, bundle.rounds) <==> ArmPassed(arm)
    ensures RoundsOk(concurrency, bundle.rounds) ==> Alike(bundle.rounds, AllValues(concurrency, bundle.rounds))
  {
    hide Measured, RoundOk, ValuesOf, RoundPassed, SameFigures, AggregateRounds;
    forall k | 0 <= k < MEASUREMENT_ROUNDS
      ensures RoundOk(k, concurrency, bundle.rounds[k]) <==> RoundPassed(arm.replies[k], arm.walls[k])
      ensures RoundOk(k, concurrency, bundle.rounds[k]) ==> SameFigures(bundle.rounds[k], ValuesOf(k, concurrency, bundle.rounds[k]))
    {
      RoundAccepted(bundle.rounds[k], k, concurrency, arm.walls[k], arm.replies[k]);
    }
  }

  lemma RoundCounts(k: nat, concurrency: nat, rec: Round)
    requires RoundOk(k, concurrency, rec)
    ensures rec.requests == REQUESTS && rec.passed == REQUESTS && rec.failed == 0
  {
  }

  /** replay_arm accepts what _benchmark_rounds built, in any completion order, exactly when
      every request of every round passed within its round; all its figures are then equal. */
  lemma ArmAccepted(bundle: Bundle, concurrency: nat, arm: Arm)
    requires MeasuredArm(bundle, concurrency, arm)
    ensures Accepts(concurrency, bundle) <==> ArmPassed(arm)
    ensures Accepts(concurrency, bundle) ==>
      SameAggregate(bundle.aggregate, Rebuild(AllValues(concurrency, bundle.rounds)))
  {
    hide Measured, RoundOk, ValuesOf, RoundPassed, SameFigures, AggregateRounds, SameAggregate, AggregateMatches, Rebuild;
    RoundsAccepted(bundle, concurrency, arm);
    if RoundsOk(concurrency, bundle.rounds) {
      AggregatesAlike(bundle.rounds, AllValues(concurrency, bundle.rounds));
      CountsOf(bundle.rounds);
      RoundCounts(0, concurrency, bundle.rounds[0]);
      RoundCounts(1, concurrency, bundle.rounds[1]);
      RoundCounts(2, concurrency, bundle.rounds[2]);
      SameAggregateMatches(bundle.aggregate, Rebuild(AllValues(concurrency, bundle.rounds)));
    }
  }

  // ----- the decision -----

  lemma {:induction false} TtftsPositive(k: nat, replies: seq<Reply>, rows: seq<Row>)
    requires |rows| <= |replies| && rows == Submitted(k, replies)[..|rows|]
    requires forall i :: 0 <= i < |replies| ==> OneRequest(replies[i]).Passed?
    ensures |Gather(Ttft, rows)| == |rows| && AllPositive(Gather(Ttft, rows))
  {
    hide OneRequest;
    if |rows| > 0 {
      var m := |rows| - 1;
      TtftsPositive(k, replies, rows[..m]);
      assert rows[m] == Submitted(k, replies)[m];
      PassedTtft(replies[m]);
    }
  }

  lemma PassedTtft(reply: Reply)
    requires OneRequest(reply).Passed?
    ensures OneRequest(reply).ttft > 0.0
  {
  }

  lemma P95MsPositive(v: seq<real>)
    requires |v| > 0 && AllPositive(v)
    ensures P95Ms(v).Finite? && P95Ms(v).value > 0.0
  {
    PercentilePositive(v, 0.95);
  }

  predicate TtftPositive(rec: Round) { rec.p95Ttft.Finite? && rec.p95Ttft.value > 0.0 }

  lemma RoundTtftPositive(rec: Round, k: nat, concurrency: nat, wall: real, replies: seq<Reply>)
    requires |replies| == REQUESTS_PER_ARM && Measured(rec, k, concurrency, wall, replies)
    requires RoundPassed(replies, wall)
    ensures TtftPositive(rec)
  {
    hide OneRequest, Gather, Sort, SumInt, P95Ms, MeanMs;
    assert forall i :: 0 <= i < |replies| ==> InTime(replies[i], wall);
    TtftsPositive(k, replies, rec.samples);
    P95MsPositive(Gather(Ttft, rec.samples));
  }

  lemma MedianTtftPositive(rounds: seq<Round>)
    requires |rounds| > 0 && forall k :: 0 <= k < |rounds| ==> TtftPositive(rounds[k])
    ensures AggregateRounds(rounds).Some?
    ensures var m := AggregateRounds(rounds).value.medianP95Ttft; m.Finite? && m.value > 0.0
  {
    hide Median, MedianReal, Mean, Least, Greatest, SumInt;
    var v := seq(|rounds|, k requires 0 <= k < |rounds| => (assert TtftPositive(rounds[k]); rounds[k].p95Ttft.value));
    assert forall k :: 0 <= k < |rounds| ==> TtftPositive(rounds[k]);
    assert MapSeq((r: Round) => r.p95Ttft, rounds) == MapSeq(Fin, v);
    MedianOfFinite(v);
    MedianPositive(v);
  }

  lemma ArmTtftPositive(bundle: Bundle, concurrency: nat, arm: Arm)
    requires MeasuredArm(bundle, concurrency, arm) && ArmPassed(arm)
    ensures var m := bundle.aggregate.medianP95Ttft; m.Finite? && m.value > 0.0
  {
    hide Measured, RoundPassed, TtftPositive, AggregateRounds;
    forall k | 0 <= k < MEASUREMENT_ROUNDS ensures TtftPositive(bundle.rounds[k]) {
      RoundTtftPositive(bundle.rounds[k], k, concurrency, arm.walls[k], arm.replies[k]);
    }
    MedianTtftPositive(bundle.rounds);
  }

  /** An accepted measured arm passes every fail-closed check of the verdict. */
  lemma AcceptedArmHasNoFault(bundle: Bundle, concurrency: nat, arm: Arm)
    requires MeasuredArm(bundle, concurrency, arm) && Accepts(concurrency, bundle)
    ensures ArmFault(bundle.aggregate).None?
  {
    hide Measured, RoundsOk, AllValues, Rebuild, ArmPassed, IsClose, IsArm, AggregateRounds;
    ArmAccepted(bundle, concurrency, arm);
    AcceptedIsPositive(concurrency, bundle);
    ArmTtftPositive(bundle, concurrency, arm);
  }

  /** On two accepted measured arms, runner and auditor reach the same gain, the same latency
      ratio and the same KEEP or REJECT. */
  lemma DecisionsAgree(baseline: Bundle, b: nat, baseArm: Arm, candidate: Bundle, c: nat, candidateArm: Arm)
    requires MeasuredArm(baseline, b, baseArm) && Accepts(b, baseline)
    requires MeasuredArm(candidate, c, candidateArm) && Accepts(c, candidate)
    ensures Rebuild(AllValues(b, baseline.rounds)).medianOutput > 0.0
    ensures Rebuild(AllValues(b, baseline.rounds)).medianP95 > 0.0
    ensures Verdict(baseline.aggregate, candidate.aggregate)
            == Gate(Rebuild(AllValues(b, baseline.rounds)), Rebuild(AllValues(c, candidate.rounds)))
  {
    hide MeasuredArm, Accepts, AllValues, Rebuild, ArmFault, ArmPassed;
    AcceptedArmHasNoFault(baseline, b, baseArm);
    AcceptedArmHasNoFault(candidate, c, candidateArm);
    AcceptedIsPositive(b, baseline);
    AcceptedIsPositive(c, candidate);
    ArmAccepted(baseline, b, baseArm);
    ArmAccepted(candidate, c, candidateArm);
  }

  lemma {:induction false} FailuresCounted(rows: seq<Row>)
    ensures |Gather(Elapsed, rows)| <= |rows|
    ensures |Gather(Elapsed, rows)| == |rows| ==> forall i :: 0 <= i < |rows| ==> rows[i].sample.Passed?
  {
    if |rows| > 0 { FailuresCounted(rows[..|rows| - 1]); }
  }

  predicate AllPassed(replies: seq<Reply>) {
    forall i :: 0 <= i < |replies| ==> OneRequest(replies[i]).Passed?
  }

  lemma RoundFailures(rec: Round, k: nat, concurrency: nat, wall: real, replies: seq<Reply>)
    requires Measured(rec, k, concurrency, wall, replies)
    ensures rec.failed >= 0 && (rec.failed == 0 ==> AllPassed(replies))
  {
    hide OneRequest, Gather, Sort, SumInt, P95Ms, MeanMs;
    FailuresCounted(rec.samples);
    assert forall i :: 0 <= i < |replies| ==> rec.samples[i].sample == OneRequest(replies[i]);
  }

  /** An arm without a fault had every request of every round pass. */
  lemma NoFaultMeansPassed(bundle: Bundle, concurrency: nat, arm: Arm)
    requires MeasuredArm(bundle, concurrency, arm) && ArmFault(bundle.aggregate).None?
    ensures forall k :: 0 <= k < MEASUREMENT_ROUNDS ==> AllPassed(arm.replies[k])
  {
    hide Measured, AllPassed, AggregateRounds;
    CountsOf(bundle.rounds);
    RoundFailures(bundle.rounds[0], 0, concurrency, arm.walls[0], arm.replies[0]);
    RoundFailures(bundle.rounds[1], 1, concurrency, arm.walls[1], arm.replies[1]);
    RoundFailures(bundle.rounds[2], 2, concurrency, arm.walls[2], arm.replies[2]);
  }

  /** The wall clock of a round covers each of its requests. */
  ghost predicate ClockSound(arm: Arm)
    requires IsArm(arm)
  {
    forall k :: 0 <= k < MEASUREMENT_ROUNDS ==> RoundClock(arm.replies[k], arm.walls[k])
  }

  predicate RoundClock(replies: seq<Reply>, wall: real) {
    forall i :: 0 <= i < |replies| && replies[i].Answered? ==> replies[i].elapsed <= wall
  }

  lemma PassedInClock(replies: seq<Reply>, wall: real)
    requires |replies| > 0 && RoundClock(replies, wall)
    ensures RoundPassed(replies, wall) <==> AllPassed(replies)
  {
    if AllPassed(replies) {
      assert OneRequest(replies[0]).Passed?;
      forall i | 0 <= i < |replies| ensures InTime(replies[i], wall) {
        assert OneRequest(replies[i]).Passed?;
      }
    }
    if RoundPassed(replies, wall) {
      forall i | 0 <= i < |replies| ensures OneRequest(replies[i]).Passed? {
        assert InTime(replies[i], wall);
      }
    }
  }

  /** With a sound clock, an arm is accepted exactly when every request passed, which is also
      when the runner's own checks find no fault in it. */
  lemma ArmAcceptedInClock(bundle: Bundle, concurrency: nat, arm: Arm)
    requires MeasuredArm(bundle, concurrency, arm) && ClockSound(arm)
    ensures Accepts(concurrency, bundle) <==> forall k :: 0 <= k < MEASUREMENT_ROUNDS ==> AllPassed(arm.replies[k])
    ensures Accepts(concurrency, bundle) <==> ArmFault(bundle.aggregate).None?
  {
    hide Measured, AllPassed, RoundPassed, AggregateRounds, Accepts, ArmFault, RoundClock;
    ArmAccepted(bundle, concurrency, arm);
    forall k | 0 <= k < MEASUREMENT_ROUNDS
      ensures RoundPassed(arm.replies[k], arm.walls[k]) <==> AllPassed(arm.replies[k])
    {
      PassedInClock(arm.replies[k], arm.walls[k]);
    }
    if ArmFault(bundle.aggregate).None? { NoFaultMeansPassed(bundle, concurrency, arm); }
    if Accepts(concurrency, bundle) { AcceptedArmHasNoFault(bundle, concurrency, arm); }
  }

  /** With a sound clock, the runner keeps a candidate exactly when the auditor accepts both
      arms and its own gate keeps it. */
  lemma KeepIsAudited(baseline: Bundle, b: nat, baseArm: Arm, candidate: Bundle, c: nat, candidateArm: Arm)
    requires MeasuredArm(baseline, b, baseArm) && ClockSound(baseArm)
    requires MeasuredArm(candidate, c, candidateArm) && ClockSound(candidateArm)
    ensures Verdict(baseline.aggregate, candidate.aggregate).Gated? <==> Accepts(b, baseline) && Accepts(c, candidate)
    ensures Keep(Verdict(baseline.aggregate, candidate.aggregate)) <==>
      && Accepts(b, baseline) && Accepts(c, candidate)
      && (AcceptedIsPositive(b, baseline);
          Gate(Rebuild(AllValues(b, baseline.rounds)), Rebuild(AllValues(c, candidate.rounds))).keep)
  {
    hide MeasuredArm, AllValues, Rebuild, ArmFault, ClockSound, AggregateMatches, RoundsOk;
    ArmAcceptedInClock(baseline, b, baseArm);
    ArmAcceptedInClock(candidate, c, candidateArm);
    if Accepts(b, baseline) && Accepts(c, candidate) {
      DecisionsAgree(baseline, b, baseArm, candidate, c, candidateArm);
    }
  }
}
