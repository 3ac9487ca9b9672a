/**
 * Aggregation of the recorded samples into KPIs and the threshold verdict.
 * Every rate is a percentage of ALL samples, failures included.
 */
module Kpi {
  import opened Wrappers
  import opened Probe
  import Percentile

  const P95LimitMs: int := 10000
  const HitRateMin: real := 70.0
  const NoAnswerRateMax: real := 20.0

  /** A hit: a successful answer with a positive `count` and `no_answer` not truthy. */
  function IsHit(s: Sample): (hit: bool)
    ensures hit ==> s.ok && s.count.Some? && s.count.value > 0
    ensures hit ==> !IsNoAnswer(s)
  {
    s.ok && s.count.Some? && s.count.value > 0 && s.noAnswer != Some(true)
  }

  /** A successful answer that the service flagged as "no answer". */
  function IsNoAnswer(s: Sample): (flagged: bool)
    ensures flagged ==> s.ok
  {
    s.ok && s.noAnswer == Some(true)
  }

  /**
   * The samples kept by `if s.ok`, in order; each ok sample occurs as often
   * as in the input and no other sample occurs.
   */
  function OkSamples(ss: seq<Sample>): (r: seq<Sample>)
    ensures forall s :: multiset(r)[s] == if s.ok then multiset(ss)[s] else 0
    ensures forall s :: s in r <==> s in ss && s.ok
  {
    if ss == [] then []
    else
      assert ss == [ss[0]] + ss[1..];
      (if ss[0].ok then [ss[0]] else []) + OkSamples(ss[1..])
  }

  /** `[s.latency_ms for s in samples if s.ok]`: the latencies of the ok samples, in order. */
  function OkLatencies(ss: seq<Sample>): (r: seq<int>)
    ensures |r| == |OkSamples(ss)|
    ensures forall i :: 0 <= i < |r| ==> r[i] == OkSamples(ss)[i].latencyMs
  {
    if ss == [] then []
    else (if ss[0].ok then [ss[0].latencyMs] else []) + OkLatencies(ss[1..])
  }

  /** `[s for s in samples if not s.ok]` */
  function Errors(ss: seq<Sample>): (r: seq<Sample>)
    ensures forall s :: multiset(r)[s] == if !s.ok then multiset(ss)[s] else 0
    ensures forall s :: s in r <==> s in ss && !s.ok
  {
    if ss == [] then []
    else
      assert ss == [ss[0]] + ss[1..];
      (if !ss[0].ok then [ss[0]] else []) + Errors(ss[1..])
  }

  /** The list `hits` of the source. */
  function Hits(ss: seq<Sample>): (r: seq<Sample>)
    ensures forall s :: multiset(r)[s] == if IsHit(s) then multiset(ss)[s] else 0
    ensures forall s :: s in r <==> s in ss && IsHit(s)
  {
    if ss == [] then []
    else
      assert ss == [ss[0]] + ss[1..];
      (if IsHit(ss[0]) then [ss[0]] else []) + Hits(ss[1..])
  }

  /** The list whose length is `no_answer_cnt`. */
  function NoAnswers(ss: seq<Sample>): (r: seq<Sample>)
    ensures forall s :: multiset(r)[s] == if IsNoAnswer(s) then multiset(ss)[s] else 0
    ensures forall s :: s in r <==> s in ss && IsNoAnswer(s)
  {
    if ss == [] then []
    else
      assert ss == [ss[0]] + ss[1..];
      (if IsNoAnswer(ss[0]) then [ss[0]] else []) + NoAnswers(ss[1..])
  }

  /** The counts and latency percentiles the harness computes from its samples. */
  datatype Stats = Stats(
    total: nat,
    errors: nat,
    okLatencies: seq<int>,
    hits: nat,
    noAnswers: nat,
    p50: Option<int>,
    p95: Option<int>)

  function Aggregate(ss: seq<Sample>): (st: Stats)
    ensures st.total == |ss|
    ensures st.errors + |st.okLatencies| == st.total
    ensures st.hits + st.noAnswers <= |st.okLatencies|
    ensures st.errors + st.hits + st.noAnswers <= st.total
    ensures st.p50.Some? <==> st.okLatencies != []
    ensures st.p95.Some? <==> st.okLatencies != []
    ensures st.p95.Some? ==> st.p95.value in st.okLatencies
    ensures st.errors == |Errors(ss)| && st.hits == |Hits(ss)| && st.noAnswers == |NoAnswers(ss)|
    ensures st.okLatencies == OkLatencies(ss)
    ensures st.okLatencies != [] ==>
      st.p50 == Some(Percentile.Median(st.okLatencies)) && st.p95 == Some(Percentile.P95(st.okLatencies))
  {
    var lat := OkLatencies(ss);
    ErrorsAndSuccessesPartition(ss);
    HitsAndNoAnswersDisjoint(ss);
    Stats(
      |ss|,
      |Errors(ss)|,
      lat,
      |Hits(ss)|,
      |NoAnswers(ss)|,
      if lat == [] then None else Some(Percentile.Median(lat)),
      if lat == [] then None else Some(Percentile.P95(lat)))
  }

  /** Every sample is either failed or contributes one successful latency. */
  lemma {:induction false} ErrorsAndSuccessesPartition(ss: seq<Sample>)
    ensures |Errors(ss)| + |OkLatencies(ss)| == |ss|
  {
    if ss != [] {
      ErrorsAndSuccessesPartition(ss[1..]);
    }
  }

  /** No sample is both a hit and a no-answer sample, and both kinds are successes. */
  lemma {:induction false} HitsAndNoAnswersDisjoint(ss: seq<Sample>)
    ensures |Hits(ss)| + |NoAnswers(ss)| <= |OkLatencies(ss)|
  {
    if ss != [] {
      HitsAndNoAnswersDisjoint(ss[1..]);
    }
  }

  // ---------------------------------------------------------------------
  // Rates, exact (the source rounds them to two decimals for display)

  /** `100 * errors / total`, the percentage of failed samples. */
  function ErrorRate(st: Stats): (rate: real)
    requires st.total > 0
    ensures 0.0 <= rate && (rate == 0.0 <==> st.errors == 0)
    ensures st.errors <= st.total ==> rate <= 100.0
  {
    PercentageBounds(st.errors, st.total);
    100.0 * (st.errors as real) / (st.total as real)
  }

  /** The percentage of successful samples, the complement of the error rate. */
  function SuccessRate(st: Stats): (rate: real)
    requires st.total > 0
    ensures 0.0 <= rate && (rate == 0.0 <==> st.okLatencies == [])
    ensures |st.okLatencies| <= st.total ==> rate <= 100.0
  {
    PercentageBounds(|st.okLatencies|, st.total);
    100.0 * (|st.okLatencies| as real) / (st.total as real)
  }

  /** `100 * len(hits) / total`: hits over all samples, failures included. */
  function HitRate(st: Stats): (rate: real)
    requires st.total > 0
    ensures 0.0 <= rate && (rate == 0.0 <==> st.hits == 0)
    ensures st.hits <= st.total ==> rate <= 100.0
  {
    PercentageBounds(st.hits, st.total);
    100.0 * (st.hits as real) / (st.total as real)
  }

  /** `100 * no_answer_cnt / total`: no-answer samples over all samples. */
  function NoAnswerRate(st: Stats): (rate: real)
    requires st.total > 0
    ensures 0.0 <= rate && (rate == 0.0 <==> st.noAnswers == 0)
    ensures st.noAnswers <= st.total ==> rate <= 100.0
  {
    PercentageBounds(st.noAnswers, st.total);
    100.0 * (st.noAnswers as real) / (st.total as real)
  }

  lemma PercentageBounds(c: nat, t: nat)
    requires t > 0
    ensures 0.0 <= 100.0 * (c as real) / (t as real)
    ensures 100.0 * (c as real) / (t as real) == 0.0 <==> c == 0
    ensures c <= t ==> 100.0 * (c as real) / (t as real) <= 100.0
  {
    var q := 100.0 * (c as real) / (t as real);
    assert q * (t as real) == 100.0 * (c as real);
    if c <= t {
      assert q * (t as real) <= 100.0 * (t as real);
    }
  }

  /** Error rate and success rate share the total as denominator, so they add up to 100. */
  lemma ErrorAndSuccessRatesSum(st: Stats)
    requires st.total > 0 && st.errors + |st.okLatencies| == st.total
    ensures ErrorRate(st) + SuccessRate(st) == 100.0
  {
    var t := st.total as real;
    var e := 100.0 * (st.errors as real);
    var o := 100.0 * (|st.okLatencies| as real);
    assert e + o == 100.0 * t;
    SharedDenominator(e, o, t);
    assert ErrorRate(st) == e / t && SuccessRate(st) == o / t;
    assert (100.0 * t) / t == 100.0;
  }

  lemma SharedDenominator(a: real, b: real, t: real)
    requires t > 0.0
    ensures a / t + b / t == (a + b) / t
  {
  }

  lemma ScaledAtLeast(c: nat, t: nat, bound: real, b: nat)
    requires t > 0 && bound == b as real
    ensures 100.0 * (c as real) / (t as real) >= bound <==> 100 * c >= b * t
  {
    var q := 100.0 * (c as real) / (t as real);
    assert q * (t as real) == 100.0 * (c as real);
    if q >= bound {
      assert q * (t as real) >= bound * (t as real);
    } else {
      assert q * (t as real) < bound * (t as real);
    }
  }

  lemma ScaledAtMost(c: nat, t: nat, bound: real, b: nat)
    requires t > 0 && bound == b as real
    ensures 100.0 * (c as real) / (t as real) <= bound <==> 100 * c <= b * t
  {
    var q := 100.0 * (c as real) / (t as real);
    assert q * (t as real) == 100.0 * (c as real);
    if q <= bound {
      assert q * (t as real) <= bound * (t as real);
    } else {
      assert q * (t as real) > bound * (t as real);
    }
  }

  // ---------------------------------------------------------------------
  // The three KPI checks

  /** The p95 check passes only for a defined p95 of at most 10000 ms. */
  function P95Ok(st: Stats): (ok: bool)
    ensures st.p95 == None ==> !ok
    ensures ok ==> st.p95.value <= 10000
  {
    st.p95.Some? && st.p95.value <= P95LimitMs
  }

  /** `not hit_rate < 70.0`, which on the counts is `100 * hits >= 70 * total`. */
  function HitRateOk(st: Stats): (ok: bool)
    requires st.total > 0
    ensures ok <==> 100 * st.hits >= 70 * st.total
  {
    ScaledAtLeast(st.hits, st.total, HitRateMin, 70);
    HitRate(st) >= HitRateMin
  }

  /** `not no_answer_pct > 20.0`, which on the counts is `100 * no_answers <= 20 * total`. */
  function NoAnswerRateOk(st: Stats): (ok: bool)
    requires st.total > 0
    ensures ok <==> 100 * st.noAnswers <= 20 * st.total
  {
    ScaledAtMost(st.noAnswers, st.total, NoAnswerRateMax, 20);
    NoAnswerRate(st) <= NoAnswerRateMax
  }

  /** The overall verdict: all three checks hold, stated on the counts. */
  function KpiPass(st: Stats): (pass: bool)
    requires st.total > 0
    ensures pass <==>
      st.p95.Some? && st.p95.value <= 10000 &&
      100 * st.hits >= 70 * st.total && 100 * st.noAnswers <= 20 * st.total
  {
    P95Ok(st) && HitRateOk(st) && NoAnswerRateOk(st)
  }

  /** A run in which no query succeeded always fails: its p95 is undefined. */
  lemma NoSuccessFails(ss: seq<Sample>)
    requires ss != [] && forall s :: s in ss ==> !s.ok
    ensures !KpiPass(Aggregate(ss))
  {
  }

  /** Seven hits out of ten samples is exactly the pass threshold for the hit rate. */
  lemma SevenHitsOfTenPass(st: Stats)
    requires st.total == 10 && st.hits == 7
    ensures HitRateOk(st)
  {
  }

  /** Three no-answer samples out of ten fail the verdict whatever else holds. */
  lemma ThreeNoAnswersOfTenFail(st: Stats)
    requires st.total == 10 && st.noAnswers == 3
    ensures !NoAnswerRateOk(st) && !KpiPass(st)
  {
  }

  /** A counted hit was built from a readable 200 answer whose count is positive. */
  lemma HitComesFromReadableAnswer(status: int, latencyMs: int, body: Body)
    requires IsHit(BuildSample(status, latencyMs, body))
    ensures status == 200 && body.Object?
    ensures body.count.Convertible? && body.count.n > 0 && body.noAnswer != Some(true)
  {
  }

  /** The warning the report prints for each failing check. */
  datatype Warning = P95TooSlow | HitRateLow | NoAnswerHigh

  /**
   * The verdict block: `kpi_ok` starts true and each failing check, examined
   * independently of the others, records its warning and clears the flag.
   */
  method Evaluate(st: Stats) returns (kpiOk: bool, warnings: seq<Warning>)
    requires st.total > 0
    ensures kpiOk <==> KpiPass(st)
    ensures kpiOk <==> warnings == []
    ensures P95TooSlow in warnings <==> !P95Ok(st)
    ensures HitRateLow in warnings <==> !HitRateOk(st)
    ensures NoAnswerHigh in warnings <==> !NoAnswerRateOk(st)
    ensures |warnings| <= 3
    ensures forall i, j :: 0 <= i < j < |warnings| ==> WarningOrder(warnings[i]) < WarningOrder(warnings[j])
  {
    kpiOk := true;
    warnings := [];
    if st.p95 == None || st.p95.value > P95LimitMs {
      warnings := warnings + [P95TooSlow];
      kpiOk := false;
    }
    if HitRate(st) < HitRateMin {
      warnings := warnings + [HitRateLow];
      kpiOk := false;
    }
    if NoAnswerRate(st) > NoAnswerRateMax {
      warnings := warnings + [NoAnswerHigh];
      kpiOk := false;
    }
  }

  /** Position of each warning in the report. */
  function WarningOrder(w: Warning): nat {
    match w
    case P95TooSlow => 0
    case HitRateLow => 1
    case NoAnswerHigh => 2
  }

  /** `return 0 if kpi_ok else 1` */
  function VerdictExitCode(kpiOk: bool): (code: int)
    ensures code == 0 <==> kpiOk
    ensures code == 0 || code == 1
  {
    if kpiOk then 0 else 1
  }
}
