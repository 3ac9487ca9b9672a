/**
 * The control flow of `main` after argument parsing: health check, the
 * measurement loop, aggregation, the verdict and the exit code. The health
 * check and every probe are given as their outcomes; warm-up requests, sleeps
 * and printing have no effect on these results and are not modelled.
 */
module Smoke {
  import opened Wrappers
  import opened Probe
  import opened Kpi
  import Csv

  /** `range(max(1, n))`: at least one measurement is always taken. */
  function Iterations(n: int): (k: nat)
    ensures k >= 1 && k >= n
    ensures n >= 1 ==> k == n
    ensures n < 1 ==> k == 1
  {
    if n < 1 then 1 else n
  }

  /**
   * The measurement loop: one sample appended per iteration, the probe's
   * `i`-th outcome deciding the `i`-th sample (the sentinel when it raised).
   */
  method Measure(n: int, outcomes: seq<Outcome>) returns (samples: seq<Sample>)
    requires |outcomes| >= Iterations(n)
    ensures |samples| == Iterations(n)
    ensures forall i :: 0 <= i < |samples| ==> samples[i] == SampleOf(outcomes[i])
    ensures forall i :: 0 <= i < |samples| && outcomes[i].Raised? ==> samples[i] == Sentinel
    ensures forall i :: 0 <= i < |samples| ==> samples[i].feedback == None
    ensures forall i :: 0 <= i < |samples| && samples[i].ok ==> samples[i].status == 200
  {
    samples := [];
    for i := 0 to Iterations(n)
      invariant |samples| == i
      invariant forall j :: 0 <= j < i ==> samples[j] == SampleOf(outcomes[j])
    {
      var s := SampleOf(outcomes[i]);
      samples := samples + [s];
    }
  }

  /** The exit statuses of the harness. */
  const ExitPass: int := 0
  const ExitKpiFail: int := 1
  const ExitHealthFail: int := 2

  /**
   * One run of the harness. A failed health check returns 2 before any query
   * is issued; otherwise the samples are measured and aggregated, the
   * optional CSV table is produced, and the verdict decides between 0 and 1.
   */
  method Run(healthy: bool, n: int, outcomes: seq<Outcome>, writeCsv: bool)
    returns (code: int, samples: seq<Sample>, warnings: seq<Warning>, csv: Option<seq<string>>)
    requires |outcomes| >= Iterations(n)
    ensures !healthy ==> code == ExitHealthFail && samples == [] && warnings == [] && csv == None
    ensures healthy ==> |samples| == Iterations(n)
    ensures healthy ==> forall i :: 0 <= i < |samples| ==> samples[i] == SampleOf(outcomes[i])
    ensures healthy ==> (code == ExitPass <==> KpiPass(Aggregate(samples)))
    ensures healthy ==> (code == ExitKpiFail <==> !KpiPass(Aggregate(samples)))
    ensures healthy ==> (code == ExitPass <==> warnings == [])
    ensures healthy ==> (P95TooSlow in warnings <==> !P95Ok(Aggregate(samples)))
    ensures healthy ==> (HitRateLow in warnings <==> !HitRateOk(Aggregate(samples)))
    ensures healthy ==> (NoAnswerHigh in warnings <==> !NoAnswerRateOk(Aggregate(samples)))
    ensures healthy && writeCsv ==> csv == Some(Csv.EncodeTable(samples))
    ensures healthy && writeCsv ==> Csv.DecodeTable(csv.value) == Some(samples)
    ensures !writeCsv ==> csv == None
  {
    if !healthy {
      return ExitHealthFail, [], [], None;
    }
    samples := Measure(n, outcomes);
    var st := Aggregate(samples);
    if writeCsv {
      csv := Some(Csv.EncodeTable(samples));
      Csv.TableRoundTrip(samples);
    } else {
      csv := None;
    }
    var kpiOk;
    kpiOk, warnings := Evaluate(st);
    code := VerdictExitCode(kpiOk);
  }
}
