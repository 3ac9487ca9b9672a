# KPI smoke-test harness: a Dafny model of its aggregation and verdict

`kpi_smoke.py` is a command-line smoke test for a question-answering HTTP
service. It checks `/v1/health`, sends a few warm-up queries, then sends
`max(1, n)` measured queries to `/v1/query` one after another. Each answer
becomes a `Sample`. From the samples it computes:

- the error rate;
- p50 and p95 latency over the successful samples;
- the hit rate (successful, `count > 0`, `no_answer` not true);
- the no-answer rate.

It can dump the samples as CSV. It exits with 0 when three KPI checks all
pass, 1 when any fails, and 2 when the health check fails.

This project models that core:

- `wrappers.dfy`, module `Wrappers`: `Option`, standing for Python's `Optional`.
- `percentile.dfy`, module `Percentile`: Python's `sorted` as an insertion
  sort. The nearest-rank `p95` and `int(median(...))`. Rank counts
  (`CountAtMost`, `CountBelow`) and the order-statistic predicate that serves
  as an independent definition of both percentiles.
- `probe.dfy`, module `Probe`: the `Sample` dataclass. The probe outcome as a
  value: the request raised, or it answered with a status, an elapsed time and
  a body. `BuildSample` is the part of `run_query` that reads an answer; the
  sentinel is the sample used when the request raised.
- `kpi.dfy`, module `Kpi`: the list comprehensions of the aggregation block,
  `Stats`, exact rates and the three checks. `Evaluate` is the step-by-step
  clearing of `kpi_ok`; the warnings it records stand for the printed ones.
  The exit code of a verdict is `VerdictExitCode`.
- `auth.dfy`, module `Auth`: the case-insensitive `"bearer "` test and the
  `headers` dict.
- `csv.dfy`, module `Csv`: the CSV rows and lines. `str(int)` for the numbers.
  A reader (`ParseRow`, `Split`, `DecodeTable`) is the inverse used to state
  the write-then-read round trip.
- `smoke.dfy`, module `Smoke`: the measurement loop `Measure` and the whole run
  `Run` (health check, measurement, aggregation, CSV, verdict, exit code).

Inputs from outside the program are parameters:

- the health-check result (`healthy`);
- the sequence of probe outcomes, one per measured query;
- whether a CSV path was given.

Two points about the code itself:

- p95 >= p50 does not hold in general. With exactly two successful latencies,
  p95 picks the smaller one (rank `max(1, int(1.9)) = 1`), while p50 is their
  mean. `Percentile.P95BelowMedianForTwo` shows `[0, 10]` giving p95 0 and
  p50 5. `Percentile.P95AtLeastMedian` proves the inequality for every other
  count.
- The health check fails only when the request or `raise_for_status` raises.
  Here it is a boolean.

## Model

| member | source | states |
|---|---|---|
| `Percentile.Sort` | kpi_smoke.py:53 | the result is ascending and a permutation (same multiset) of the input |
| `Percentile.InsertKeepsSorted` | kpi_smoke.py:53 | inserting into a sorted list keeps it sorted (the step of the sort) |
| `Percentile.SortKeepsCounts` | kpi_smoke.py:53 | sorting keeps, for every value, the number of elements at most it and below it |
| `Percentile.P95Rank` | kpi_smoke.py:55 | the nearest rank `max(1, int(0.95*n))` lies in `[1, n]`, so the index `k-1` is in `[0, n-1]` |
| `Percentile.P95` | kpi_smoke.py:50-56 | for a non-empty list the result is one of the inputs and is its `P95Rank(n)`-th smallest value (fewer than k below it, at least k at or below it); no interpolation |
| `Percentile.SortedRank` | kpi_smoke.py:53-56 | in a sorted list the element at index i is the order statistic of rank i+1 |
| `Percentile.OrderStatisticUnique` | kpi_smoke.py:54-56 | two values of the same rank are equal, so the rank property determines p95 and p50 |
| `Percentile.SortOfSorted` | kpi_smoke.py:53 | sorting an already sorted list returns it unchanged |
| `Percentile.P95OfSingleton` | kpi_smoke.py:55-56 | with one value the rank index is 0 and p95 is that value |
| `Percentile.P95OfSorted` | kpi_smoke.py:53-56 | for sorted input p95 is the element at index `P95Rank(n) - 1` |
| `Percentile.P95OfTenLatencies` | kpi_smoke.py:50-56 | latencies 10, 20, ..., 100 give p95 = 90 |
| `Percentile.TruncHalf` | kpi_smoke.py:149 | the result is x/2 truncated toward zero, for negative x too: within one of x/2 on the side of zero |
| `Percentile.Median` | kpi_smoke.py:149 | the result lies between the least and greatest input; for odd length it is an input and the middle order statistic (rank n/2+1) |
| `Percentile.MedianEven` | kpi_smoke.py:149 | for even length p50 is the mean of the order statistics of ranks n/2 and n/2+1, truncated toward zero |
| `Percentile.P95RankAboveMiddle` | kpi_smoke.py:55 | for every count other than 2 the p95 index is at or above the middle index |
| `Percentile.P95AtLeastMedian` | kpi_smoke.py:149-150 | p50 <= p95 whenever the number of successful latencies is not 2 |
| `Percentile.P95BelowMedianForTwo` | kpi_smoke.py:149-150 | for two latencies [0, 10] p95 is 0 and p50 is 5, so the general claim fails at count 2 |
| `Probe.BuildSample` | kpi_smoke.py:77-87 | ok holds iff status is 200 and the body is read without raising; a sample that is not ok has no count and no no_answer (so neither does a non-200 one); count and no_answer are those of the body when ok; status and latency are the given ones; feedback is always absent |
| `Probe.Readable` | kpi_smoke.py:80-86 | the body is read without raising only when it is an object whose count is absent or convertible; an object body fails only on an inconvertible count |
| `Probe.SampleOf` | kpi_smoke.py:136-141 | a raised probe gives the sentinel `(false, -1, 0, None, None, None)`; an answer keeps its status and latency; any ok sample has status 200; feedback is always absent |
| `Kpi.OkLatencies` | kpi_smoke.py:145 | the result lists, in order, the latency of each ok sample, one entry per ok sample |
| `Kpi.OkSamples` | kpi_smoke.py:145 | the `if s.ok` filter: each ok sample occurs exactly as often as in the input, and no other sample occurs |
| `Kpi.Errors` | kpi_smoke.py:146 | each failed sample occurs exactly as often as in the input, and no ok sample occurs, so `len(err)` counts failed samples with repeats |
| `Kpi.Hits` | kpi_smoke.py:152 | each hit (ok, positive count, no_answer not true) occurs exactly as often as in the input, and nothing else occurs |
| `Kpi.IsHit` | kpi_smoke.py:152 | a hit is ok and has a positive count, and is never a no-answer sample |
| `Kpi.IsNoAnswer` | kpi_smoke.py:154 | a no-answer sample is always ok |
| `Kpi.NoAnswers` | kpi_smoke.py:154 | each ok sample flagged no_answer occurs exactly as often as in the input, and nothing else occurs, so its length is `no_answer_cnt` |
| `Kpi.Aggregate` | kpi_smoke.py:145-155 | total is the sample count; errors, hits and no-answers are the lengths of the three filtered lists; the ok latencies are `lat_ok`; errors + successes = total and errors + hits + no-answers <= total; p50 and p95 are defined iff some sample succeeded, and then they are the median and p95 of `lat_ok` |
| `Kpi.ErrorsAndSuccessesPartition` | kpi_smoke.py:145-147 | `len(err) + len(lat_ok) == total` |
| `Kpi.HitsAndNoAnswersDisjoint` | kpi_smoke.py:152-154 | no sample is both a hit and a no-answer sample, and both are successes: `len(hits) + no_answer_cnt <= len(lat_ok)` |
| `Kpi.ErrorAndSuccessRatesSum` | kpi_smoke.py:146-148 | over the shared denominator the error rate and success rate add up to 100 |
| `Kpi.ErrorRate` | kpi_smoke.py:148 | the error percentage lies in [0, 100] and is 0 exactly when no sample failed |
| `Kpi.SuccessRate` | kpi_smoke.py:145-148 | the percentage of ok samples, the complement of the error rate: in [0, 100] and 0 exactly when none succeeded |
| `Kpi.HitRate` | kpi_smoke.py:153 | the hit percentage over all samples lies in [0, 100] and is 0 exactly when there is no hit |
| `Kpi.NoAnswerRate` | kpi_smoke.py:155 | the no-answer percentage over all samples lies in [0, 100] and is 0 exactly when there is none |
| `Kpi.P95Ok` | kpi_smoke.py:177 | an undefined p95 fails the check, and a passing p95 is at most 10000 ms |
| `Kpi.HitRateOk` | kpi_smoke.py:180 | the hit-rate check passes iff `100*hits >= 70*total` |
| `Kpi.NoAnswerRateOk` | kpi_smoke.py:183 | the no-answer check passes iff `100*no_answers <= 20*total` |
| `Kpi.KpiPass` | kpi_smoke.py:176-185 | the verdict holds iff p95 is defined and <= 10000, `100*hits >= 70*total` and `100*no_answers <= 20*total` |
| `Kpi.NoSuccessFails` | kpi_smoke.py:145-179 | a run in which no sample succeeded always fails, since p95 is undefined |
| `Kpi.SevenHitsOfTenPass` | kpi_smoke.py:180-182 | 7 hits out of 10 samples meets the hit-rate threshold exactly |
| `Kpi.ThreeNoAnswersOfTenFail` | kpi_smoke.py:183-185 | 3 no-answer samples out of 10 fail the no-answer check and so the verdict |
| `Kpi.HitComesFromReadableAnswer` | kpi_smoke.py:77-87 | a built sample that counts as a hit came from a 200 answer whose body is an object with a convertible positive count and no_answer not true |
| `Kpi.Evaluate` | kpi_smoke.py:176-185 | kpi_ok iff all three checks pass; each failing check records its own warning separately, without short-circuit; the warnings come in report order, and there are none exactly when kpi_ok |
| `Kpi.VerdictExitCode` | kpi_smoke.py:189 | exit code 0 iff the KPIs pass, and 1 otherwise |
| `Auth.Lower` | kpi_smoke.py:118 | same length; each ASCII upper-case letter becomes its lower-case letter (32 code points on), every other character is kept, and no upper-case letter remains |
| `Auth.HasBearerPrefix` | kpi_smoke.py:118 | the test depends only on the first seven characters, which must spell "bearer " in any letter case |
| `Auth.BearerPrefixIsRecognised` | kpi_smoke.py:118 | a value beginning with `"Bearer "` passes the case-insensitive prefix test |
| `Auth.Normalize` | kpi_smoke.py:116-118 | the header always starts with "bearer " in some letter case and ends with the token; it equals the token exactly when the token already has the prefix, and otherwise it is `"Bearer " + token` |
| `Auth.NormalizeIdempotent` | kpi_smoke.py:118 | normalising twice equals normalising once |
| `Auth.BuildHeaders` | kpi_smoke.py:115-118 | Accept is always `application/json`; Authorization is present iff the token is non-empty, and then it is the normalised token and passes the prefix test; there are no other keys |
| `Csv.NatToString` | kpi_smoke.py:163 | decimal text of a natural number is non-empty and all digits |
| `Csv.IntToString` | kpi_smoke.py:163 | decimal text of an integer (`str(int)`) is non-empty and contains no delimiter |
| `Csv.NatRoundTrip` | kpi_smoke.py:163 | the digits written for n read back as n |
| `Csv.IntRoundTrip` | kpi_smoke.py:163 | the text written for any integer, negative ones included (status -1), parses back to it |
| `Csv.EncodeRow` | kpi_smoke.py:161-163 | a row has exactly the 5 header fields; ok is "0" or "1"; count and no_answer are "" exactly when absent; no field contains the delimiter |
| `Csv.RowRoundTrip` | kpi_smoke.py:161-163 | reading a written row back gives the sample's ok, status, latency, count and no_answer |
| `Csv.SplitJoin` | kpi_smoke.py:160-163 | splitting a comma-joined line gives back its fields when none contains a comma |
| `Csv.EncodeTable` | kpi_smoke.py:158-163 | the first line is the joined header and there is one further line per sample |
| `Csv.DecodeRows` | kpi_smoke.py:162-163 | a successful read gives one sample per line |
| `Csv.DecodeEncodedRows` | kpi_smoke.py:162-163 | reading the written sample lines back gives the samples, when none carries feedback |
| `Csv.TableRoundTrip` | kpi_smoke.py:158-163 | writing the samples and reading the file back gives the same list: same count, ok flags, statuses, latencies, counts and no-answer flags |
| `Smoke.Iterations` | kpi_smoke.py:136 | exactly n iterations when n >= 1, and exactly one when n < 1 |
| `Smoke.Measure` | kpi_smoke.py:135-142 | exactly `max(1, n)` samples, the i-th built from the i-th probe outcome; a raised probe gives the sentinel; no sample carries feedback; every ok sample has status 200 |
| `Smoke.Run` | kpi_smoke.py:115-189 | a failed health check gives exit 2, with no sample, warning or CSV; otherwise `max(1, n)` samples are measured, the exit code is 0 iff the aggregated KPIs pass and 1 iff they fail, each of the three warnings is recorded iff its own check fails on the aggregated samples, the code is 0 iff no warning was recorded, and the CSV table (when requested) reads back to the samples |

## Left out

- HTTP: `check_health`, the request in `run_query`, its timeouts, and JSON decoding are not modelled. The health check is a boolean. A probe is an `Outcome`. The decoded body is a `Body`, which records only what the code does with it: whether `r.json()` raises, whether the value has a `get`, what `int(count)` returns or whether it raises, and the truthiness of `no_answer`.
- `send_feedback`: never called from `main`, so it is not modelled. The `--feedback` flag is parsed and not used.
- The warm-up loop (kpi_smoke.py:128-132): its results and exceptions are thrown away, so it does not affect any modelled value.
- `argparse` and the environment-variable defaults: the model receives `n`, the CSV choice and the token directly.
- Request parameters (`q`, `k`, `threshold`, toggles) and the base URL: they only go into the HTTP requests (URL and JSON payload) and the printed summary, so no modelled value depends on them.
- `time.perf_counter`: the elapsed time is part of the outcome. `time.sleep(0.05)` has no modelled effect.
- `print` output: only which warnings are emitted is modelled, as `Kpi.Warning` values.
- Opening and writing the CSV file: not modelled. That covers its encoding and the `\r\n` line terminator of `csv.writer`. The model builds the lines' contents only.
- Kpi.HitRate, Kpi.NoAnswerRate, Kpi.ErrorRate: exact rational rates, without `round(..., 2)`. Rounding can move a rate across its threshold only in one direction. A hit rate just under 70 can round up to pass. A no-answer rate just over 20 can round down to pass. Both need a total of at least 2000 samples: hits and totals are integers, so a rate below 70 is at least 10/total below it.
- Percentile.P95: requires a non-empty list. The `float('nan')` branch for an empty list is never reached, because the caller checks `lat_ok` first.
- Percentile.P95Rank: uses `(95 * n) / 100` in integer arithmetic for `int(0.95 * n)`. The error in the double `0.95` is too small to push the product below an integer it should equal. This floating-point argument is outside the model.
- Percentile.Median, Percentile.P95: the `float(...)` and `int(...)` conversions and the float mean in `median` are taken as exact. For p95 this holds for latencies below 2^53 ms. For the even-length mean it holds only while the two middle latencies sum to less than 2^53, so that their half is a double; above that, Python rounds the half to even before truncating.
- Auth.Lower: only ASCII letters are lower-cased. Unicode case mapping, which can change a string's length, is not modelled.
- The division by `total` cannot fail, since `Measure` always returns at least one sample. The rate functions therefore require `total > 0`.
