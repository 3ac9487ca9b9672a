/**
 * One measured `/v1/query` interaction. The HTTP call itself is not modelled:
 * a probe is given as its outcome (the request raised, or it answered with a
 * status code, an elapsed time and a body), and `BuildSample` is the part of
 * `run_query` that turns an answer into a `Sample`.
 */
module Probe {
  import opened Wrappers

  /** The `Sample` dataclass; `feedback` is never set by the harness. */
  datatype Sample = Sample(
    ok: bool,
    status: int,
    latencyMs: int,
    count: Option<int>,
    noAnswer: Option<bool>,
    feedback: Option<int>)

  /** What `int(data.get("count"))` does with the decoded `count` field. */
  datatype CountField =
    | Missing              // the key is absent or null: `count` stays `None`
    | Convertible(n: int)  // `int(...)` returns `n`
    | Inconvertible        // `int(...)` raises

  /**
   * The response body as `run_query` sees it. `noAnswer` is `None` when the
   * key is absent or null, otherwise the truthiness `bool(...)` of its value.
   */
  datatype Body =
    | Unparsable       // `r.json()` raises
    | NonObject        // decoded, but the value has no `get` (not a JSON object)
    | Object(count: CountField, noAnswer: Option<bool>)

  /** Outcome of one call of the probe from the measurement loop. */
  datatype Outcome =
    | Raised                                          // `requests.post` raised
    | Answered(status: int, latencyMs: nat, body: Body)

  /** Whether the body of a 200 response can be read without an exception. */
  function Readable(body: Body): (readable: bool)
    ensures readable ==> body.Object? && (body.count.Missing? || body.count.Convertible?)
    ensures body.Object? && !readable ==> body.count.Inconvertible?
  {
    body.Object? && !body.count.Inconvertible?
  }

  /**
   * The sample `run_query` returns for an answer: `ok` starts as
   * `status == 200` and is cleared when reading the body raises.
   */
  function BuildSample(status: int, latencyMs: int, body: Body): (s: Sample)
    ensures s.status == status && s.latencyMs == latencyMs && s.feedback == None
    ensures s.ok <==> status == 200 && Readable(body)
    ensures !s.ok ==> s.count == None && s.noAnswer == None
    ensures s.ok ==> s.noAnswer == body.noAnswer
    ensures s.ok ==> (s.count == None <==> body.count == Missing)
    ensures s.ok && s.count.Some? ==> body.count == Convertible(s.count.value)
  {
    if status != 200 then
      Sample(false, status, latencyMs, None, None, None)
    else
      match body
      case Unparsable => Sample(false, status, latencyMs, None, None, None)
      case NonObject => Sample(false, status, latencyMs, None, None, None)
      case Object(count, noAnswer) =>
        match count
        case Inconvertible => Sample(false, status, latencyMs, None, None, None)
        case Missing => Sample(true, status, latencyMs, None, noAnswer, None)
        case Convertible(n) => Sample(true, status, latencyMs, Some(n), noAnswer, None)
  }

  /** The sample recorded when the probe raises: status -1, no latency, nothing read. */
  const Sentinel: Sample := Sample(false, -1, 0, None, None, None)

  /** The sample the measurement loop appends for one outcome. */
  function SampleOf(o: Outcome): (s: Sample)
    ensures s.feedback == None
    ensures s.ok ==> s.status == 200 && s.latencyMs >= 0
    ensures o.Raised? ==> s == Sentinel
    ensures o.Answered? ==> s.status == o.status && s.latencyMs == o.latencyMs
  {
    match o
    case Raised => Sentinel
    case Answered(status, latencyMs, body) => BuildSample(status, latencyMs, body)
  }
}
