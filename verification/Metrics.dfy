/** src/metrics.rs: the counters as a value with one function per atomic operation, the class that
    performs those operations in order, and the list of observations the histogram stands for. */
module Metrics {
  const LATENCY_BUCKETS_MS: seq<nat> := [1, 5, 10, 25, 50, 100, 250, 500, 1000]

  datatype Outcome = Ok | Error | Timeout

  /** `inFlight` is an `int` so that a decrement below zero would be visible; it is shown not to happen. */
  datatype Counters = Counters(
    requests: nat, inFlight: int, ok: nat, error: nat, timeout: nat,
    queueFull: nat, invalid: nat, latencySum: nat, latencyCount: nat, histogram: seq<nat>)

  const ZERO := Counters(0, 0, 0, 0, 0, 0, 0, 0, 0, [0, 0, 0, 0, 0, 0, 0, 0, 0])

  // The atomic operations of begin_request, in order.

  function CountRequest(c: Counters): Counters { c.(requests := c.requests + 1) }

  function EnterFlight(c: Counters): Counters { c.(inFlight := c.inFlight + 1) }

  // The two kinds of refusal.

  function CountQueueFull(c: Counters): Counters { c.(queueFull := c.queueFull + 1) }

  function CountInvalid(c: Counters): Counters { c.(invalid := c.invalid + 1) }

  // The atomic operations of finish_request: stage 0 to 4, the last one under the histogram lock.

  const FINISH_STAGES := 5

  function FinishStage(c: Counters, stage: nat, outcome: Outcome, latency: nat): Counters
    requires stage < FINISH_STAGES
  {
    match stage
    case 0 => c.(inFlight := c.inFlight - 1)
    case 1 => (match outcome
               case Ok => c.(ok := c.ok + 1)
               case Error => c.(error := c.error + 1)
               case Timeout => c.(timeout := c.timeout + 1))
    case 2 => c.(latencySum := c.latencySum + latency)
    case 3 => c.(latencyCount := c.latencyCount + 1)
    case 4 => c.(histogram := Bumped(c.histogram, latency))
  }

  function Bumped(histogram: seq<nat>, latency: nat): seq<nat> {
    seq(|histogram|, i requires 0 <= i < |histogram| =>
      if i < |LATENCY_BUCKETS_MS| && latency <= LATENCY_BUCKETS_MS[i] then histogram[i] + 1 else histogram[i])
  }

  function Finished(c: Counters, outcome: Outcome, latency: nat): Counters {
    var left := FinishStage(c, 0, outcome, latency);
    var counted := FinishStage(left, 1, outcome, latency);
    var summed := FinishStage(counted, 2, outcome, latency);
    FinishStage(FinishStage(summed, 3, outcome, latency), 4, outcome, latency)
  }

  // What the counters mean: the list of finished requests.

  datatype Observation = Observation(outcome: Outcome, latency: nat)

  function CountOf(log: seq<Observation>, outcome: Outcome): nat {
    if log == [] then 0
    else CountOf(log[..|log| - 1], outcome) + if log[|log| - 1].outcome == outcome then 1 else 0
  }

  function AtMost(log: seq<Observation>, bound: nat): nat {
    if log == [] then 0
    else AtMost(log[..|log| - 1], bound) + if log[|log| - 1].latency <= bound then 1 else 0
  }

  function TotalLatency(log: seq<Observation>): nat {
    if log == [] then 0 else TotalLatency(log[..|log| - 1]) + log[|log| - 1].latency
  }

  ghost predicate Agrees(c: Counters, log: seq<Observation>) {
    && c.ok == CountOf(log, Ok) && c.error == CountOf(log, Error) && c.timeout == CountOf(log, Timeout)
    && c.latencySum == TotalLatency(log)
    && c.latencyCount == |log|
    && |c.histogram| == |LATENCY_BUCKETS_MS|
    && forall i | 0 <= i < |c.histogram| :: c.histogram[i] == AtMost(log, LATENCY_BUCKETS_MS[i])
  }

  /** One finish_request call is one more observation, for every counter and every bucket. */
  lemma FinishRecordsObservation(c: Counters, log: seq<Observation>, outcome: Outcome, latency: nat)
    requires Agrees(c, log)
    ensures Agrees(Finished(c, outcome, latency), log + [Observation(outcome, latency)])
  {
  }

  lemma {:induction false} AtMostMonotone(log: seq<Observation>, low: nat, high: nat)
    requires low <= high
    ensures AtMost(log, low) <= AtMost(log, high) <= |log|
  {
    if log != [] {
      AtMostMonotone(log[..|log| - 1], low, high);
    }
  }

  lemma {:induction false} OutcomesPartition(log: seq<Observation>)
    ensures CountOf(log, Ok) + CountOf(log, Error) + CountOf(log, Timeout) == |log|
  {
    if log != [] {
      OutcomesPartition(log[..|log| - 1]);
    }
  }

  /** What `render` writes of the latency family: the finite buckets in order, then `+Inf`. */
  datatype LatencyPage = LatencyPage(sum: nat, finite: seq<nat>, inf: nat)

  /** The samples of the metrics page, family by family. */
  datatype Page = Page(
    requests: nat, inFlight: int, poolSize: nat, poolMax: nat,
    ok: nat, error: nat, timeout: nat, queueFull: nat, invalid: nat, latency: LatencyPage)

  ghost predicate Cumulative(page: LatencyPage) {
    && (forall i, j | 0 <= i <= j < |page.finite| :: page.finite[i] <= page.finite[j])
    && (forall i | 0 <= i < |page.finite| :: page.finite[i] <= page.inf)
  }

  class Registry {
    var requestsTotal: nat
    var okTotal: nat
    var errorTotal: nat
    var timeoutTotal: nat
    var queueFullTotal: nat
    var validationErrorsTotal: nat
    var inFlight: int
    var latencyMsSum: nat
    var latencyCount: nat
    var poolWorkersCurrent: nat
    var poolWorkersMax: nat
    const latencyHistogram: array<nat>
    ghost var log: seq<Observation>

    ghost function Snapshot(): Counters
      reads this, latencyHistogram
    {
      Counters(requestsTotal, inFlight, okTotal, errorTotal, timeoutTotal, queueFullTotal,
               validationErrorsTotal, latencyMsSum, latencyCount, latencyHistogram[..])
    }

    ghost predicate Valid()
      reads this, latencyHistogram
    {
      Agrees(Snapshot(), log)
    }

    constructor ()
      ensures Valid() && fresh(latencyHistogram)
      ensures Snapshot() == ZERO && log == []
    {
      requestsTotal, okTotal, errorTotal, timeoutTotal := 0, 0, 0, 0;
      queueFullTotal, validationErrorsTotal, inFlight := 0, 0, 0;
      latencyMsSum, latencyCount := 0, 0;
      poolWorkersCurrent, poolWorkersMax := 0, 0;
      latencyHistogram := new nat[|LATENCY_BUCKETS_MS|](_ => 0);
      log := [];
      new;
      assert latencyHistogram[..] == ZERO.histogram;
    }

    method BeginRequest()
      requires Valid()
      modifies this
      ensures Valid() && log == old(log)
      ensures Snapshot() == EnterFlight(CountRequest(old(Snapshot())))
    {
      requestsTotal := requestsTotal + 1;
      inFlight := inFlight + 1;
    }

    /** The locked loop of finish_request over the buckets. */
    method RecordLatency(latency: nat)
      requires latencyHistogram.Length == |LATENCY_BUCKETS_MS|
      modifies latencyHistogram
      ensures latencyHistogram[..] == Bumped(old(latencyHistogram[..]), latency)
    {
      for i := 0 to latencyHistogram.Length
        invariant forall j | 0 <= j < i ::
                    latencyHistogram[j] == old(latencyHistogram[j]) + if latency <= LATENCY_BUCKETS_MS[j] then 1 else 0
        invariant forall j | i <= j < latencyHistogram.Length :: latencyHistogram[j] == old(latencyHistogram[j])
      {
        if latency <= LATENCY_BUCKETS_MS[i] {
          latencyHistogram[i] := latencyHistogram[i] + 1;
        }
      }
    }

    method FinishRequest(outcome: Outcome, latency: nat)
      requires Valid()
      modifies this, latencyHistogram
      ensures Valid() && log == old(log) + [Observation(outcome, latency)]
      ensures Snapshot() == Finished(old(Snapshot()), outcome, latency)
    {
      FinishRecordsObservation(Snapshot(), log, outcome, latency);
      inFlight := inFlight - 1;
      match outcome {
        case Ok => okTotal := okTotal + 1;
        case Error => errorTotal := errorTotal + 1;
        case Timeout => timeoutTotal := timeoutTotal + 1;
      }
      latencyMsSum := latencyMsSum + latency;
      latencyCount := latencyCount + 1;
      RecordLatency(latency);
      log := log + [Observation(outcome, latency)];
    }

    method NoteQueueFull()
      requires Valid()
      modifies this
      ensures Valid() && log == old(log)
      ensures Snapshot() == CountQueueFull(old(Snapshot()))
    {
      queueFullTotal := queueFullTotal + 1;
    }

    method NoteValidationError()
      requires Valid()
      modifies this
      ensures Valid() && log == old(log)
      ensures Snapshot() == CountInvalid(old(Snapshot()))
    {
      validationErrorsTotal := validationErrorsTotal + 1;
    }

    method SetPoolWorkers(current: nat, max: nat)
      requires Valid()
      modifies this
      ensures Valid() && log == old(log) && Snapshot() == old(Snapshot())
      ensures poolWorkersCurrent == current && poolWorkersMax == max
    {
      poolWorkersCurrent, poolWorkersMax := current, max;
    }

    /** The count is loaded first and everything else after it; with no call in between, as here, the latency
        family is a cumulative histogram of the finished requests and the three outcomes add up to its
        `+Inf` line. */
    method Render() returns (page: Page)
      requires Valid()
      ensures Cumulative(page.latency)
      ensures page.latency.inf == |log| == page.ok + page.error + page.timeout
      ensures page.latency.sum == TotalLatency(log)
      ensures page.latency.finite
           == [AtMost(log, 1), AtMost(log, 5), AtMost(log, 10), AtMost(log, 25), AtMost(log, 50),
               AtMost(log, 100), AtMost(log, 250), AtMost(log, 500), AtMost(log, 1000)]
      ensures page.ok == CountOf(log, Ok) && page.error == CountOf(log, Error) && page.timeout == CountOf(log, Timeout)
      ensures page.requests == requestsTotal && page.inFlight == inFlight
      ensures page.queueFull == queueFullTotal && page.invalid == validationErrorsTotal
      ensures page.poolSize == poolWorkersCurrent && page.poolMax == poolWorkersMax
    {
      var count := latencyCount;
      page := Page(requestsTotal, inFlight, poolWorkersCurrent, poolWorkersMax, okTotal, errorTotal, timeoutTotal,
                   queueFullTotal, validationErrorsTotal, LatencyPage(latencyMsSum, [], count));
      var finite: seq<nat> := [];
      for i := 0 to latencyHistogram.Length
        invariant finite == latencyHistogram[..i]
      {
        finite := finite + [latencyHistogram[i]];
      }
      page := page.(latency := page.latency.(finite := finite));
      assert finite == latencyHistogram[..];
      forall i, j | 0 <= i <= j < |finite|
        ensures finite[i] <= finite[j] <= count
      {
        AtMostMonotone(log, LATENCY_BUCKETS_MS[i], LATENCY_BUCKETS_MS[j]);
      }
      OutcomesPartition(log);
    }
  }
}
