/** The retry loop, its backoff and its counters, from common/src/retry_policy.rs. */
module Retries {
  import opened Wrappers

  datatype RetryConfig = RetryConfig(
    maxRetries: nat, initialDelay: nat, maxDelay: nat, jitter: real, backoffFactor: real, enabled: bool)

  /** The average of retries per success, as the quotient that was last computed. */
  datatype Average = Zero | Quotient(retries: nat, successes: nat)

  datatype RetryMetrics = RetryMetrics(
    totalRetries: nat, successfulRetries: nat, failedRetries: nat, averageRetries: Average)

  const NO_METRICS := RetryMetrics(0, 0, 0, Zero)

  // ---------- Backoff ----------

  /** A cast from a real number to an unsigned integer: it truncates, and negative numbers become 0. */
  function Truncate(x: real): (r: nat) {
    if x < 0.0 then 0 else x.Floor
  }

  function Scaled(delay: nat, factor: real): (r: nat) {
    Truncate(delay as real * factor)
  }

  function NextDelay(c: RetryConfig, delay: nat): (r: nat) {
    Min(Scaled(delay, c.backoffFactor), c.maxDelay)
  }

  /** The delay before jitter of the wait that follows call `i`. */
  function BaseDelay(c: RetryConfig, i: nat): (r: nat) {
    if i == 0 then c.initialDelay else NextDelay(c, BaseDelay(c, i - 1))
  }

  function Factor(c: RetryConfig, u: real): (r: real) {
    1.0 + u * c.jitter
  }

  /** A wait on the given base delay, for the random draw `u`. */
  function Jittered(c: RetryConfig, delay: nat, u: real): (r: nat) {
    Scaled(delay, Factor(c, u))
  }

  /** The first `n` waits of a run, for the random draws `draw`. */
  function Waits(c: RetryConfig, draw: nat -> real, n: nat): (r: seq<nat>)
    ensures |r| == n
  {
    if n == 0 then [] else Waits(c, draw, n - 1) + [Jittered(c, BaseDelay(c, n - 1), draw(n - 1))]
  }

  lemma NextExact(c: RetryConfig, delay: nat, grown: real, r: nat)
    requires grown == delay as real * c.backoffFactor && grown >= 0.0 && r == NextDelay(c, delay)
    ensures r == if grown < c.maxDelay as real then grown.Floor else c.maxDelay
  {
  }

  /** The delays before jitter, exactly: the first is the initial one, and each further one is the one before
      it times the factor, without the fraction, or the maximum if that is less. */
  lemma BaseDelayExact(c: RetryConfig, i: nat, grown: real)
    requires grown == BaseDelay(c, i) as real * c.backoffFactor && grown >= 0.0
    ensures BaseDelay(c, 0) == c.initialDelay
    ensures BaseDelay(c, i + 1) == if grown < c.maxDelay as real then grown.Floor else c.maxDelay
  {
    NextExact(c, BaseDelay(c, i), grown, NextDelay(c, BaseDelay(c, i)));
  }

  /** The i-th wait of a run belongs to the i-th delay and the i-th draw. */
  lemma {:induction false} WaitAt(c: RetryConfig, draw: nat -> real, n: nat, i: nat)
    requires i < n
    ensures Waits(c, draw, n)[i] == Jittered(c, BaseDelay(c, i), draw(i))
    decreases n
  {
    if i < n - 1 { WaitAt(c, draw, n - 1, i); }
  }

  /** A wait, exactly: on top of the delay comes the draw's share of the jitter, and the fraction is cut off. */
  lemma JitteredExact(c: RetryConfig, delay: nat, u: real, factor: real, wait: real)
    requires factor == 1.0 + u * c.jitter && wait == delay as real * factor && wait >= 0.0
    ensures Jittered(c, delay, u) == wait.Floor
  {
  }

  function Pow(b: nat, e: nat): (r: nat) {
    if e == 0 then 1 else b * Pow(b, e - 1)
  }

  lemma PowStep(d: nat, b: nat, i: nat)
    requires i > 0
    ensures d * Pow(b, i) == (d * Pow(b, i - 1)) * b
  {
    assert Pow(b, i) == b * Pow(b, i - 1);
  }

  lemma ClosedFormStep(c: RetryConfig, b: nat, d: nat, delay: nat)
    requires b >= 1 && c.backoffFactor == b as real && (delay == d || delay == Min(d, c.maxDelay))
    ensures NextDelay(c, delay) == Min(d * b, c.maxDelay)
  {
  }

  /** With an integer factor, the i-th base delay after the first is min(initial * b^i, max). The first
      delay itself is not capped. */
  lemma {:induction false} BaseDelayClosedForm(c: RetryConfig, b: nat, i: nat)
    requires b >= 1 && c.backoffFactor == b as real && i >= 1
    ensures BaseDelay(c, i) == Min(c.initialDelay * Pow(b, i), c.maxDelay)
  {
    PowStep(c.initialDelay, b, i);
    if i == 1 {
      ClosedFormStep(c, b, c.initialDelay, c.initialDelay);
    } else {
      BaseDelayClosedForm(c, b, i - 1);
      ClosedFormStep(c, b, c.initialDelay * Pow(b, i - 1), BaseDelay(c, i - 1));
    }
  }

  lemma ScaleMonotone(d: nat, x: real, y: real)
    requires x <= y
    ensures Scaled(d, x) <= Scaled(d, y)
  {
    assert d as real * (y - x) >= 0.0;
    assert d as real * x <= d as real * y;
  }

  /** For every factor of at least 1 the base delays after the first never shrink and stay capped. */
  lemma BaseDelayGrows(c: RetryConfig, i: nat)
    requires c.backoffFactor >= 1.0 && i >= 1
    ensures BaseDelay(c, i) <= BaseDelay(c, i + 1) <= c.maxDelay
  {
    ScaleMonotone(BaseDelay(c, i), 1.0, c.backoffFactor);
  }

  lemma ShareOfJitter(u: real, j: real)
    requires 0.0 <= u < 1.0 && j >= 0.0
    ensures 0.0 <= u * j <= j
  {
    assert (1.0 - u) * j >= 0.0;
  }

  lemma ScaleBetween(d: nat, share: real, most: real)
    requires 0.0 <= share <= most
    ensures d <= Scaled(d, 1.0 + share) <= Scaled(d, 1.0 + most)
  {
    ScaleMonotone(d, 1.0, 1.0 + share);
    ScaleMonotone(d, 1.0 + share, 1.0 + most);
  }

  /** Jitter only lengthens a wait, by at most the jitter's share. */
  lemma WaitBounds(c: RetryConfig, delay: nat, u: real)
    requires 0.0 <= u < 1.0 && c.jitter >= 0.0
    ensures delay <= Jittered(c, delay, u) <= Scaled(delay, 1.0 + c.jitter)
  {
    ShareOfJitter(u, c.jitter);
    ScaleBetween(delay, u * c.jitter, c.jitter);
  }

  // ---------- Counters over many runs ----------

  /** One enabled run: how often it called the operation, and whether it succeeded. */
  datatype Outcome = Outcome(calls: nat, ok: bool)

  function AfterRun(m: RetryMetrics, run: Outcome): (r: RetryMetrics)
    requires run.calls > 0
  {
    var total := m.totalRetries + run.calls - 1;
    if run.ok then
      RetryMetrics(total, m.successfulRetries + 1, m.failedRetries, Quotient(total, m.successfulRetries + 1))
    else m.(totalRetries := total, failedRetries := m.failedRetries + 1)
  }

  ghost predicate Runs(runs: seq<Outcome>) {
    forall i | 0 <= i < |runs| :: runs[i].calls > 0
  }

  function MetricsAfter(runs: seq<Outcome>): (r: RetryMetrics)
    requires Runs(runs)
    decreases |runs|
  {
    if runs == [] then NO_METRICS else AfterRun(MetricsAfter(runs[..|runs| - 1]), runs[|runs| - 1])
  }

  ghost function CallsIn(runs: seq<Outcome>): nat
    decreases |runs|
  {
    if runs == [] then 0 else CallsIn(runs[..|runs| - 1]) + runs[|runs| - 1].calls
  }

  ghost function Successes(runs: seq<Outcome>): nat
    decreases |runs|
  {
    if runs == [] then 0 else Successes(runs[..|runs| - 1]) + if runs[|runs| - 1].ok then 1 else 0
  }

  /** Over every sequence of enabled runs, every call of the operation is counted exactly once: as a
      retry, or as the success or the failure that its run ends with. */
  lemma {:induction false} CallsAreConserved(runs: seq<Outcome>)
    requires Runs(runs)
    ensures var m := MetricsAfter(runs);
            && CallsIn(runs) == m.totalRetries + m.successfulRetries + m.failedRetries
            && m.successfulRetries == Successes(runs)
            && m.successfulRetries + m.failedRetries == |runs|
    decreases |runs|
  {
    if runs != [] { CallsAreConserved(runs[..|runs| - 1]); }
  }

  /** No run since the last success has failed after a retry. */
  ghost predicate NoRetryLostSince(runs: seq<Outcome>)
    decreases |runs|
  {
    runs != [] && !runs[|runs| - 1].ok ==>
      runs[|runs| - 1].calls == 1 && NoRetryLostSince(runs[..|runs| - 1])
  }

  /** The runs up to the last success. */
  ghost function UpToLastSuccess(runs: seq<Outcome>): (r: seq<Outcome>)
    ensures |r| <= |runs|
    decreases |runs|
  {
    if runs == [] || runs[|runs| - 1].ok then runs else UpToLastSuccess(runs[..|runs| - 1])
  }

  /** The reported average divides by all successful runs, but counts the retries up to the last
      success only: it is never too high, and exact if and only if no run since then has failed after
      a retry. */
  lemma {:induction false} AverageRetriesMeaning(runs: seq<Outcome>)
    requires Runs(runs) && Successes(runs) > 0
    ensures var m := MetricsAfter(runs);
            && m.averageRetries.Quotient?
            && m.averageRetries.successes == Successes(runs)
            && m.averageRetries.retries == CallsIn(UpToLastSuccess(runs)) - |UpToLastSuccess(runs)|
            && m.averageRetries.retries <= m.totalRetries
            && (m.averageRetries.retries == m.totalRetries <==> NoRetryLostSince(runs))
    decreases |runs|
  {
    var before := runs[..|runs| - 1];
    CallsAreConserved(before);
    CallsAreConserved(runs);
    if Successes(before) > 0 { AverageRetriesMeaning(before); }
  }

  datatype RetryStats = RetryStats(
    totalAttempts: nat, successfulAttempts: nat, failedAttempts: nat, averageRetries: Average)

  function StatsOf(m: RetryMetrics): (r: RetryStats) {
    RetryStats(m.totalRetries + m.successfulRetries, m.successfulRetries, m.failedRetries, m.averageRetries)
  }

  /** The legacy statistics report fewer attempts than there were calls: the last call of every failed
      run is missing. */
  lemma {:induction false} StatsMissFailedRuns(runs: seq<Outcome>)
    requires Runs(runs)
    ensures var stats := StatsOf(MetricsAfter(runs));
            && stats.totalAttempts == CallsIn(runs) - stats.failedAttempts
            && stats.failedAttempts == |runs| - Successes(runs)
            && stats.successfulAttempts == Successes(runs)
            && stats.averageRetries == MetricsAfter(runs).averageRetries
  {
    CallsAreConserved(runs);
  }

  // ---------- The policy object ----------

  /** An error as the operation gave it, or with the note after how many retries it was the last. */
  datatype Failure<E> = Plain(error: E) | FailedAfter(retries: nat, error: E)

  /** What `retry` makes of the answer of its last call. */
  function Reported<T, E>(r: Result<T, E>, enabled: bool, retries: nat): (o: Result<T, Failure<E>>) {
    match r
    case Ok(value) => Ok(value)
    case Err(error) => Err(if enabled then FailedAfter(retries, error) else Plain(error))
  }

  class RetryPolicy {
    var config: RetryConfig
    var metrics: RetryMetrics

    constructor (config: RetryConfig)
      ensures this.config == config && metrics == NO_METRICS
    {
      this.config, this.metrics := config, NO_METRICS;
    }

    method Record(retries: nat, ok: bool)
      modifies this`metrics
      ensures metrics == AfterRun(old(metrics), Outcome(retries + 1, ok))
    {
      var total := metrics.totalRetries + retries;
      if ok {
        var successes := metrics.successfulRetries + 1;
        metrics := RetryMetrics(total, successes, metrics.failedRetries, Quotient(total, successes));
      } else {
        metrics := metrics.(totalRetries := total, failedRetries := metrics.failedRetries + 1);
      }
    }

    /** `f(i)` is the answer of the i-th call of the operation and `draw(i)` the random number of the
        i-th wait. */
    method Retry<T, E>(f: nat -> Result<T, E>, draw: nat -> real)
        returns (result: Result<T, Failure<E>>, calls: nat, waits: seq<nat>)
      modifies this`metrics
      // The first success is returned, and a failure only after the allowed number of retries.
      ensures 1 <= calls <= config.maxRetries + 1
      ensures result.Ok? <==> f(calls - 1).Ok?
      ensures result.Ok? ==> result.value == f(calls - 1).value
      ensures result.Err? && config.enabled ==> result.error == FailedAfter(config.maxRetries, f(calls - 1).error)
      ensures result.Err? && !config.enabled ==> result.error == Plain(f(calls - 1).error)
      ensures config.enabled ==> forall i | 0 <= i < calls - 1 :: f(i).Err?
      ensures config.enabled && result.Err? ==> calls == config.maxRetries + 1
      ensures config.enabled ==> metrics == AfterRun(old(metrics), Outcome(calls, result.Ok?))
      // One wait between any two calls.
      ensures waits == Waits(config, draw, calls - 1)
      // A disabled policy calls once and counts nothing.
      ensures !config.enabled ==> calls == 1 && metrics == old(metrics)
    {
      if !config.enabled { return Reported(f(0), false, 0), 1, []; }
      var retries, delay := 0, config.initialDelay;
      waits := [];
      while true
        invariant retries <= config.maxRetries && metrics == old(metrics)
        invariant delay == BaseDelay(config, retries) && waits == Waits(config, draw, retries)
        invariant forall i | 0 <= i < retries :: f(i).Err?
        decreases config.maxRetries - retries
      {
        result, calls := Reported(f(retries), true, retries), retries + 1;
        if result.Ok? {
          Record(retries, true);
          return;
        }
        if retries >= config.maxRetries {
          Record(retries, false);
          return;
        }
        waits := waits + [Jittered(config, delay, draw(retries))];
        retries := retries + 1;
        delay := NextDelay(config, delay);
      }
    }

    method GetStats() returns (stats: RetryStats)
      ensures stats == StatsOf(metrics)
    {
      stats := RetryStats(metrics.totalRetries + metrics.successfulRetries, metrics.successfulRetries,
                          metrics.failedRetries, metrics.averageRetries);
    }

    method Reconfigure(config: RetryConfig)
      modifies this`config
      ensures this.config == config
    {
      this.config := config;
    }
  }
}
