/**
 * `getWithRetry`: one upstream GET retried with exponential backoff.
 *
 * The network is abstracted as `respond`, which gives the outcome of the attempt with a given
 * zero-based index; the sleeps become the sequence of waits the loop would take, in milliseconds.
 */
module Retry {
  import opened Common

  /** Extra attempts after the first one. */
  const MaxRetries: nat := 3
  /** Wait before the first retry, in milliseconds. */
  const BaseBackoffMs: nat := 500

  /** A failed request; `status` is the HTTP status of the response, absent for network or timeout failures. */
  datatype HttpError = HttpError(status: Option<int>)

  /** What one attempt yields: the response body, or an error. */
  datatype Attempt<T> = Response(data: T) | Failure(error: HttpError)

  /** Everything one call of `getWithRetry` decides: its result, how many attempts it made and its waits. */
  datatype RetryRun<T> = RetryRun(result: Result<T, HttpError>, attempts: nat, waits: seq<nat>)

  /**
   * An error is retried when it carries no status (a missing or zero status is falsy), a server-error
   * status (5xx and above) or 429; every other status is fatal.
   */
  predicate IsRetryable(e: HttpError)
    ensures e.status.None? ==> IsRetryable(e)
    ensures e.status == Some(0) ==> IsRetryable(e)
    ensures e.status.Some? && e.status.value >= 500 ==> IsRetryable(e)
    ensures e.status == Some(429) ==> IsRetryable(e)
    ensures e.status.Some? && 0 < e.status.value < 500 && e.status.value != 429 ==> !IsRetryable(e)
  {
    e.status.None? || e.status.value == 0 || e.status.value >= 500 || e.status.value == 429
  }

  predicate IsRetryableFailure<T>(a: Attempt<T>) {
    a.Failure? && IsRetryable(a.error)
  }

  function Pow2(n: nat): (r: nat)
    ensures r >= 1
  {
    if n == 0 then 1 else 2 * Pow2(n - 1)
  }

  /** The wait taken after the `attempt`-th failure (attempts counted from 1). */
  function Backoff(attempt: nat): (r: nat)
    requires attempt >= 1
    ensures r >= BaseBackoffMs
    ensures attempt == 1 ==> r == BaseBackoffMs
  {
    BaseBackoffMs * Pow2(attempt - 1)
  }

  /** Each retry waits twice as long as the one before it. */
  lemma BackoffDoubles(attempt: nat)
    requires attempt >= 2
    ensures Backoff(attempt) == 2 * Backoff(attempt - 1)
  {
    assert Pow2(attempt - 1) == 2 * Pow2(attempt - 2);
  }

  /** The waits taken after failures number `lo` up to `hi - 1`. */
  function Backoffs(lo: nat, hi: nat): (r: seq<nat>)
    requires 1 <= lo <= hi
    decreases hi - lo
    ensures |r| == hi - lo
    ensures forall k :: 0 <= k < |r| ==> r[k] == Backoff(lo + k)
  {
    if lo == hi then [] else [Backoff(lo)] + Backoffs(lo + 1, hi)
  }

  /** The run, once `failures` attempts have failed with a retryable error. */
  function RunFrom<T>(respond: nat -> Attempt<T>, failures: nat): (r: RetryRun<T>)
    requires failures <= MaxRetries
    decreases MaxRetries - failures
    ensures failures + 1 <= r.attempts <= MaxRetries + 1
    ensures |r.waits| == r.attempts - failures - 1
    ensures r.result.Ok? ==> respond(r.attempts - 1) == Response(r.result.value)
    ensures r.result.Err? ==> respond(r.attempts - 1) == Failure(r.result.error)
  {
    match respond(failures)
    case Response(d) => RetryRun(Ok(d), failures + 1, [])
    case Failure(e) =>
      var attempt := failures + 1;
      if !IsRetryable(e) || attempt > MaxRetries then RetryRun(Err(e), attempt, [])
      else
        var rest := RunFrom(respond, attempt);
        RetryRun(rest.result, rest.attempts, [Backoff(attempt)] + rest.waits)
  }

  /** The specification of `getWithRetry`. */
  function Run<T>(respond: nat -> Attempt<T>): (r: RetryRun<T>)
    ensures 1 <= r.attempts <= MaxRetries + 1
    ensures |r.waits| == r.attempts - 1
  {
    RunFrom(respond, 0)
  }

  /** The run `r` with the waits `w` already slept put in front of its own. */
  function After<T>(w: seq<nat>, r: RetryRun<T>): RetryRun<T> {
    RetryRun(r.result, r.attempts, w + r.waits)
  }

  /** The retry loop of `getWithRetry`, recording the waits it sleeps. */
  method GetWithRetry<T>(respond: nat -> Attempt<T>) returns (run: RetryRun<T>)
    ensures run == Run(respond)
  {
    var attempt: nat := 0;
    var waits: seq<nat> := [];
    assert After(waits, RunFrom(respond, 0)) == Run(respond);
    while true
      invariant attempt <= MaxRetries
      invariant After(waits, RunFrom(respond, attempt)) == Run(respond)
      decreases MaxRetries - attempt
    {
      var outcome := respond(attempt);
      match outcome {
        case Response(d) =>
          StopStep(respond, attempt, waits);
          return RetryRun(Ok(d), attempt + 1, waits);
        case Failure(e) =>
          attempt := attempt + 1;
          if !IsRetryable(e) || attempt > MaxRetries {
            StopStep(respond, attempt - 1, waits);
            return RetryRun(Err(e), attempt, waits);
          }
          var wait := BaseBackoffMs * Pow2(attempt - 1);
          RetryStep(respond, attempt - 1, waits);
          waits := waits + [wait];
      }
    }
  }

  /** A success, a fatal error or the last retry ends the run at this attempt. */
  lemma StopStep<T>(respond: nat -> Attempt<T>, failures: nat, waits: seq<nat>)
    requires failures <= MaxRetries
    requires !IsRetryableFailure(respond(failures)) || failures == MaxRetries
    ensures After(waits, RunFrom(respond, failures)) == RetryRun(
      match respond(failures) case Response(d) => Ok(d) case Failure(e) => Err(e), failures + 1, waits)
  {
    assert waits + [] == waits;
  }

  /** A retryable failure with retries left waits its backoff and runs on from the next attempt. */
  lemma RetryStep<T>(respond: nat -> Attempt<T>, failures: nat, waits: seq<nat>)
    requires failures < MaxRetries && IsRetryableFailure(respond(failures))
    ensures After(waits, RunFrom(respond, failures)) ==
            After(waits + [BaseBackoffMs * Pow2(failures)], RunFrom(respond, failures + 1))
  {
    var later := RunFrom(respond, failures + 1).waits;
    assert waits + ([Backoff(failures + 1)] + later) == (waits + [Backoff(failures + 1)]) + later;
  }

  /**
   * The whole shape of a run that starts after `failures` retryable failures: it stops at attempt
   * `attempts`, every attempt before that one failed retryably, the waits are the backoffs of those
   * failures, and the result is the last attempt's data, or its error when that error is fatal or
   * the retries are used up.
   */
  lemma {:induction false} RunFromShape<T>(respond: nat -> Attempt<T>, failures: nat)
    requires failures <= MaxRetries
    ensures var r := RunFrom(respond, failures);
      && failures < r.attempts <= MaxRetries + 1
      && r.waits == Backoffs(failures + 1, r.attempts)
      && (forall k :: failures <= k < r.attempts - 1 ==> IsRetryableFailure(respond(k)))
      && match respond(r.attempts - 1)
         case Response(d) => r.result == Ok(d)
         case Failure(e) => r.result == Err(e) && (!IsRetryable(e) || r.attempts == MaxRetries + 1)
    decreases MaxRetries - failures
  {
    match respond(failures)
    case Response(d) =>
    case Failure(e) =>
      if IsRetryable(e) && failures + 1 <= MaxRetries {
        RunFromShape(respond, failures + 1);
      }
  }

  /** Every run makes between 1 and 4 attempts, waiting 500 * 2^(k-1) ms after the k-th failure. */
  lemma RunBounds<T>(respond: nat -> Attempt<T>)
    ensures 1 <= Run(respond).attempts <= MaxRetries + 1
    ensures |Run(respond).waits| == Run(respond).attempts - 1
    ensures forall k :: 0 <= k < |Run(respond).waits| ==> Run(respond).waits[k] == BaseBackoffMs * Pow2(k)
  {
    RunFromShape(respond, 0);
  }

  /** The waits of a full run are exactly 500, 1000 and 2000 ms. */
  lemma BackoffSchedule()
    ensures Backoffs(1, MaxRetries + 1) == [500, 1000, 2000]
  {
    assert Pow2(2) == 4;
  }

  /**
   * When `f <= 3` retryable failures are followed by a response, the run returns that response's
   * data after `f + 1` attempts and exactly `f` waits.
   */
  lemma {:induction false} SucceedsAfterFailures<T>(respond: nat -> Attempt<T>, f: nat)
    requires f <= MaxRetries
    requires forall k :: 0 <= k < f ==> IsRetryableFailure(respond(k))
    requires respond(f).Response?
    ensures Run(respond) == RetryRun(Ok(respond(f).data), f + 1, Backoffs(1, f + 1))
  {
    RunFromShape(respond, 0);
    var last: nat := Run(respond).attempts - 1;
    assert last < f ==> IsRetryableFailure(respond(last));
    assert last > f ==> IsRetryableFailure(respond(f));
  }

  /** The first successful attempt returns its data at once, without any wait. */
  lemma FirstSuccessReturns<T>(respond: nat -> Attempt<T>)
    requires respond(0).Response?
    ensures Run(respond) == RetryRun(Ok(respond(0).data), 1, [])
  {
  }

  /** A fatal error is rethrown after the first attempt, with no retry and no wait. */
  lemma FatalErrorFailsFast<T>(respond: nat -> Attempt<T>)
    requires respond(0).Failure? && !IsRetryable(respond(0).error)
    ensures Run(respond) == RetryRun(Err(respond(0).error), 1, [])
  {
  }

  /**
   * When `f <= 3` retryable failures are followed by a fatal one, that fatal error is thrown after
   * `f + 1` attempts and `f` waits.
   */
  lemma {:induction false} FatalAfterFailures<T>(respond: nat -> Attempt<T>, f: nat)
    requires f <= MaxRetries
    requires forall k :: 0 <= k < f ==> IsRetryableFailure(respond(k))
    requires respond(f).Failure? && !IsRetryable(respond(f).error)
    ensures Run(respond) == RetryRun(Err(respond(f).error), f + 1, Backoffs(1, f + 1))
  {
    RunFromShape(respond, 0);
    var last: nat := Run(respond).attempts - 1;
    assert last < f ==> IsRetryableFailure(respond(last));
    assert last > f ==> IsRetryableFailure(respond(f));
  }

  /** After the fourth consecutive retryable failure the last error is thrown, after three waits. */
  lemma {:induction false} RetriesExhausted<T>(respond: nat -> Attempt<T>)
    requires forall k :: 0 <= k <= MaxRetries ==> respond(k).Failure? && IsRetryable(respond(k).error)
    ensures Run(respond) == RetryRun(Err(respond(MaxRetries).error), MaxRetries + 1, [500, 1000, 2000])
  {
    RunFromShape(respond, 0);
    BackoffSchedule();
    assert IsRetryableFailure(respond(Run(respond).attempts - 1));
  }

  /** Two 503 responses and then a success: two waits (500 and 1000 ms), then the data. */
  lemma TwoServiceUnavailableThenSuccess<T>(respond: nat -> Attempt<T>, data: T)
    requires respond(0) == Failure(HttpError(Some(503))) && respond(1) == Failure(HttpError(Some(503)))
    requires respond(2) == Response(data)
    ensures Run(respond) == RetryRun(Ok(data), 3, [500, 1000])
  {
    SucceedsAfterFailures(respond, 2);
  }

  /** A 404 response: no retry, the error propagates at once. */
  lemma NotFoundPropagates<T>(respond: nat -> Attempt<T>)
    requires respond(0) == Failure(HttpError(Some(404)))
    ensures Run(respond) == RetryRun(Err(HttpError(Some(404))), 1, [])
  {
  }
}
