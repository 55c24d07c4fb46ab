/** The axios instance of `Frontend/src/services/api.js` and its response interceptor: a
    429 answer is retried on the same request config, whose `_retryCount` counts the
    retries, after a back-off of 2 ** count seconds. Waiting is recorded, not performed. */
module ApiClient {
  import opened Base

  /** What one HTTP attempt gives: a response, or an error with the status of its response
      (`None` when there was no response at all, as on a network failure). */
  datatype Attempt<T> = Ok(value: T) | Failed(status: Option<nat>)

  /** What the error handler decides: re-send after `delay` milliseconds, or reject. */
  datatype Decision = RetryAfter(delay: nat) | Reject

  const MaxRetries: nat := 3

  /** `originalRequest._retryCount || 0`: an unset counter reads as 0. */
  function Count(retryCount: Option<nat>): nat {
    if retryCount.Some? then retryCount.value else 0
  }

  /** `Math.pow(2, count) * 1000` after the counter was raised to `count`. */
  function BackoffMs(count: nat): nat {
    Pow2(count) * 1000
  }

  /** The request config the interceptor receives as `error.config` and re-sends. */
  class RequestConfig {
    var retryCount: Option<nat>

    /** A fresh request carries no counter. */
    constructor()
      ensures retryCount == None
    {
      retryCount := None;
    }

    /** The error handler of the response interceptor. Only a 429 response is retried; the
        counter is defaulted to 0 on every 429, raised by one before each retry, and a retry
        happens only while it is below 3. Everything else is rejected unchanged. */
    method OnError(status: Option<nat>) returns (d: Decision)
      modifies this
      ensures status != Some(429) ==> retryCount == old(retryCount) && d == Reject
      ensures status == Some(429) && Count(old(retryCount)) < MaxRetries ==>
                retryCount == Some(Count(old(retryCount)) + 1) && d == RetryAfter(BackoffMs(Count(old(retryCount)) + 1))
      ensures status == Some(429) && Count(old(retryCount)) >= MaxRetries ==>
                retryCount == Some(Count(old(retryCount))) && d == Reject
    {
      if status.Some? && status.value == 429 {
        retryCount := Some(Count(retryCount));
        if retryCount.value < MaxRetries {
          retryCount := Some(retryCount.value + 1);
          var delay := BackoffMs(retryCount.value);
          return RetryAfter(delay);
        }
      }
      return Reject;
    }
  }

  /** The life of one request that starts with the counter at `count`: `attempts(k)` is what
      attempt `k` gives. The result, the delays waited, and the number of attempts made. */
  datatype Trace<T> = Trace(result: Result<T, Option<nat>>, delays: seq<nat>, made: nat)

  function Lifecycle<T>(attempts: nat -> Attempt<T>, count: nat, k: nat): (t: Trace<T>)
    decreases if count < MaxRetries then MaxRetries - count else 0
  {
    match attempts(k)
    case Ok(v) => Trace(Success(v), [], k + 1)
    case Failed(s) =>
      if s == Some(429) && count < MaxRetries then
        var rest := Lifecycle(attempts, count + 1, k + 1);
        Trace(rest.result, [BackoffMs(count + 1)] + rest.delays, rest.made)
      else Trace(Failure(s), [], k + 1)
  }

  /** `api(request)`: send, and let the interceptor decide after each failure. The config
      keeps the counter across re-sends: it ends raised by one for each retry made. */
  method Send<T>(config: RequestConfig, attempts: nat -> Attempt<T>) returns (t: Trace<T>)
    modifies config
    ensures t == Lifecycle(attempts, Count(old(config.retryCount)), 0)
    ensures Count(config.retryCount) == Count(old(config.retryCount)) + |t.delays|
  {
    var k := 0;
    var delays: seq<nat> := [];
    ghost var start := Count(config.retryCount);
    while true
      invariant Lifecycle(attempts, start, 0)
             == Trace(Lifecycle(attempts, Count(config.retryCount), k).result,
                      delays + Lifecycle(attempts, Count(config.retryCount), k).delays,
                      Lifecycle(attempts, Count(config.retryCount), k).made)
      invariant Count(config.retryCount) == start + |delays|
      decreases if Count(config.retryCount) < MaxRetries then MaxRetries - Count(config.retryCount) else 0
    {
      var a := attempts(k);
      if a.Ok? {
        return Trace(Success(a.value), delays, k + 1);
      }
      ghost var before := Count(config.retryCount);
      var d := config.OnError(a.status);
      if d.Reject? {
        return Trace(Failure(a.status), delays, k + 1);
      }
      assert Count(config.retryCount) == before + 1;
      RetryStep(attempts, before, k, delays);
      delays := delays + [d.delay];
      k := k + 1;
    }
  }

  /** A retried 429 moves its delay from the rest of the life to the delays already waited. */
  lemma RetryStep<T>(attempts: nat -> Attempt<T>, count: nat, k: nat, waited: seq<nat>)
    requires attempts(k) == Failed(Some(429)) && count < MaxRetries
    ensures var t, rest := Lifecycle(attempts, count, k), Lifecycle(attempts, count + 1, k + 1);
      t.result == rest.result && t.made == rest.made
      && waited + t.delays == (waited + [BackoffMs(count + 1)]) + rest.delays
  {
  }

  /** A request whose counter starts at `count` (at most 3): at most 4 - count attempts, one
      delay before each attempt after the first, and the i-th delay is the back-off for the
      counter raised to count + 1 + i. */
  lemma {:induction false} LifecycleBounds<T>(attempts: nat -> Attempt<T>, count: nat, k: nat)
    requires count <= MaxRetries
    ensures var t := Lifecycle(attempts, count, k);
      k < t.made <= k + 1 + (MaxRetries - count)
      && |t.delays| == t.made - k - 1
      && (forall i :: 0 <= i < |t.delays| ==> t.delays[i] == BackoffMs(count + 1 + i))
    decreases MaxRetries - count
  {
    if attempts(k).Failed? && attempts(k).status == Some(429) && count < MaxRetries {
      LifecycleBounds(attempts, count + 1, k + 1);
    }
  }

  /** A request that starts with no counter: at most four attempts; the delays are a prefix
      of 2000, 4000, 8000 ms, one before each attempt after the first; a first success is
      passed through with no delay; an error that is not a 429, with or without a response,
      is rejected as it came, with no further attempt. */
  lemma RequestPolicy<T>(attempts: nat -> Attempt<T>)
    ensures var t := Lifecycle(attempts, 0, 0);
      1 <= t.made <= 4
      && t.delays <= [2000, 4000, 8000]
      && |t.delays| == t.made - 1
      && (attempts(0).Ok? ==> t == Trace(Success(attempts(0).value), [], 1))
      && (attempts(0).Failed? && attempts(0).status != Some(429) ==> t == Trace(Failure(attempts(0).status), [], 1))
  {
    LifecycleBounds(attempts, 0, 0);
    var t := Lifecycle(attempts, 0, 0);
    assert BackoffMs(1) == 2000 && BackoffMs(2) == 4000 && BackoffMs(3) == 8000;
    assert t.delays == [2000, 4000, 8000][..|t.delays|];
  }

  /** Four 429 answers in a row: three retries after 2, 4 and 8 seconds, then the fourth 429
      is rejected. */
  lemma FourthRateLimitRejected<T>(attempts: nat -> Attempt<T>)
    requires forall k :: 0 <= k < 4 ==> attempts(k) == Failed(Some(429))
    ensures Lifecycle(attempts, 0, 0) == Trace(Failure(Some(429)), [2000, 4000, 8000], 4)
  {
    assert BackoffMs(1) == 2000 && BackoffMs(2) == 4000 && BackoffMs(3) == 8000;
    assert attempts(0) == Failed(Some(429)) && attempts(1) == Failed(Some(429));
    assert attempts(2) == Failed(Some(429)) && attempts(3) == Failed(Some(429));
  }

  /** The counter lives on the config: a config that has already been retried three times
      is rejected on its next 429 without waiting. */
  lemma ExhaustedConfigRejects<T>(attempts: nat -> Attempt<T>, count: nat)
    requires count >= MaxRetries && attempts(0) == Failed(Some(429))
    ensures Lifecycle(attempts, count, 0) == Trace(Failure(Some(429)), [], 1)
  {
  }
}
