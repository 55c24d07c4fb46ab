/** The retry-with-backoff loop the Python scripts share:

      for attempt in range(retries):
          try: return call()
          except Exception as e:
              if <e is a rate limit>: time.sleep(delay(attempt))
              else: raise e
      raise <exhaustion error>

    The remote call is an input: `calls(k)` is what attempt `k` returns or raises.
    Sleeping is recorded, not performed: a run lists the delays it would sleep. */
module Retry {
  import opened Base
  import Decimal

  /** What one attempt of the remote call does. */
  datatype Outcome<T> = Ok(value: T) | Err(message: string)

  /** How a retry loop ends. */
  datatype Ending<T> = Returned(value: T) | Reraised(message: string) | Exhausted

  /** The ending, the number of attempts made, and the delays slept, in order. */
  datatype Run<T> = Run(ending: Ending<T>, attempts: nat, sleeps: seq<nat>)

  /** What a Python call raises: FastAPI's `HTTPException(status_code, detail)` or any other
      exception, known by its text. */
  datatype PyError = HttpException(status: nat, detail: string) | Exception(message: string)

  /** The caller's view of a run: the value, the re-raised error, or the caller's own
      error once every attempt was rate-limited. */
  function Finish<T>(e: Ending<T>, exhausted: PyError): Result<T, PyError>
  {
    match e
    case Returned(v) => Success(v)
    case Reraised(m) => Failure(Exception(m))
    case Exhausted => Failure(exhausted)
  }

  /** The attempt raised an error whose text the loop treats as a rate limit. */
  predicate RateLimited<T>(o: Outcome<T>, isLimit: string -> bool) {
    o.Err? && isLimit(o.message)
  }

  /** The first attempt at or after `from` (and before `retries`) that is not rate-limited,
      or `retries` when there is none. */
  function Settle<T>(calls: nat -> Outcome<T>, isLimit: string -> bool, from: nat, retries: nat): (n: nat)
    requires from <= retries
    ensures from <= n <= retries
    ensures forall k :: from <= k < n ==> RateLimited(calls(k), isLimit)
    ensures n < retries ==> !RateLimited(calls(n), isLimit)
    decreases retries - from
  {
    if from == retries || !RateLimited(calls(from), isLimit) then from
    else Settle(calls, isLimit, from + 1, retries)
  }

  /** The delays of the first `n` attempts. */
  function Schedule(delay: nat -> nat, n: nat): (r: seq<nat>)
    ensures |r| == n
    ensures forall i :: 0 <= i < n ==> r[i] == delay(i)
  {
    if n == 0 then [] else Schedule(delay, n - 1) + [delay(n - 1)]
  }

  /** The run the loop performs, in closed form. */
  function Expected<T>(calls: nat -> Outcome<T>, isLimit: string -> bool, retries: nat, delay: nat -> nat): Run<T>
  {
    var n := Settle(calls, isLimit, 0, retries);
    if n == retries then Run(Exhausted, retries, Schedule(delay, retries))
    else
      match calls(n)
      case Ok(v) => Run(Returned(v), n + 1, Schedule(delay, n))
      case Err(m) => Run(Reraised(m), n + 1, Schedule(delay, n))
  }

  /** The loop itself. */
  method RetryLoop<T>(calls: nat -> Outcome<T>, isLimit: string -> bool, retries: nat, delay: nat -> nat)
    returns (run: Run<T>)
    ensures run == Expected(calls, isLimit, retries, delay)
  {
    var sleeps: seq<nat> := [];
    for attempt := 0 to retries
      invariant sleeps == Schedule(delay, attempt)
      invariant forall k :: 0 <= k < attempt ==> RateLimited(calls(k), isLimit)
    {
      match calls(attempt) {
        case Ok(v) =>
          return Run(Returned(v), attempt + 1, sleeps);
        case Err(m) =>
          if isLimit(m) {
            sleeps := sleeps + [delay(attempt)];
          } else {
            return Run(Reraised(m), attempt + 1, sleeps);
          }
      }
    }
    return Run(Exhausted, retries, sleeps);
  }

  /** Bounds and shape of every run: at most `retries` attempts, one sleep after each
      rate-limited failure (the last one included), the schedule's delays in order. */
  lemma ExpectedShape<T>(calls: nat -> Outcome<T>, isLimit: string -> bool, retries: nat, delay: nat -> nat)
    ensures var run := Expected(calls, isLimit, retries, delay);
      run.attempts <= retries
      && (retries > 0 ==> run.attempts >= 1)
      && |run.sleeps| == (if run.ending.Exhausted? then run.attempts else run.attempts - 1)
      && (forall i :: 0 <= i < |run.sleeps| ==> run.sleeps[i] == delay(i))
      && (forall k :: 0 <= k < |run.sleeps| ==> RateLimited(calls(k), isLimit))
  {
  }

  /** The loop gives up exactly when every attempt is rate-limited. */
  lemma ExhaustedIff<T>(calls: nat -> Outcome<T>, isLimit: string -> bool, retries: nat, delay: nat -> nat)
    ensures Expected(calls, isLimit, retries, delay).ending.Exhausted?
        <==> forall k :: 0 <= k < retries ==> RateLimited(calls(k), isLimit)
  {
    var n := Settle(calls, isLimit, 0, retries);
    if forall k :: 0 <= k < retries ==> RateLimited(calls(k), isLimit) {
      assert n == retries;
    }
  }

  /** The loop returns `v` exactly when some attempt returns `v` after only rate-limited failures. */
  lemma ReturnedIff<T>(calls: nat -> Outcome<T>, isLimit: string -> bool, retries: nat, delay: nat -> nat, v: T)
    ensures Expected(calls, isLimit, retries, delay).ending == Returned(v)
        <==> exists n :: 0 <= n < retries && calls(n) == Ok(v)
                      && forall k :: 0 <= k < n ==> RateLimited(calls(k), isLimit)
  {
    var s := Settle(calls, isLimit, 0, retries);
    if exists n :: 0 <= n < retries && calls(n) == Ok(v) && forall k :: 0 <= k < n ==> RateLimited(calls(k), isLimit) {
      var n :| 0 <= n < retries && calls(n) == Ok(v) && forall k :: 0 <= k < n ==> RateLimited(calls(k), isLimit);
      assert s == n;
    }
    if Expected(calls, isLimit, retries, delay).ending == Returned(v) {
      assert calls(s) == Ok(v);
    }
  }

  /** A failure that is not a rate limit ends the loop at once with that same error. */
  lemma ReraisedIff<T>(calls: nat -> Outcome<T>, isLimit: string -> bool, retries: nat, delay: nat -> nat, m: string)
    ensures Expected(calls, isLimit, retries, delay).ending == Reraised(m)
        <==> exists n :: 0 <= n < retries && calls(n) == Err(m) && !isLimit(m)
                      && forall k :: 0 <= k < n ==> RateLimited(calls(k), isLimit)
  {
    var s := Settle(calls, isLimit, 0, retries);
    if exists n :: 0 <= n < retries && calls(n) == Err(m) && !isLimit(m) && forall k :: 0 <= k < n ==> RateLimited(calls(k), isLimit) {
      var n :| 0 <= n < retries && calls(n) == Err(m) && !isLimit(m) && forall k :: 0 <= k < n ==> RateLimited(calls(k), isLimit);
      assert s == n;
    }
    if Expected(calls, isLimit, retries, delay).ending == Reraised(m) {
      assert calls(s) == Err(m);
    }
  }

  // ---------------------------------------------------------------------------
  // The endpoints' exception handler

  /** Starlette's `str()` of an exception: "<status>: <detail>" for an HTTPException. */
  function Str(e: PyError): string {
    match e
    case HttpException(status, detail) => Decimal.NatToString(status) + ": " + detail
    case Exception(message) => message
  }

  /** The handler as written, `except Exception as e: raise HTTPException(500, str(e))`:
      it also catches the HTTPException 429 that the retry helpers raise. */
  function HandleAsWritten<T>(r: Result<T, PyError>): (h: Result<T, PyError>)
  {
    if r.Success? then r else Failure(HttpException(500, Str(r.error)))
  }

  /** As written, an endpoint never answers 429: every error leaves as a 500. */
  lemma HandleAsWrittenOnly500<T>(r: Result<T, PyError>)
    ensures HandleAsWritten(r).Failure? ==> HandleAsWritten(r).error.HttpException?
                                            && HandleAsWritten(r).error.status == 500
    ensures HandleAsWritten(r).Success? <==> r.Success?
  {
  }

  /** The evidently intended handler: an HTTPException raised inside keeps its status and
      detail; any other error becomes a 500 carrying its text. */
  function Handle<T>(r: Result<T, PyError>): (h: Result<T, PyError>)
  {
    if r.Success? || r.error.HttpException? then r else Failure(HttpException(500, r.error.message))
  }

  /** Every error leaves the handler as an HTTP error; a 500 comes out only for a plain
      error or an HTTP 500, so a 429 reaches the client as it was raised; the text of a
      plain error is kept as the detail; handling twice is handling once. */
  lemma HandleShape<T>(r: Result<T, PyError>)
    ensures Handle(r).Success? <==> r.Success?
    ensures Handle(r).Failure? ==> Handle(r).error.HttpException?
    ensures Handle(r).Failure? && Handle(r).error.status == 500 ==>
              r.error.Exception? || r.error.status == 500
    ensures r.Failure? && r.error.HttpException? && r.error.status == 429 ==> Handle(r) == r
    ensures r.Failure? && r.error.Exception? ==> Handle(r).error.detail == r.error.message
    ensures Handle(Handle(r)) == Handle(r)
  {
  }
}
