/**
 * `HttpHelper.ExecuteWithRetry`: calls a request function until it yields a
 * response that is not 429, retrying rate-limited responses and exceptions with
 * a wait in between, for at most `maxRetries + 1` calls.
 */
module HttpHelper {
  import opened Wrappers
  import opened Http

  const MinWaitSeconds := 1
  const MaxWaitSeconds := 60
  const TicksPerSecond := 10_000_000

  /** How a call of `ExecuteWithRetry` ends. */
  datatype Failure =
    | Propagated(message: string)  // the last attempt's exception, rethrown
    | RequestFailed(attempts: int) // HttpRequestException("Request failed after {attempts} attempts")

  datatype Execution = Returned(response: HttpResponse) | Raised(failure: Failure)

  function Pow2(n: nat): (r: nat)
    ensures r >= 1
  {
    if n == 0 then 1 else 2 * Pow2(n - 1)
  }

  lemma {:induction false} Pow2AtLeast(n: nat, k: nat)
    requires k <= n
    ensures Pow2(n) >= Pow2(k)
  {
    if k < n {
      Pow2AtLeast(n - 1, k);
    }
  }

  function Min(a: int, b: int): int {
    if a < b then a else b
  }

  function Max(a: int, b: int): int {
    if a < b then b else a
  }

  /** `Math.Max(1, Math.Min(w, 60))`. */
  function Clamp(w: int): (r: int)
    ensures MinWaitSeconds <= r <= MaxWaitSeconds
    ensures MinWaitSeconds <= w <= MaxWaitSeconds ==> r == w
    ensures w < MinWaitSeconds ==> r == MinWaitSeconds
    ensures w > MaxWaitSeconds ==> r == MaxWaitSeconds
  {
    Max(MinWaitSeconds, Min(w, MaxWaitSeconds))
  }

  /** `(int)TimeSpan.FromTicks(ticks).TotalSeconds`: whole seconds, truncated toward zero. */
  function TruncatedSeconds(ticks: int): (s: int)
    ensures ticks >= 0 ==> 0 <= s * TicksPerSecond <= ticks < (s + 1) * TicksPerSecond
    ensures ticks < 0 ==> (s - 1) * TicksPerSecond < ticks <= s * TicksPerSecond <= 0
  {
    if ticks >= 0 then ticks / TicksPerSecond else -((-ticks) / TicksPerSecond)
  }

  /**
   * The wait a 429 on attempt `attempt` asks for, before clamping. It asks for
   * no wait at all exactly when the delta is zero or the date is less than a
   * second away (or past).
   */
  function RequestedWait(hint: RetryAfter, utcNow: int, attempt: nat): (w: int)
    ensures w <= 0 <==> (hint.Delta? && hint.seconds == 0)
                        || (hint.Date? && hint.ticks - utcNow < TicksPerSecond)
  {
    match hint
    case Delta(seconds) => seconds
    case Date(ticks) => TruncatedSeconds(ticks - utcNow)
    case NoRetryAfter => Pow2(attempt + 1)
  }

  /** Seconds slept after a 429 on attempt `attempt` when attempts remain. */
  function RateLimitWait(hint: RetryAfter, utcNow: int, attempt: nat): (w: int)
    ensures MinWaitSeconds <= w <= MaxWaitSeconds
    ensures hint.Delta? && hint.seconds <= MaxWaitSeconds ==> w == Max(MinWaitSeconds, hint.seconds)
    ensures hint.Delta? && hint.seconds > MaxWaitSeconds ==> w == MaxWaitSeconds
    ensures hint.Date? && hint.ticks - utcNow < TicksPerSecond ==> w == MinWaitSeconds
    ensures hint.Date? && hint.ticks - utcNow >= TicksPerSecond ==>
              w == Min(MaxWaitSeconds, TruncatedSeconds(hint.ticks - utcNow))
    ensures hint.NoRetryAfter? && attempt < 5 ==> w == Pow2(attempt + 1)
    ensures hint.NoRetryAfter? && attempt >= 5 ==> w == MaxWaitSeconds
  {
    if hint.NoRetryAfter? && attempt >= 5 then
      Pow2AtLeast(attempt + 1, 6);
      Clamp(RequestedWait(hint, utcNow, attempt))
    else if hint.NoRetryAfter? then
      assert Pow2(attempt + 1) <= 32 by { Pow2AtMost(attempt + 1, 5); }
      Clamp(RequestedWait(hint, utcNow, attempt))
    else
      Clamp(RequestedWait(hint, utcNow, attempt))
  }

  lemma {:induction false} Pow2AtMost(n: nat, k: nat)
    requires n <= k
    ensures Pow2(n) <= Pow2(k)
  {
    Pow2AtLeast(k, n);
  }

  /** Seconds slept after an exception on attempt `attempt` when attempts remain: never clamped. */
  function ExceptionWait(attempt: nat): nat {
    Pow2(attempt + 1)
  }

  /** An outcome the loop retries when attempts remain: a 429, or an exception. */
  predicate Retried(a: Attempt) {
    a.Threw? || a.response.status == TooManyRequests
  }

  /** The wait that follows a retried outcome of attempt `attempt`. */
  function Wait(a: Attempt, utcNow: int, attempt: nat): int
    requires Retried(a)
  {
    match a
    case Threw(_) => ExceptionWait(attempt)
    case Responded(r) => RateLimitWait(r.retryAfter, utcNow, attempt)
  }

  /** What the call ends with when attempt `a` is the one it stops on. */
  function Outcome(a: Attempt): Execution {
    match a
    case Responded(r) => Returned(r)
    case Threw(message) => Raised(Propagated(message))
  }

  /**
   * The behaviour of `ExecuteWithRetry(request, maxRetries)`, stated outright:
   * `request(i)` is what the i-th call yields and `utcNow(i)` the clock read
   * during it; `invocations` calls were made and `waits` were slept, in order.
   * With a negative bound nothing is called and the final throw is reached.
   * Otherwise every call but the last was retried, the last is the first that
   * is not retried or the one at attempt `maxRetries`, and its outcome is the
   * result: a response (429 included) is returned, an exception propagates.
   */
  ghost predicate RetrySpec(request: nat -> Attempt, utcNow: nat -> int, maxRetries: int,
                            result: Execution, invocations: nat, waits: seq<int>)
  {
    if maxRetries < 0 then
      invocations == 0 && waits == [] && result == Raised(RequestFailed(maxRetries + 1))
    else
      && 1 <= invocations <= maxRetries + 1
      && |waits| == invocations - 1
      && (forall i :: 0 <= i < invocations - 1 ==>
            Retried(request(i)) && waits[i] == Wait(request(i), utcNow(i), i))
      && (invocations <= maxRetries ==> !Retried(request(invocations - 1)))
      && result == Outcome(request(invocations - 1))
  }

  /**
   * `ExecuteWithRetry(client, requestFunc, maxRetries)`. The sleeps are
   * recorded in `waits` instead of being slept; `invocations` counts the calls
   * of the request function.
   */
  method ExecuteWithRetry(request: nat -> Attempt, utcNow: nat -> int, maxRetries: int)
    returns (result: Execution, invocations: nat, waits: seq<int>)
    ensures RetrySpec(request, utcNow, maxRetries, result, invocations, waits)
  {
    invocations, waits := 0, [];
    var attempt := 0;
    while attempt <= maxRetries
      invariant attempt == 0 || attempt <= maxRetries
      invariant invocations == attempt && |waits| == attempt
      invariant forall i :: 0 <= i < attempt ==>
                  Retried(request(i)) && waits[i] == Wait(request(i), utcNow(i), i)
      decreases maxRetries - attempt
    {
      var outcome := request(attempt);
      invocations := invocations + 1;
      match outcome {
        case Responded(response) =>
          if response.status != TooManyRequests {
            return Returned(response), invocations, waits;
          }
          if attempt < maxRetries {
            var waitSeconds := RateLimitWait(response.retryAfter, utcNow(attempt), attempt);
            waits := waits + [waitSeconds];
          } else {
            return Returned(response), invocations, waits;
          }
        case Threw(message) =>
          if attempt < maxRetries {
            waits := waits + [ExceptionWait(attempt)];
          } else {
            return Raised(Propagated(message)), invocations, waits;
          }
      }
      attempt := attempt + 1;
    }
    result := Raised(RequestFailed(maxRetries + 1));
  }

  /** The spec fixes the outcome: any two runs on the same outcomes agree. */
  lemma RetrySpecDeterministic(request: nat -> Attempt, utcNow: nat -> int, maxRetries: int,
                               r1: Execution, n1: nat, w1: seq<int>,
                               r2: Execution, n2: nat, w2: seq<int>)
    requires RetrySpec(request, utcNow, maxRetries, r1, n1, w1)
    requires RetrySpec(request, utcNow, maxRetries, r2, n2, w2)
    ensures r1 == r2 && n1 == n2 && w1 == w2
  {
  }

  /** The closing throw after the loop is reached only for a negative bound; a non-negative one always returns or rethrows inside the loop. */
  lemma FinalThrowOnlyForNegativeBound(request: nat -> Attempt, utcNow: nat -> int, maxRetries: int,
                                       result: Execution, invocations: nat, waits: seq<int>)
    requires RetrySpec(request, utcNow, maxRetries, result, invocations, waits)
    ensures result.Raised? && result.failure.RequestFailed? <==> maxRetries < 0
    ensures invocations <= if maxRetries < 0 then 0 else maxRetries + 1
  {
  }

  /**
   * A response that is not 429 is returned on the attempt that produced it,
   * whatever its status, once every earlier attempt was retried.
   */
  lemma {:induction false} FirstNonRateLimitedResponseReturned(request: nat -> Attempt, utcNow: nat -> int,
                                                               maxRetries: int, k: nat,
                                                               result: Execution, invocations: nat, waits: seq<int>)
    requires RetrySpec(request, utcNow, maxRetries, result, invocations, waits)
    requires k <= maxRetries
    requires forall i :: 0 <= i < k ==> Retried(request(i))
    requires request(k).Responded? && request(k).response.status != TooManyRequests
    ensures invocations == k + 1 && |waits| == k
    ensures result == Returned(request(k).response)
  {
  }

  /** A 429 on every attempt ends with the last 429 returned, not thrown, after `maxRetries` clamped waits. */
  lemma {:induction false} RateLimitedThroughoutReturnsLast429(request: nat -> Attempt, utcNow: nat -> int,
                                                               maxRetries: int,
                                                               result: Execution, invocations: nat, waits: seq<int>)
    requires RetrySpec(request, utcNow, maxRetries, result, invocations, waits)
    requires maxRetries >= 0
    requires forall i :: 0 <= i <= maxRetries ==>
               request(i).Responded? && request(i).response.status == TooManyRequests
    ensures invocations == maxRetries + 1 && |waits| == maxRetries
    ensures result == Returned(request(maxRetries).response)
    ensures forall i :: 0 <= i < |waits| ==> MinWaitSeconds <= waits[i] <= MaxWaitSeconds
  {
    assert invocations <= maxRetries ==> Retried(request(invocations - 1));
    forall i | 0 <= i < |waits| ensures MinWaitSeconds <= waits[i] <= MaxWaitSeconds {
      assert waits[i] == RateLimitWait(request(i).response.retryAfter, utcNow(i), i);
    }
  }

  /**
   * An exception on every attempt propagates the last one, after the unclamped
   * waits 2, 4, 8, ... seconds.
   */
  lemma {:induction false} ThrowingThroughoutPropagatesLast(request: nat -> Attempt, utcNow: nat -> int,
                                                            maxRetries: int,
                                                            result: Execution, invocations: nat, waits: seq<int>)
    requires RetrySpec(request, utcNow, maxRetries, result, invocations, waits)
    requires maxRetries >= 0
    requires forall i :: 0 <= i <= maxRetries ==> request(i).Threw?
    ensures invocations == maxRetries + 1
    ensures result == Raised(Propagated(request(maxRetries).message))
    ensures forall i :: 0 <= i < |waits| ==> waits[i] == Pow2(i + 1)
  {
  }

  /** The exception path does not clamp: from attempt 5 on its wait exceeds the 60-second cap of the 429 path. */
  lemma ExceptionWaitExceedsCap(attempt: nat)
    requires attempt >= 5
    ensures ExceptionWait(attempt) > MaxWaitSeconds
  {
    Pow2AtLeast(attempt + 1, 6);
  }

  function Sum(xs: seq<int>): int {
    if xs == [] then 0 else xs[0] + Sum(xs[1..])
  }

  lemma {:induction false} SumBounded(xs: seq<int>, bound: int)
    requires forall i :: 0 <= i < |xs| ==> xs[i] <= bound
    ensures Sum(xs) <= bound * |xs|
  {
    if xs != [] {
      SumBounded(xs[1..], bound);
    }
  }

  /** Without exceptions, the time slept in one call is at most 60 seconds per retry. */
  lemma TotalWaitWithoutExceptions(request: nat -> Attempt, utcNow: nat -> int, maxRetries: int,
                                   result: Execution, invocations: nat, waits: seq<int>)
    requires RetrySpec(request, utcNow, maxRetries, result, invocations, waits)
    requires forall i :: 0 <= i < maxRetries ==> request(i).Responded?
    ensures Sum(waits) <= MaxWaitSeconds * (if maxRetries < 0 then 0 else maxRetries)
  {
    if maxRetries >= 0 {
      forall i | 0 <= i < |waits| ensures waits[i] <= MaxWaitSeconds {
        assert waits[i] == RateLimitWait(request(i).response.retryAfter, utcNow(i), i);
      }
      SumBounded(waits, MaxWaitSeconds);
    }
  }

  /** The outcomes of an example: a 429 with `Retry-After: 2`, then a 200. */
  function RateLimitedOnce(i: nat): Attempt {
    if i == 0 then Responded(HttpResponse(429, map[], map[], None, Delta(2), []))
    else Responded(HttpResponse(200, map[], map[], None, NoRetryAfter, [0x7B, 0x7D]))
  }

  /** With three retries, that example sleeps once for exactly 2 seconds and returns the 200. */
  lemma RateLimitedOnceWaitsTwoSeconds(utcNow: nat -> int, result: Execution, invocations: nat, waits: seq<int>)
    requires RetrySpec(RateLimitedOnce, utcNow, 3, result, invocations, waits)
    ensures invocations == 2 && waits == [2]
    ensures result == Returned(RateLimitedOnce(1).response) && result.response.status == 200
  {
    assert invocations == 1 ==> Retried(RateLimitedOnce(0));
    assert invocations > 2 ==> Retried(RateLimitedOnce(1));
    assert waits[0] == RateLimitWait(Delta(2), utcNow(0), 0);
  }
}
