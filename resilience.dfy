/** `ResiliencePolicies`: which outcomes of an HTTP call the retry and the
    circuit-breaker policies handle, their constants, the exponential backoff
    schedule, and the order in which the combined policy wraps them. The
    success class is 2xx (section 15.3 of RFC 9110); the retried statuses are
    408 (section 15.5.9 of RFC 9110), 429 (section 4 of RFC 6585) and 500,
    502, 503, 504 (sections 15.6.1 and 15.6.3 to 15.6.5 of RFC 9110). */
module ResiliencePolicies {
  import opened Http

  /** The outcome of one attempt: a response with its status code, or one of
      the exceptions that can surface through the policies. `TimeoutRejected`
      and `BrokenCircuit` are what the timeout policy and an open breaker
      raise; every other exception is `OtherException`. */
  datatype Outcome =
    | Response(status: int)
    | HttpRequestException
    | TimeoutException
    | TimeoutRejected
    | BrokenCircuit
    | OtherException

  const RequestTimeout := 408
  const TooManyRequests := 429
  const InternalServerError := 500
  const BadGateway := 502
  const ServiceUnavailable := 503
  const GatewayTimeout := 504

  const RetryCount: nat := 3
  const HandledEventsAllowedBeforeBreaking: nat := 5
  const DurationOfBreakSeconds: nat := 10
  const TimeoutSeconds: nat := 10

  /** What the retry policy handles: every retried response is an error
      status (and so also a circuit-breaker failure); a rejection by the
      timeout policy or an open circuit is never retried. */
  predicate RetryHandles(o: Outcome): (b: bool)
    ensures b && o.Response? ==> 400 <= o.status <= 599 && BreakerHandles(o)
    ensures o.TimeoutRejected? || o.BrokenCircuit? || o.OtherException? ==> !b
  {
    match o
    case HttpRequestException => true
    case TimeoutException => true
    case Response(s) =>
      s == RequestTimeout || s == TooManyRequests || s == InternalServerError
      || s == BadGateway || s == ServiceUnavailable || s == GatewayTimeout
    case _ => false
  }

  /** What the circuit breaker counts as a failure: every response outside
      the 2xx class and a request exception, but no timeout of either kind. */
  predicate BreakerHandles(o: Outcome): (b: bool)
    ensures o.Response? ==> (b <==> !(200 <= o.status <= 299))
    ensures o.TimeoutException? || o.TimeoutRejected? || o.BrokenCircuit? || o.OtherException? ==> !b
  {
    match o
    case HttpRequestException => true
    case Response(s) => !IsSuccessStatusCode(s)
    case _ => false
  }

  function Pow2(n: nat): (p: nat)
    ensures p >= 1
  {
    if n == 0 then 1 else 2 * Pow2(n - 1)
  }

  /** The wait in seconds before retry number `attempt` (1 for the first). */
  function SleepDuration(attempt: nat): (seconds: nat)
    ensures seconds >= 1
    ensures attempt > 0 ==> seconds == 2 * SleepDuration(attempt - 1)
  {
    Pow2(attempt)
  }

  /** The policies of `GetCombinedPolicy`, outermost first: the retry policy
      sees what the breaker lets through, which sees what the per-attempt
      timeout lets through. */
  datatype PolicyKind = Retry | CircuitBreaker | Timeout

  const CombinedPolicy: seq<PolicyKind> := [Retry, CircuitBreaker, Timeout]

  /** A run of the retry policy: how many attempts it made, the outcome it
      hands back, and the waits it slept between attempts. */
  datatype RetryRun = RetryRun(attempts: nat, final: Outcome, waits: seq<nat>)

  /** The retry policy from its `retried`-th retry on (`ExecuteAsync` of the
      policy around a call is `RetryFrom(outcome, 0)`), where `outcome(i)` is
      what the wrapped call yields on attempt `i` (0 for the first call).
      A handled outcome is retried after `SleepDuration(retried + 1)` while
      fewer than `RetryCount` retries were made; anything else, or the last
      allowed attempt, is handed back as it is. */
  function RetryFrom(outcome: nat -> Outcome, retried: nat): (r: RetryRun)
    requires retried <= RetryCount
    decreases RetryCount - retried
    ensures 1 <= r.attempts <= RetryCount + 1 - retried
    ensures |r.waits| == r.attempts - 1
    ensures r.final == outcome(retried + r.attempts - 1)
    ensures forall i :: retried <= i < retried + r.attempts - 1 ==> RetryHandles(outcome(i))
    ensures RetryHandles(r.final) ==> retried + r.attempts - 1 == RetryCount
    ensures forall k :: 0 <= k < |r.waits| ==> r.waits[k] == SleepDuration(retried + k + 1)
  {
    var o := outcome(retried);
    if RetryHandles(o) && retried < RetryCount then
      var rest := RetryFrom(outcome, retried + 1);
      RetryRun(rest.attempts + 1, rest.final, [SleepDuration(retried + 1)] + rest.waits)
    else
      RetryRun(1, o, [])
  }

  function Sum(xs: seq<nat>): nat {
    if xs == [] then 0 else xs[0] + Sum(xs[1..])
  }

  /** At most three retries, so at most four attempts; the waits are 2, 4
      and 8 seconds in that order, 14 seconds at most in total. */
  lemma RetryBounds(outcome: nat -> Outcome)
    ensures var r := RetryFrom(outcome, 0);
      && 1 <= r.attempts <= 4
      && r.waits == [2, 4, 8][..r.attempts - 1]
      && Sum(r.waits) <= 14
  {
    var r := RetryFrom(outcome, 0);
    assert SleepDuration(1) == 2 && SleepDuration(2) == 4 && SleepDuration(3) == 8;
    assert r.waits == [2, 4, 8][..r.attempts - 1];
    var n := r.attempts - 1;
    if n == 3 {
      assert [2, 4, 8][..n] == [2, 4, 8];
      assert Sum([2, 4, 8]) == 14;
    } else if n == 2 {
      assert [2, 4, 8][..n] == [2, 4];
      assert Sum([2, 4]) == 6;
    } else if n == 1 {
      assert [2, 4, 8][..n] == [2];
    }
  }

  /** An outcome the retry policy does not handle (a success, a 404, an
      exception raised by the inner policies) is handed back at once. */
  lemma UnhandledReturnsAtOnce(outcome: nat -> Outcome)
    requires !RetryHandles(outcome(0))
    ensures RetryFrom(outcome, 0) == RetryRun(1, outcome(0), [])
  {
  }

  lemma NotFoundIsNotRetried()
    ensures !RetryHandles(Response(404)) && BreakerHandles(Response(404))
  {
  }

  /** Successes are handled by neither policy. */
  lemma SuccessIsNeverHandled(status: int)
    requires IsSuccessStatusCode(status)
    ensures !RetryHandles(Response(status)) && !BreakerHandles(Response(status))
  {
  }

  /** Every outcome the retry policy handles is counted by the breaker,
      except a `TimeoutException`; and neither the timeout policy's
      rejection nor an open breaker is retried. */
  lemma RetryHandledIsBreakerHandled(o: Outcome)
    ensures RetryHandles(o) && !BreakerHandles(o) <==> o == TimeoutException
    ensures !RetryHandles(TimeoutRejected) && !RetryHandles(BrokenCircuit)
  {
  }

  lemma CombinedPolicyOrder()
    ensures |CombinedPolicy| == 3
    ensures CombinedPolicy[0] == Retry && CombinedPolicy[1] == CircuitBreaker && CombinedPolicy[2] == Timeout
  {
  }
}
