/** The shared JSON transport: bounded retries with capped exponential backoff. */
module Retry {
  import opened Text

  datatype RetryPolicy = RetryPolicy(attempts: int, backoff: real, cap: real) {
    /** Attempts that may be made: one even if the policy allows none. */
    function Most(): (n: nat)
      ensures n >= 1
    {
      if attempts < 1 then 1 else attempts
    }

    function DelayFor(attempt: nat): real
      requires attempt >= 1
    {
      var exponential := backoff * Pow2(attempt - 1) as real;
      if exponential <= cap then exponential else cap
    }
  }

  function Pow2(n: nat): nat {
    if n == 0 then 1 else 2 * Pow2(n - 1)
  }

  /** How one attempt goes wrong for the client, whatever happened at the server. */
  datatype Trouble =
    | NoConnection              // refused, timed out, reset, response lost
    | HttpStatus(code: int)     // an error status
    | Unreadable                // not UTF-8, or not JSON
    | Unusable                  // too large, or JSON that is not an object
    | Broken                    // an exception the transport does not handle

  datatype Reply<+T> = Body(value: T) | Trouble(trouble: Trouble)

  const RETRYABLE_STATUS: set<int> := {408, 425, 429, 500, 502, 503, 504}

  predicate Retryable<T>(r: Reply<T>) {
    r.Trouble? && (r.trouble.NoConnection? || (r.trouble.HttpStatus? && r.trouble.code in RETRYABLE_STATUS))
  }

  function Delays(policy: RetryPolicy, n: nat): (r: seq<real>)
    ensures |r| == n
  {
    seq(n, i requires 0 <= i < n => policy.DelayFor(i + 1))
  }

  function Sum(xs: seq<real>): real {
    if xs == [] then 0.0 else Sum(xs[..|xs| - 1]) + xs[|xs| - 1]
  }

  /** However many delays there are, the time slept is at most the cap for each. */
  lemma {:induction false} SleepIsBounded(policy: RetryPolicy, n: nat)
    ensures Sum(Delays(policy, n)) <= n as real * policy.cap
  {
    if n > 0 {
      assert Delays(policy, n)[..n - 1] == Delays(policy, n - 1);
      SleepIsBounded(policy, n - 1);
      assert n as real * policy.cap == (n - 1) as real * policy.cap + policy.cap;
    }
  }

  lemma DelaysGrow(policy: RetryPolicy, k: nat)
    requires k >= 1 && policy.backoff >= 0.0
    ensures policy.DelayFor(k) <= policy.DelayFor(k + 1) <= policy.cap
  {}

  /** The first delay is the backoff, each further one twice the one before, and none more than the cap. */
  lemma DelaysDouble(policy: RetryPolicy, k: nat)
    requires k >= 1 && policy.backoff >= 0.0 && policy.cap >= 0.0
    ensures policy.DelayFor(1) == if policy.backoff <= policy.cap then policy.backoff else policy.cap
    ensures var doubled := 2.0 * policy.DelayFor(k);
      policy.DelayFor(k + 1) == if doubled <= policy.cap then doubled else policy.cap
  {
    assert Pow2(0) == 1 && Pow2(k) == 2 * Pow2(k - 1);
  }

  /** What is worth another attempt: no connection, or one of seven statuses. */
  lemma RetriedIff<T>(r: Reply<T>)
    ensures Retryable(r) <==>
      r == Trouble(NoConnection) || exists code :: code in [408, 425, 429, 500, 502, 503, 504]
                                                   && r == Trouble(HttpStatus(code))
  {
    if r.Trouble? && r.trouble.HttpStatus? && r.trouble.code in RETRYABLE_STATUS {
      assert r.trouble.code in [408, 425, 429, 500, 502, 503, 504];
    }
  }

  /** The attempt that ends the exchange: the first whose reply is not retryable, or the last allowed. */
  predicate Ends<T>(policy: RetryPolicy, replies: seq<Reply<T>>) {
    && 1 <= |replies| <= policy.Most()
    && (forall i :: 0 <= i < |replies| - 1 ==> Retryable(replies[i]))
    && (Retryable(replies[|replies| - 1]) ==> |replies| == policy.Most())
  }
}
