/** `withRpcRateLimitRetry` of `scripts/marketplace-tui-devnet-smoke.ts`. */
module RpcRetry {
  import opened Outcomes
  import opened Text
  import opened Bytes

  predicate IsRpcRateLimitError(message: string) {
    || Contains(message, "429 Too Many Requests")
    || Contains(message, "\"code\":429")
    || Contains(message, "\"code\": 429")
    || Contains(message, "Too many requests for a specific RPC call")
  }

  predicate IsRateLimited<T>(r: Result<T>) {
    r.Err? && IsRpcRateLimitError(r.message)
  }

  function Sum(s: seq<nat>): nat {
    if s == [] then 0 else Sum(s[..|s| - 1]) + s[|s| - 1]
  }

  lemma SumAppend(s: seq<nat>, x: nat)
    ensures Sum(s + [x]) == Sum(s) + x
  {
    assert (s + [x])[..|s|] == s;
  }

  /**
   The n-th call of the action gives `action(n)`. The call is repeated only after a rate-limit error
   and at most up to the configured number of attempts; the delay doubles every time.
   */
  method WithRpcRateLimitRetry<T>(action: nat -> Result<T>, retryAttempts: nat, initialDelayMs: nat)
    returns (r: Result<T>, calls: nat, sleeps: seq<nat>)
    ensures 1 <= calls <= (if retryAttempts > 1 then retryAttempts else 1)
    ensures r == action(calls - 1) && forall i :: 0 <= i < calls - 1 ==> IsRateLimited(action(i))
    ensures IsRateLimited(r) ==> calls >= retryAttempts
    ensures |sleeps| == calls - 1 && forall i :: 0 <= i < |sleeps| ==> sleeps[i] == initialDelayMs * Pow(2, i)
    ensures Sum(sleeps) == initialDelayMs * (Pow(2, calls - 1) - 1)
  {
    hide Contains, Pow, Sum;
    NoDelay(initialDelayMs);
    sleeps := [];
    var delayMs, attempt := initialDelayMs, 1;
    while true
      invariant 1 <= attempt <= (if retryAttempts > 1 then retryAttempts else 1)
      invariant forall i :: 0 <= i < attempt - 1 ==> IsRateLimited(action(i))
      invariant delayMs == initialDelayMs * Pow(2, attempt - 1)
      invariant |sleeps| == attempt - 1 && forall i :: 0 <= i < |sleeps| ==> sleeps[i] == initialDelayMs * Pow(2, i)
      invariant Sum(sleeps) == initialDelayMs * (Pow(2, attempt - 1) - 1)
      decreases retryAttempts - attempt
    {
      r := action(attempt - 1);
      if r.Ok? { return r, attempt, sleeps; }
      var limited := Contains(r.message, "429 Too Many Requests") || Contains(r.message, "\"code\":429")
                     || Contains(r.message, "\"code\": 429")
                     || Contains(r.message, "Too many requests for a specific RPC call");
      if !limited || attempt >= retryAttempts { return r, attempt, sleeps; }
      SumAppend(sleeps, delayMs);
      Doubling(initialDelayMs, attempt - 1);
      sleeps := sleeps + [delayMs];
      delayMs := delayMs * 2;
      attempt := attempt + 1;
    }
  }

  lemma NoDelay(d: nat)
    ensures d == d * Pow(2, 0) && Sum([]) == d * (Pow(2, 0) - 1)
  {}

  lemma Doubling(d: nat, n: nat)
    ensures d * Pow(2, n) * 2 == d * Pow(2, n + 1)
    ensures d * (Pow(2, n) - 1) + d * Pow(2, n) == d * (Pow(2, n + 1) - 1)
  {}
}
