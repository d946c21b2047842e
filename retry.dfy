/** The bounded retry with exponential backoff shared by upload_from_url and
    get_cat_image_url: `for attempt in range(max_retries + 1)`, returning on the
    first success, sleeping 2^attempt seconds after a RequestException while
    attempts remain, and re-raising it after the last attempt. */
module Retrying {
  import opened Http

  /** What one attempt of a retried operation came to. */
  datatype Attempt<T> = Succeeded(value: T) | Failed(error: Error)

  /** The observable course of a retried call: what it returned or raised, the
      backoff waits it slept (seconds, in order), and how many attempts it made. */
  datatype Run<T> = Run(result: Result<T>, waits: seq<nat>, attempts: nat)

  /** Only a RequestException is caught by the loop; any other error escapes at once. */
  predicate Retryable<T>(a: Attempt<T>)
  {
    a.Failed? && a.error.RequestException?
  }

  /** What the call returns or raises when it stops at attempt `a`. */
  function Finish<T>(a: Attempt<T>): Result<T>
  {
    match a
    case Succeeded(v) => Ok(v)
    case Failed(e) => Err(e)
  }

  function Pow2(k: nat): (p: nat)
    ensures p >= 1
  {
    if k == 0 then 1 else 2 * Pow2(k - 1)
  }

  /** The waits after failed attempts 0 .. n-1, that is 2^0, 2^1, ..., 2^(n-1). */
  function Backoff(n: nat): (w: seq<nat>)
    ensures |w| == n
  {
    if n == 0 then [] else Backoff(n - 1) + [Pow2(n - 1)]
  }

  /** Total time spent sleeping. */
  function Total(w: seq<nat>): nat
  {
    if w == [] then 0 else Total(w[..|w| - 1]) + w[|w| - 1]
  }

  /** The wait after failed attempt i is 2^i seconds. */
  lemma {:induction false} BackoffAt(n: nat, i: nat)
    requires i < n
    ensures Backoff(n)[i] == Pow2(i)
  {
    if i < n - 1 {
      BackoffAt(n - 1, i);
    }
  }

  /** n backoff waits add up to 2^n - 1 seconds. */
  lemma {:induction false} BackoffTotal(n: nat)
    ensures Total(Backoff(n)) == Pow2(n) - 1
  {
    if n > 0 {
      var w := Backoff(n);
      assert w[..|w| - 1] == Backoff(n - 1);
      BackoffTotal(n - 1);
    }
  }

  /** The loop as a state machine: the state is the attempt about to be made and
      the waits slept so far; `outcomes[i]` is what attempt i comes to. */
  function RetryFrom<T>(maxRetries: nat, outcomes: seq<Attempt<T>>, attempt: nat, waits: seq<nat>): Run<T>
    requires attempt <= maxRetries < |outcomes|
    decreases maxRetries - attempt
  {
    var a := outcomes[attempt];
    if Retryable(a) && attempt < maxRetries then
      RetryFrom(maxRetries, outcomes, attempt + 1, waits + [Pow2(attempt)])
    else
      Run(Finish(a), waits, attempt + 1)
  }

  /** The whole retried call, started at attempt 0 with nothing slept. */
  function Retry<T>(maxRetries: nat, outcomes: seq<Attempt<T>>): Run<T>
    requires maxRetries < |outcomes|
  {
    RetryFrom(maxRetries, outcomes, 0, [])
  }

  lemma {:induction false} RetryFromShape<T>(maxRetries: nat, outcomes: seq<Attempt<T>>, attempt: nat)
    requires attempt <= maxRetries < |outcomes|
    ensures var run := RetryFrom(maxRetries, outcomes, attempt, Backoff(attempt));
      && attempt < run.attempts <= maxRetries + 1
      && run.waits == Backoff(run.attempts - 1)
      && (forall i :: attempt <= i < run.attempts - 1 ==> Retryable(outcomes[i]))
      && (run.attempts <= maxRetries ==> !Retryable(outcomes[run.attempts - 1]))
      && run.result == Finish(outcomes[run.attempts - 1])
    decreases maxRetries - attempt
  {
    if Retryable(outcomes[attempt]) && attempt < maxRetries {
      assert Backoff(attempt) + [Pow2(attempt)] == Backoff(attempt + 1);
      RetryFromShape(maxRetries, outcomes, attempt + 1);
    }
  }

  /** A retried call makes between 1 and maxRetries + 1 attempts; it goes on only
      past RequestExceptions; it stops early only on an attempt that did not raise
      one; it returns or raises what its last attempt came to; and it slept
      2^0, ..., 2^(n-2) seconds for n attempts, with no wait after the last. */
  lemma RetryCharacterized<T>(maxRetries: nat, outcomes: seq<Attempt<T>>)
    requires maxRetries < |outcomes|
    ensures var run := Retry(maxRetries, outcomes);
      && 1 <= run.attempts <= maxRetries + 1
      && run.waits == Backoff(run.attempts - 1)
      && (forall i :: 0 <= i < run.attempts - 1 ==> Retryable(outcomes[i]))
      && (run.attempts <= maxRetries ==> !Retryable(outcomes[run.attempts - 1]))
      && run.result == Finish(outcomes[run.attempts - 1])
  {
    RetryFromShape(maxRetries, outcomes, 0);
  }

  /** After n transient failures the call stops at the first attempt that returns
      or raises something else: n failures then a success return it after n + 1 attempts. */
  lemma RetryStopsAt<T>(maxRetries: nat, outcomes: seq<Attempt<T>>, n: nat)
    requires n <= maxRetries < |outcomes|
    requires forall i :: 0 <= i < n ==> Retryable(outcomes[i])
    requires !Retryable(outcomes[n])
    ensures Retry(maxRetries, outcomes) == Run(Finish(outcomes[n]), Backoff(n), n + 1)
  {
    RetryCharacterized(maxRetries, outcomes);
  }

  /** When every attempt raises a RequestException, maxRetries + 1 attempts are made,
      the last exception is re-raised, and 2^maxRetries - 1 seconds were slept. */
  lemma RetryExhausted<T>(maxRetries: nat, outcomes: seq<Attempt<T>>)
    requires maxRetries < |outcomes|
    requires forall i :: 0 <= i <= maxRetries ==> Retryable(outcomes[i])
    ensures var run := Retry(maxRetries, outcomes);
      && run == Run(Finish(outcomes[maxRetries]), Backoff(maxRetries), maxRetries + 1)
      && run.result.Err? && run.result.error.RequestException?
      && Total(run.waits) == Pow2(maxRetries) - 1
  {
    RetryCharacterized(maxRetries, outcomes);
    BackoffTotal(maxRetries);
  }

  /** The retry loop of upload_from_url and get_cat_image_url. */
  method RetryLoop<T>(maxRetries: nat, outcomes: seq<Attempt<T>>) returns (run: Run<T>)
    requires maxRetries < |outcomes|
    ensures run == Retry(maxRetries, outcomes)
  {
    var attempt := 0;
    var waits: seq<nat> := [];
    while true
      invariant attempt <= maxRetries
      invariant RetryFrom(maxRetries, outcomes, attempt, waits) == Retry(maxRetries, outcomes)
      decreases maxRetries - attempt
    {
      match outcomes[attempt] {
        case Succeeded(v) =>
          return Run(Ok(v), waits, attempt + 1);
        case Failed(e) =>
          if e.RequestException? && attempt < maxRetries {
            waits := waits + [Pow2(attempt)];
            attempt := attempt + 1;
          } else {
            return Run(Err(e), waits, attempt + 1);
          }
      }
    }
  }
}
