/** Bounded retry with linear backoff, the loop that the two price fetchers and
    the message sender each run around their remote call. A call's environment
    is given as a script: the outcome each attempt would have, in order. */
module Retry {
  import opened Outcomes

  /** Attempts made before the last error is re-raised. */
  const Retries: nat := 3

  /** Base delay in seconds; the delay after attempt k is RetryDelay * k. */
  const RetryDelay: nat := 5

  /** What one resilient call did: its final outcome, how many attempts it
      made, and the sleeps (in seconds) taken between them. */
  datatype Run<+T, +E> = Run(result: Attempt<T, E>, attempts: nat, sleeps: seq<nat>)

  /** The sleeps after failed attempts 1 through n, in order. */
  function Backoffs(n: nat): (s: seq<nat>)
    ensures |s| == n
    ensures forall i :: 0 <= i < n ==> s[i] == RetryDelay * (i + 1)
  {
    if n == 0 then [] else Backoffs(n - 1) + [RetryDelay * n]
  }

  /** Total seconds slept. */
  function TotalSleep(s: seq<nat>): nat {
    if |s| == 0 then 0 else TotalSleep(s[..|s| - 1]) + s[|s| - 1]
  }

  /** The loop from attempt `attempt` on: an attempt that succeeds returns its
      value; a failed attempt below the limit sleeps and retries; a failed
      last attempt re-raises its error without sleeping. */
  function RetryFrom<T, E>(outcomes: seq<Attempt<T, E>>, attempt: nat): (r: Run<T, E>)
    requires 1 <= attempt <= Retries <= |outcomes|
    ensures attempt <= r.attempts <= Retries
    ensures r.result == outcomes[r.attempts - 1]
    ensures r.result.Err? ==> r.attempts == Retries
    decreases Retries - attempt
  {
    match outcomes[attempt - 1]
    case Ok(v) => Run(Ok(v), attempt, [])
    case Err(e) =>
      if attempt < Retries then
        var rest := RetryFrom(outcomes, attempt + 1);
        Run(rest.result, rest.attempts, [RetryDelay * attempt] + rest.sleeps)
      else
        Run(Err(e), attempt, [])
  }

  /** One resilient call: between one and Retries attempts; its result is the
      outcome of its last attempt, and it gives up only after Retries of them. */
  function WithRetry<T, E>(outcomes: seq<Attempt<T, E>>): (r: Run<T, E>)
    requires Retries <= |outcomes|
    ensures 1 <= r.attempts <= Retries
    ensures r.result == outcomes[r.attempts - 1]
    ensures r.result.Err? ==> r.attempts == Retries
  {
    RetryFrom(outcomes, 1)
  }

  /** From attempt `attempt` on, the loop stops at the first success: every
      attempt before the last one it makes failed. */
  lemma {:induction false} RetryFromStopsAtFirstSuccess<T, E>(outcomes: seq<Attempt<T, E>>, attempt: nat)
    requires 1 <= attempt <= Retries <= |outcomes|
    ensures forall i :: attempt - 1 <= i < RetryFrom(outcomes, attempt).attempts - 1 ==> outcomes[i].Err?
    decreases Retries - attempt
  {
    if outcomes[attempt - 1].Err? && attempt < Retries {
      RetryFromStopsAtFirstSuccess(outcomes, attempt + 1);
    }
  }

  /** From attempt `attempt` on, the loop sleeps RetryDelay * k after each
      failed attempt k except the last one it makes. */
  lemma {:induction false} RetryFromSleeps<T, E>(outcomes: seq<Attempt<T, E>>, attempt: nat)
    requires 1 <= attempt <= Retries <= |outcomes|
    ensures RetryFrom(outcomes, attempt).sleeps == Backoffs(RetryFrom(outcomes, attempt).attempts - 1)[attempt - 1..]
    decreases Retries - attempt
  {
    var r := RetryFrom(outcomes, attempt);
    if outcomes[attempt - 1].Err? && attempt < Retries {
      RetryFromSleeps(outcomes, attempt + 1);
      var rest := RetryFrom(outcomes, attempt + 1);
      assert r.sleeps == [RetryDelay * attempt] + rest.sleeps;
      var b := Backoffs(r.attempts - 1);
      assert b[attempt - 1..] == [b[attempt - 1]] + b[attempt..];
    } else {
      assert r.attempts == attempt;
    }
  }

  /** The whole retry policy: the result is the value of the first successful
      attempt among the first Retries, or else the error of the last attempt;
      the sleeps are 5, 10, ... seconds, one after each failed attempt but
      the last. */
  lemma RetryPolicy<T, E>(outcomes: seq<Attempt<T, E>>)
    requires Retries <= |outcomes|
    ensures var r := WithRetry(outcomes);
      && (forall i :: 0 <= i < r.attempts - 1 ==> outcomes[i].Err?)
      && (r.result.Ok? <==> exists i :: 0 <= i < Retries && outcomes[i].Ok?)
      && (r.result.Err? ==> r.result == outcomes[Retries - 1])
      && r.sleeps == Backoffs(r.attempts - 1)
  {
    RetryFromStopsAtFirstSuccess(outcomes, 1);
    RetryFromSleeps(outcomes, 1);
  }

  /** The counting loop as monitor.py writes it, proved to behave like WithRetry. */
  method RetryLoop<T, E>(outcomes: seq<Attempt<T, E>>) returns (result: Attempt<T, E>, attempts: nat, sleeps: seq<nat>)
    requires Retries <= |outcomes|
    ensures Run(result, attempts, sleeps) == WithRetry(outcomes)
  {
    RetryPolicy(outcomes);
    attempts := 1;
    sleeps := [];
    while true
      invariant 1 <= attempts <= Retries
      invariant forall i :: 0 <= i < attempts - 1 ==> outcomes[i].Err?
      invariant sleeps == Backoffs(attempts - 1)
      decreases Retries - attempts
    {
      match outcomes[attempts - 1]
      case Ok(v) =>
        result := Ok(v);
        return;
      case Err(e) =>
        if attempts < Retries {
          sleeps := sleeps + [RetryDelay * attempts];
          attempts := attempts + 1;
        } else {
          result := Err(e);
          return;
        }
    }
  }

  /** 1 + 2 + ... + n. */
  function Triangle(n: nat): nat {
    if n == 0 then 0 else Triangle(n - 1) + n
  }

  /** Sleeping after failed attempts 1..n takes 5 * (1 + 2 + ... + n) seconds. */
  lemma {:induction false} BackoffTotal(n: nat)
    ensures TotalSleep(Backoffs(n)) == RetryDelay * Triangle(n)
  {
    if n > 0 {
      BackoffTotal(n - 1);
      assert Backoffs(n)[..n - 1] == Backoffs(n - 1);
    }
  }

  /** One resilient call never sleeps more than 5 + 10 seconds. */
  lemma RetrySleepBound<T, E>(outcomes: seq<Attempt<T, E>>)
    requires Retries <= |outcomes|
    ensures TotalSleep(WithRetry(outcomes).sleeps) <= 15
    ensures |WithRetry(outcomes).sleeps| < Retries
  {
    RetryPolicy(outcomes);
    BackoffTotal(WithRetry(outcomes).attempts - 1);
    assert Triangle(2) == 3;
  }

  /** A call that fails twice and then succeeds returns the third value after
      sleeping 5 and then 10 seconds; one that fails three times re-raises the
      third error, also after 5 and 10 seconds and no further sleep. */
  lemma RetryScenarios<T, E>(e1: E, e2: E, e3: E, v: T)
    ensures WithRetry([Err(e1), Err(e2), Ok(v)]) == Run(Ok(v), 3, [5, 10])
    ensures WithRetry<T, E>([Err(e1), Err(e2), Err(e3)]) == Run(Err(e3), 3, [5, 10])
    ensures WithRetry([Ok(v), Err(e2), Err(e3)]) == Run(Ok(v), 1, [])
  {
    assert Backoffs(2) == [5, 10];
    RetryPolicy<T, E>([Err(e1), Err(e2), Ok(v)]);
    RetryPolicy<T, E>([Err(e1), Err(e2), Err(e3)]);
    RetryPolicy<T, E>([Ok(v), Err(e2), Err(e3)]);
  }

  /** Concatenated sleeps add up. */
  lemma {:induction false} TotalSleepAppend(a: seq<nat>, b: seq<nat>)
    ensures TotalSleep(a + b) == TotalSleep(a) + TotalSleep(b)
    decreases |b|
  {
    if |b| > 0 {
      var b' := b[..|b| - 1];
      assert (a + b)[..|a + b| - 1] == a + b';
      TotalSleepAppend(a, b');
    } else {
      assert a + b == a;
    }
  }
}
