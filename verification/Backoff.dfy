/** cameraStreamWithReconnect: the geometric retry loop. */
module Backoff {
  import opened Basics

  // What one call of the wrapped function does: resolves or rejects.
  datatype Outcome<+T, +E> = Success(value: T) | Failure(error: E)

  function Max(a: int, b: int): int {
    if a >= b then a else b
  }

  function Min(a: int, b: int): int {
    if a <= b then a else b
  }

  // The f-th call, counted from one, is the first to succeed.
  ghost predicate FirstSuccess<T, E>(outcomes: nat -> Outcome<T, E>, f: nat) {
    f >= 1 && outcomes(f - 1).Success? && forall i: nat :: i < f - 1 ==> outcomes(i).Failure?
  }

  function Sum(xs: seq<int>): int {
    if xs == [] then 0 else Sum(xs[..|xs| - 1]) + xs[|xs| - 1]
  }

  lemma SumAppend(xs: seq<int>, x: int)
    ensures Sum(xs + [x]) == Sum(xs) + x
  {
    assert (xs + [x])[..|xs|] == xs;
  }

  // n delays, each twice the one before.
  function Doubling(first: int, n: nat): (r: seq<int>)
    ensures |r| == n
  {
    if n == 0 then [] else Doubling(first, n - 1) + [first * Pow2(n - 1)]
  }

  /** The delays add up to first * (2^n - 1). */
  lemma {:induction false} DoublingTotal(first: int, n: nat)
    ensures Sum(Doubling(first, n)) == first * (Pow2(n) - 1)
  {
    if n > 0 {
      DoublingTotal(first, n - 1);
      SumAppend(Doubling(first, n - 1), first * Pow2(n - 1));
    }
  }

  // onRetry's arguments for the first n failures.
  ghost predicate Reported<T, E>(outcomes: nat -> Outcome<T, E>, retries: seq<(int, E)>, n: nat) {
    |retries| == n && forall i: nat :: i < n ==> outcomes(i).Failure? && retries[i] == (i + 1, outcomes(i).error)
  }

  /**
   For every sequence of outcomes and every integer maxAttempts: the number of calls, what onRetry
   (if given) is called with, the delays asked for and their total, and which outcome is passed on.
   */
  method WithReconnect<T, E>(outcomes: nat -> Outcome<T, E>, maxAttempts: int, baseDelayMs: int, hasOnRetry: bool)
      returns (r: Outcome<T, E>, calls: nat, retries: seq<(int, E)>, delays: seq<int>)
    ensures forall f: nat :: FirstSuccess(outcomes, f) ==> calls == Max(1, Min(f, maxAttempts))
    ensures (forall i: nat :: outcomes(i).Failure?) ==> calls == Max(1, maxAttempts)
    ensures calls >= 1 && r == outcomes(calls - 1)
    ensures forall i: nat :: i < calls - 1 ==> outcomes(i).Failure?
    ensures if hasOnRetry then Reported(outcomes, retries, calls - 1) else retries == []
    ensures delays == Doubling(baseDelayMs, calls - 1)
    ensures Sum(delays) == baseDelayMs * (Pow2(calls - 1) - 1)
  {
    var attempt := 0;
    retries, delays := [], [];
    while true
      invariant attempt >= 0 && (attempt > 0 ==> attempt < maxAttempts)
      invariant forall i: nat :: i < attempt ==> outcomes(i).Failure?
      invariant if hasOnRetry then Reported(outcomes, retries, attempt) else retries == []
      invariant delays == Doubling(baseDelayMs, attempt)
      decreases maxAttempts - attempt
    {
      r := outcomes(attempt);
      calls := attempt + 1;
      DoublingTotal(baseDelayMs, attempt);
      if r.Success? {
        return;
      }
      attempt := attempt + 1;
      if attempt >= maxAttempts {
        return;
      }
      if hasOnRetry {
        retries := retries + [(attempt, r.error)];
      }
      var delay := baseDelayMs * Pow2(attempt - 1);
      delays := delays + [delay];
    }
  }
}
