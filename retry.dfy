/** Retrying a call with exponential back-off (utils/retry.py). The wrapped
    call is a function of the attempt number (0-based) giving what that
    attempt returned or raised; `retryable` is the `exceptions` filter;
    sleeping is recorded as a trace of delays. */
module Retry {
  import opened Common

  /** What one attempt of the wrapped call did. */
  datatype Attempt<+T, +X> = Returned(value: T) | Raised(exc: X)

  /** What the decorated call does: return a value, raise an exception, or
      (when no attempt is made at all) execute `raise None`, which Python
      turns into a TypeError. */
  datatype Outcome<+T, +X> = Returns(value: T) | Raises(exc: X) | NothingToRaise

  /** The delay before the (k+2)-th attempt: delay * backoff^k. */
  function Delay(delay: real, backoff: real, k: nat): (d: real)
    ensures k == 0 ==> d == delay
  {
    if k == 0 then delay else Delay(delay, backoff, k - 1) * backoff
  }

  /** The first `n` sleeps of the back-off: delay, delay*backoff, delay*backoff^2, ... */
  function Schedule(delay: real, backoff: real, n: nat): (s: seq<real>)
    ensures |s| == n
    ensures forall k | 0 <= k < n :: s[k] == Delay(delay, backoff, k)
  {
    if n == 0 then [] else Schedule(delay, backoff, n - 1) + [Delay(delay, backoff, n - 1)]
  }

  /** The loop of the wrapper of `retry` (and, with asyncio.sleep, of
      `retry_async`). Every attempt but the last raised a retryable
      exception; the last one returned, raised a non-retryable exception
      (which propagates at once) or was the final allowed attempt. */
  method Retry<T, X>(maxAttempts: int, delay: real, backoff: real, retryable: X -> bool, call: nat -> Attempt<T, X>)
    returns (r: Outcome<T, X>, calls: nat, sleeps: seq<real>)
    ensures calls <= Max(maxAttempts, 0)
    ensures r.NothingToRaise? <==> maxAttempts <= 0
    ensures r.NothingToRaise? ==> calls == 0
    ensures forall k | 0 <= k < calls - 1 :: call(k).Raised? && retryable(call(k).exc)
    ensures r.Returns? ==> calls >= 1 && call(calls - 1) == Returned(r.value)
    ensures r.Raises? ==> calls >= 1 && call(calls - 1) == Raised(r.exc)
    ensures r.Raises? && retryable(r.exc) ==> calls == maxAttempts
    ensures sleeps == Schedule(delay, backoff, if calls == 0 then 0 else calls - 1)
  {
    var currentDelay := delay;
    var last: Option<X> := None;
    var attempt := 0;
    calls := 0;
    sleeps := [];
    while attempt < maxAttempts
      invariant 0 <= attempt <= Max(maxAttempts, 0)
      invariant calls == attempt
      invariant forall k | 0 <= k < attempt :: call(k).Raised? && retryable(call(k).exc)
      invariant last == if attempt == 0 then None else Some(call(attempt - 1).exc)
      invariant sleeps == Schedule(delay, backoff, if attempt == 0 then 0 else Min(attempt, maxAttempts - 1))
      invariant currentDelay == Delay(delay, backoff, |sleeps|)
    {
      calls := calls + 1;
      var a := call(attempt);
      if a.Returned? {
        r := Returns(a.value);
        return;
      }
      if !retryable(a.exc) {
        r := Raises(a.exc);
        return;
      }
      last := Some(a.exc);
      if attempt < maxAttempts - 1 {
        assert sleeps == Schedule(delay, backoff, attempt);
        sleeps := sleeps + [currentDelay];
        currentDelay := currentDelay * backoff;
        assert sleeps == Schedule(delay, backoff, attempt + 1);
      }
      attempt := attempt + 1;
    }
    if last.Some? {
      r := Raises(last.value);
    } else {
      r := NothingToRaise;
    }
  }

  /** RetryContext: an iterator handing out attempt numbers 1..maxAttempts,
      sleeping between attempts. */
  class RetryContext {
    const maxAttempts: int
    const delay: real
    const backoff: real
    var attempt: int
    var currentDelay: real
    /** The delays slept so far. */
    var sleeps: seq<real>

    ghost predicate Valid()
      reads this
    {
      && attempt >= 0
      && sleeps == Schedule(delay, backoff, if attempt == 0 then 0 else attempt - 1)
      && currentDelay == Delay(delay, backoff, |sleeps|)
    }

    constructor(maxAttempts: int, delay: real, backoff: real)
      ensures Valid()
      ensures this.maxAttempts == maxAttempts && this.delay == delay && this.backoff == backoff
      ensures attempt == 0 && currentDelay == delay && sleeps == []
    {
      this.maxAttempts := maxAttempts;
      this.delay := delay;
      this.backoff := backoff;
      attempt := 0;
      currentDelay := delay;
      sleeps := [];
    }

    /** __next__: None plays StopIteration once maxAttempts attempts were handed out. */
    method Next() returns (n: Option<int>)
      requires Valid()
      modifies this
      ensures Valid()
      ensures old(attempt) >= maxAttempts ==> n == None && attempt == old(attempt) && sleeps == old(sleeps)
      ensures old(attempt) < maxAttempts ==> n == Some(attempt) && attempt == old(attempt) + 1
      ensures old(attempt) < maxAttempts ==>
                sleeps == old(sleeps) + (if old(attempt) > 0 then [old(currentDelay)] else [])
      ensures n.Some? ==> 1 <= n.value <= maxAttempts
    {
      if attempt >= maxAttempts {
        return None;
      }
      if attempt > 0 {
        sleeps := sleeps + [currentDelay];
        currentDelay := currentDelay * backoff;
      }
      attempt := attempt + 1;
      n := Some(attempt);
    }

    /** reset: back to the state the constructor leaves, the trace of past
        sleeps aside. */
    method Reset()
      modifies this
      ensures Valid()
      ensures attempt == 0 && currentDelay == delay && sleeps == []
    {
      attempt := 0;
      currentDelay := delay;
      sleeps := [];
    }
  }
}
