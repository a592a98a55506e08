/** Bounded retries with exponential backoff and full jitter (internal/resilience/retry.go). */
module Retries {
  import opened Basics
  import opened ProviderErrors

  /** One millisecond, in nanoseconds. */
  const MILLISECOND := 1_000_000

  datatype RetryConfig = RetryConfig(maxAttempts: int, baseDelay: int, maxDelay: int)

  datatype Outcome<T> = Ok(value: T) | Err(error: Error)

  /**
   What surrounds one retried call: what the n-th attempt yields, whether the context
   has ended before the n-th attempt or ends during the sleep after it, the random
   draw for that sleep, and the error of the context.
   */
  datatype Env<!T> = Env(
    outcome: nat -> Outcome<T>,
    endedBefore: nat -> bool,
    endedDuring: nat -> bool,
    draw: nat -> real,
    ctxError: ContextError)
  {
    ghost predicate Valid() {
      forall n :: 0.0 <= draw(n) < 1.0
    }

    ghost predicate NeverEnds() {
      forall n :: !endedBefore(n) && !endedDuring(n)
    }
  }

  /** `Nothing` is the zero value with a nil error, returned when no attempt is allowed. */
  datatype RetryResult<T> = Returned(value: T) | Nothing | Gave(error: Error)

  function Pow2(n: nat): (p: nat)
    ensures p >= 1
  {
    if n == 0 then 1 else 2 * Pow2(n - 1)
  }

  /** The backoff starts at the base delay and doubles with each attempt. */
  lemma BackoffDoubles(cfg: RetryConfig, attempt: nat)
    ensures cfg.baseDelay * Pow2(0) == cfg.baseDelay
    ensures cfg.baseDelay * Pow2(attempt + 1) == 2 * (cfg.baseDelay * Pow2(attempt))
  {
  }

  lemma ProductNonNegative(a: real, b: real)
    requires 0.0 <= a && 0.0 <= b
    ensures 0.0 <= a * b
  {
  }

  /** A share `u` of `c`, rounded down, is at most `c`, or at most 0. */
  lemma ShareBounded(u: real, c: int)
    requires 0.0 <= u < 1.0
    ensures (u * (c as real)).Floor <= Max(0, c)
  {
    var r := c as real;
    if c >= 0 {
      ProductNonNegative(1.0 - u, r);
      assert u * r <= r;
    } else {
      ProductNonNegative(u, -r);
      assert u * r <= 0.0;
    }
  }

  /** `d` nanoseconds are the share `u` of `c`, less than one off, or a millisecond when that is more. */
  predicate IsShare(d: int, u: real, c: int) {
    var x := u * (c as real);
    if x < 1_000_000.0 then d == 1_000_000 else d as real <= x < d as real + 1.0
  }

  function Share(u: real, c: int): (d: int)
    ensures IsShare(d, u, c)
  {
    Max(MILLISECOND, (u * (c as real)).Floor)
  }

  /** calculateDelay, for the random draw `u`. */
  function Delay(attempt: nat, cfg: RetryConfig, u: real): (d: int)
    requires 0.0 <= u < 1.0
    ensures MILLISECOND <= d <= Max(MILLISECOND, Min(cfg.maxDelay, cfg.baseDelay * Pow2(attempt)))
  {
    var backoff := Min(cfg.maxDelay, cfg.baseDelay * Pow2(attempt));
    ShareBounded(u, backoff);
    Share(u, backoff)
  }

  /** Every draw's delay is its share of the capped backoff. */
  lemma DelayIsShare(attempt: nat, cfg: RetryConfig, u: real)
    requires 0.0 <= u < 1.0
    ensures IsShare(Delay(attempt, cfg, u), u, Min(cfg.maxDelay, cfg.baseDelay * Pow2(attempt)))
  {
    hide IsShare;
    hide Share;
    hide Pow2;
    hide Min;
  }

  /** The result and the number of calls made, from attempt `k` on. */
  function Attempt<T>(cfg: RetryConfig, retryable: Error -> bool, env: Env<T>, k: nat): (RetryResult<T>, nat)
    requires k < cfg.maxAttempts
    decreases cfg.maxAttempts - k
  {
    if env.endedBefore(k) then (Gave(Wrapped(env.ctxError)), k)
    else
      match env.outcome(k)
      case Ok(v) => (Returned(v), k + 1)
      case Err(e) =>
        if !retryable(e) || k == cfg.maxAttempts - 1 then (Gave(e), k + 1)
        else if env.endedDuring(k) then (Gave(Wrapped(env.ctxError)), k + 1)
        else Attempt(cfg, retryable, env, k + 1)
  }

  function Retried<T>(cfg: RetryConfig, retryable: Error -> bool, env: Env<T>): (RetryResult<T>, nat) {
    if cfg.maxAttempts <= 0 then (Nothing, 0) else Attempt(cfg, retryable, env, 0)
  }

  /** Attempt `k` fails with a retryable error, is not the last, and the context lives on. */
  predicate GoesOn<T>(cfg: RetryConfig, retryable: Error -> bool, env: Env<T>, k: nat) {
    && !env.endedBefore(k) && !env.endedDuring(k)
    && env.outcome(k).Err? && retryable(env.outcome(k).error)
    && k < cfg.maxAttempts - 1
  }

  /** The first attempt that does not go on. */
  function FirstStop<T>(cfg: RetryConfig, retryable: Error -> bool, env: Env<T>, from: nat): (k: nat)
    requires from < cfg.maxAttempts
    ensures from <= k < cfg.maxAttempts && !GoesOn(cfg, retryable, env, k)
    ensures forall j | from <= j < k :: GoesOn(cfg, retryable, env, j)
    decreases cfg.maxAttempts - from
  {
    if GoesOn(cfg, retryable, env, from) then FirstStop(cfg, retryable, env, from + 1) else from
  }

  /** The sleep after attempt `k` is begun, and ended by the context. */
  predicate CutShort<T>(cfg: RetryConfig, retryable: Error -> bool, env: Env<T>, k: nat) {
    && !env.endedBefore(k) && env.outcome(k).Err? && retryable(env.outcome(k).error)
    && k < cfg.maxAttempts - 1 && env.endedDuring(k)
  }

  /** One sleep after each attempt that goes on, and the one that is cut short. */
  function SleepCount<T>(cfg: RetryConfig, retryable: Error -> bool, env: Env<T>): nat {
    if cfg.maxAttempts <= 0 then 0
    else
      var k := FirstStop(cfg, retryable, env, 0);
      if CutShort(cfg, retryable, env, k) then k + 1 else k
  }

  /**
   The retried call is decided by the first attempt that does not go on, and nothing is
   called after it.
   */
  lemma {:induction false} DecidedByFirstStop<T>(cfg: RetryConfig, retryable: Error -> bool, env: Env<T>, from: nat)
      returns (k: nat)
    requires from < cfg.maxAttempts
    ensures k == FirstStop(cfg, retryable, env, from)
    ensures from <= k < cfg.maxAttempts
    ensures forall j | from <= j < k :: GoesOn(cfg, retryable, env, j)
    ensures !GoesOn(cfg, retryable, env, k)
    ensures env.endedBefore(k) ==> Attempt(cfg, retryable, env, from) == (Gave(Wrapped(env.ctxError)), k)
    ensures !env.endedBefore(k) ==> Attempt(cfg, retryable, env, from).1 == k + 1
    ensures !env.endedBefore(k) && env.outcome(k).Ok? ==>
              Attempt(cfg, retryable, env, from).0 == Returned(env.outcome(k).value)
    ensures !env.endedBefore(k) && env.outcome(k).Err?
              && (!retryable(env.outcome(k).error) || k == cfg.maxAttempts - 1) ==>
              Attempt(cfg, retryable, env, from).0 == Gave(env.outcome(k).error)
    ensures !env.endedBefore(k) && env.outcome(k).Err? && retryable(env.outcome(k).error) && k < cfg.maxAttempts - 1 ==>
              Attempt(cfg, retryable, env, from).0 == Gave(Wrapped(env.ctxError))
    decreases cfg.maxAttempts - from
  {
    if GoesOn(cfg, retryable, env, from) {
      k := DecidedByFirstStop(cfg, retryable, env, from + 1);
    } else {
      k := from;
    }
  }

  /**
   Under a live context the answer is that of the first attempt that succeeds, is not
   retryable or is the last one allowed, and no call follows it.
   */
  lemma LiveContextAnswer<T>(cfg: RetryConfig, retryable: Error -> bool, env: Env<T>) returns (k: nat)
    requires cfg.maxAttempts >= 1 && env.NeverEnds()
    ensures k < cfg.maxAttempts
    ensures forall j: nat | j < k :: env.outcome(j).Err? && retryable(env.outcome(j).error)
    ensures env.outcome(k).Ok? || !retryable(env.outcome(k).error) || k == cfg.maxAttempts - 1
    ensures Retried(cfg, retryable, env).1 == k + 1
    ensures Retried(cfg, retryable, env).0 ==
              match env.outcome(k) { case Ok(v) => Returned(v) case Err(e) => Gave(e) }
  {
    k := DecidedByFirstStop(cfg, retryable, env, 0);
    assert !env.endedBefore(k) && !env.endedDuring(k);
    forall j: nat | j < k ensures env.outcome(j).Err? && retryable(env.outcome(j).error) {
      assert GoesOn(cfg, retryable, env, j);
    }
  }

  /** The delays slept after the first `n` attempts. */
  function Backoffs<T>(cfg: RetryConfig, env: Env<T>, n: nat): (d: seq<int>)
    requires env.Valid()
    ensures |d| == n
  {
    if n == 0 then [] else Backoffs(cfg, env, n - 1) + [Delay(n - 1, cfg, env.draw(n - 1))]
  }

  function Sum(xs: seq<int>): int {
    if xs == [] then 0 else Sum(xs[..|xs|-1]) + xs[|xs|-1]
  }

  lemma DelayAtMostBackoff(attempt: nat, cfg: RetryConfig, u: real)
    requires 0.0 <= u < 1.0
    requires MILLISECOND <= cfg.baseDelay
    ensures Delay(attempt, cfg, u) <= cfg.baseDelay * Pow2(attempt)
  {
    hide Delay;
    hide Pow2;
    assert cfg.baseDelay * Pow2(attempt) >= cfg.baseDelay * 1;
  }

  /** Each sleep is its own draw's share of its capped backoff, and at least a millisecond. */
  lemma {:induction false} EachSleepBounded<T>(cfg: RetryConfig, env: Env<T>, n: nat, i: nat)
    requires env.Valid() && i < n
    ensures MILLISECOND <= Backoffs(cfg, env, n)[i] <= Max(MILLISECOND, Min(cfg.maxDelay, cfg.baseDelay * Pow2(i)))
    ensures IsShare(Backoffs(cfg, env, n)[i], env.draw(i), Min(cfg.maxDelay, cfg.baseDelay * Pow2(i)))
  {
    DelayIsShare(i, cfg, env.draw(i));
    hide IsShare;
    hide Delay;
    hide Pow2;
    if i < n - 1 {
      EachSleepBounded(cfg, env, n - 1, i);
    }
  }

  lemma GeometricStep(sum: int, d: int, b: int, p: int)
    requires sum <= b * (p - 1) && d <= b * p
    ensures sum + d <= b * (2 * p - 1)
  {
  }

  /** The sleeps together stay under the geometric sum of the backoffs. */
  lemma {:induction false} TotalSleepBounded<T>(cfg: RetryConfig, env: Env<T>, n: nat)
    requires env.Valid() && MILLISECOND <= cfg.baseDelay
    ensures Sum(Backoffs(cfg, env, n)) <= cfg.baseDelay * (Pow2(n) - 1)
  {
    hide Delay;
    if n > 0 {
      var d := Backoffs(cfg, env, n);
      assert d[..n-1] == Backoffs(cfg, env, n - 1) && Sum(d) == Sum(d[..n-1]) + d[n-1];
      TotalSleepBounded(cfg, env, n - 1);
      DelayAtMostBackoff(n - 1, cfg, env.draw(n - 1));
      GeometricStep(Sum(d[..n-1]), d[n-1], cfg.baseDelay, Pow2(n - 1));
    }
  }

  lemma {:induction false} PowMonotone(m: nat, n: nat)
    requires m <= n
    ensures Pow2(m) <= Pow2(n)
  {
    if m < n {
      PowMonotone(m, n - 1);
    }
  }

  lemma ScaleMonotone(b: nat, x: int, y: int)
    requires x <= y
    ensures b * x <= b * y
  {
  }

  /** At most `base * (2^(attempts-1) - 1)`. */
  predicate WithinBudget(cfg: RetryConfig, total: int)
    requires 1 <= cfg.maxAttempts
  {
    total <= cfg.baseDelay * (Pow2(cfg.maxAttempts - 1) - 1)
  }

  /** However a retried call ends, it sleeps at most `base * (2^(attempts-1) - 1)` in all. */
  lemma TotalSleepWithinConfig<T>(cfg: RetryConfig, env: Env<T>, n: nat)
    requires env.Valid() && MILLISECOND <= cfg.baseDelay
    requires n < cfg.maxAttempts
    ensures WithinBudget(cfg, Sum(Backoffs(cfg, env, n)))
  {
    TotalSleepBounded(cfg, env, n);
    PowMonotone(n, cfg.maxAttempts - 1);
    ScaleMonotone(cfg.baseDelay, Pow2(n) - 1, Pow2(cfg.maxAttempts - 1) - 1);
  }

  lemma AttemptUnfold<T>(cfg: RetryConfig, retryable: Error -> bool, env: Env<T>, k: nat)
    requires k < cfg.maxAttempts
    ensures Attempt(cfg, retryable, env, k) ==
              if env.endedBefore(k) then (Gave(Wrapped(env.ctxError)), k)
              else match env.outcome(k)
                   case Ok(v) => (Returned(v), k + 1)
                   case Err(e) =>
                     if !retryable(e) || k == cfg.maxAttempts - 1 then (Gave(e), k + 1)
                     else if env.endedDuring(k) then (Gave(Wrapped(env.ctxError)), k + 1)
                     else Attempt(cfg, retryable, env, k + 1)
  {
  }

  lemma NoBackoffs<T>(cfg: RetryConfig, env: Env<T>)
    requires env.Valid()
    ensures Backoffs(cfg, env, 0) == []
  {
  }

  lemma NextBackoff<T>(cfg: RetryConfig, env: Env<T>, n: nat)
    requires env.Valid()
    ensures Backoffs(cfg, env, n + 1) == Backoffs(cfg, env, n) + [Delay(n, cfg, env.draw(n))]
  {
  }

  /** The loop of RetryWithResult. */
  method Loop<T>(cfg: RetryConfig, retryable: Error -> bool, env: Env<T>)
    returns (result: RetryResult<T>, calls: nat, sleeps: seq<int>)
    requires env.Valid()
    ensures (result, calls) == Retried(cfg, retryable, env)
    ensures calls - 1 <= |sleeps| <= Min(calls, Max(0, cfg.maxAttempts - 1)) && calls <= Max(0, cfg.maxAttempts)
    ensures |sleeps| == SleepCount(cfg, retryable, env)
    ensures sleeps == Backoffs(cfg, env, |sleeps|)
  {
    hide Delay;
    hide Backoffs;
    hide Attempt;
    NoBackoffs(cfg, env);
    result, calls, sleeps := Nothing, 0, [];
    var attempt := 0;
    while attempt < cfg.maxAttempts
      invariant 0 <= attempt <= Max(0, cfg.maxAttempts) && calls == attempt
      invariant attempt < cfg.maxAttempts ==>
                  Retried(cfg, retryable, env) == Attempt(cfg, retryable, env, attempt)
      invariant attempt >= cfg.maxAttempts ==> (result, calls) == Retried(cfg, retryable, env)
      invariant |sleeps| == if attempt < cfg.maxAttempts then attempt else Max(0, attempt - 1)
      invariant sleeps == Backoffs(cfg, env, |sleeps|)
      invariant attempt < cfg.maxAttempts ==>
                  FirstStop(cfg, retryable, env, 0) == FirstStop(cfg, retryable, env, attempt)
      invariant attempt >= cfg.maxAttempts ==> |sleeps| == SleepCount(cfg, retryable, env)
    {
      AttemptUnfold(cfg, retryable, env, attempt);
      NextBackoff(cfg, env, attempt);
      if env.endedBefore(attempt) {
        return Gave(Wrapped(env.ctxError)), calls, sleeps;
      }
      calls := calls + 1;
      match env.outcome(attempt)
      case Ok(v) =>
        return Returned(v), calls, sleeps;
      case Err(e) =>
        if !retryable(e) {
          return Gave(e), calls, sleeps;
        }
        result := Gave(e);
        if attempt < cfg.maxAttempts - 1 {
          sleeps := sleeps + [Delay(attempt, cfg, env.draw(attempt))];
          if env.endedDuring(attempt) {
            return Gave(Wrapped(env.ctxError)), calls, sleeps;
          }
        }
        attempt := attempt + 1;
    }
  }

  /** RetryWithResult; `sleeps` are the delays begun, in order, the last one perhaps cut short by the context. */
  method RetryWithResult<T>(cfg: RetryConfig, retryable: Error -> bool, env: Env<T>)
    returns (result: RetryResult<T>, calls: nat, sleeps: seq<int>)
    requires env.Valid()
    ensures (result, calls) == Retried(cfg, retryable, env)
    ensures calls - 1 <= |sleeps| <= Min(calls, Max(0, cfg.maxAttempts - 1)) && calls <= Max(0, cfg.maxAttempts)
    ensures |sleeps| == SleepCount(cfg, retryable, env)
    ensures sleeps == Backoffs(cfg, env, |sleeps|)
    ensures MILLISECOND <= cfg.baseDelay && 1 <= cfg.maxAttempts ==> WithinBudget(cfg, Sum(sleeps))
  {
    hide Retried;
    hide Backoffs;
    hide Sum;
    hide WithinBudget;
    result, calls, sleeps := Loop(cfg, retryable, env);
    if MILLISECOND <= cfg.baseDelay && 1 <= cfg.maxAttempts {
      TotalSleepWithinConfig(cfg, env, |sleeps|);
    }
  }
}
