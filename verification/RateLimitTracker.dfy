/** Provider cool-down after a 429 (internal/resilience/ratelimit.go). */
module RateLimitTrackers {

  /** 60 seconds, in nanoseconds. */
  const DEFAULT_RETRY_AFTER := 60_000_000_000

  datatype Limit = Limit(last: int, retryAfter: int, count: nat)

  type Limits = map<string, Limit>

  /** The provider still cools down at `now`. */
  predicate Cooling(l: Limits, provider: string, now: int) {
    && provider in l
    && 0 < l[provider].retryAfter
    && now - l[provider].last < l[provider].retryAfter
  }

  function Recorded(l: Limits, provider: string, retryAfter: int, now: int): Limits {
    l[provider := Limit(now, retryAfter, (if provider in l then l[provider].count else 0) + 1)]
  }

  class RateLimitTracker {
    var providers: Limits

    constructor ()
      ensures providers == map[]
    {
      providers := map[];
    }

    method RecordRateLimit(provider: string, retryAfter: int, now: int)
      modifies this
      ensures providers == Recorded(old(providers), provider, retryAfter, now)
    {
      var count := 0;
      if provider in providers {
        count := providers[provider].count;
      }
      providers := providers[provider := Limit(now, retryAfter, count + 1)];
    }

    /** `remaining` is the least time after which the provider no longer waits. */
    method ShouldWait(provider: string, now: int) returns (wait: bool, remaining: int)
      ensures wait <==> Cooling(providers, provider, now)
      ensures wait ==> 0 < remaining && forall at | now <= at ::
                Cooling(providers, provider, at) <==> at < now + remaining
      ensures !wait ==> remaining == 0
    {
      if provider !in providers {
        return false, 0;
      }
      var rl := providers[provider];
      if rl.retryAfter <= 0 {
        return false, 0;
      }
      var elapsed := now - rl.last;
      if elapsed >= rl.retryAfter {
        return false, 0;
      }
      return true, rl.retryAfter - elapsed;
    }

    method Reset(provider: string)
      modifies this
      ensures providers == old(providers) - {provider}
    {
      providers := providers - {provider};
    }
  }
}
