/**
 The per-IP token bucket with background cleanup (internal/api/middleware.go,
 RateLimit). Times are seconds and tokens are real numbers.
 */
module RateLimiters {
  import opened Basics

  /** Entries unseen for longer than this are deleted: 10 minutes. */
  const STALE_AFTER := 600.0

  datatype Policy = Policy(rate: int, burst: int)
  {
    ghost predicate Valid() {
      0 <= rate
    }
  }

  datatype Bucket = Bucket(tokens: real, lastSeen: real)

  type Clients = map<string, Bucket>

  function Lesser(a: real, b: real): real {
    if a < b then a else b
  }

  /** The tokens earned in `d` seconds. */
  function Earned(p: Policy, d: real): real {
    d * p.rate as real
  }

  /** One request on an existing bucket. */
  function Touch(p: Policy, b: Bucket, now: real): (Bucket, bool) {
    var tokens := Lesser(p.burst as real, b.tokens + Earned(p, now - b.lastSeen));
    if tokens < 1.0 then (Bucket(tokens, now), false) else (Bucket(tokens - 1.0, now), true)
  }

  function Admit(p: Policy, m: Clients, ip: string, now: real): (Clients, bool) {
    var b := if ip in m then m[ip] else Bucket(p.burst as real, now);
    var (b', ok) := Touch(p, b, now);
    (m[ip := b'], ok)
  }

  function Swept(m: Clients, now: real): Clients {
    map ip | ip in m && now - m[ip].lastSeen <= STALE_AFTER :: m[ip]
  }

  class RateLimiter {
    const policy: Policy
    var clients: Clients

    constructor (policy: Policy)
      ensures this.policy == policy && clients == map[]
    {
      this.policy := policy;
      clients := map[];
    }

    method Allow(ip: string, now: real) returns (ok: bool)
      modifies this
      ensures (clients, ok) == Admit(policy, old(clients), ip, now)
    {
      if ip !in clients {
        clients := clients[ip := Bucket(policy.burst as real, now)];
      }
      var c := clients[ip];
      var elapsed := now - c.lastSeen;
      var tokens := c.tokens + Earned(policy, elapsed);
      if tokens > policy.burst as real {
        tokens := policy.burst as real;
      }
      if tokens < 1.0 {
        clients := clients[ip := Bucket(tokens, now)];
        assert clients == old(clients)[ip := Bucket(tokens, now)];
        return false;
      }
      clients := clients[ip := Bucket(tokens - 1.0, now)];
      assert clients == old(clients)[ip := Bucket(tokens - 1.0, now)];
      return true;
    }

    /** The body of the cleanup ticker. */
    method Cleanup(now: real)
      modifies this
      ensures clients == Swept(old(clients), now)
    {
      var todo := clients.Keys;
      while todo != {}
        invariant todo <= old(clients.Keys)
        invariant clients == map ip | ip in old(clients)
                    && (ip in todo || now - old(clients)[ip].lastSeen <= STALE_AFTER)
                               :: old(clients)[ip]
        decreases todo
      {
        var ip :| ip in todo;
        if now - clients[ip].lastSeen > STALE_AFTER {
          clients := clients - {ip};
        }
        todo := todo - {ip};
      }
    }
  }

  // ------------------------------------------------------------------
  // The reference: a bucket of one's own that is never deleted.
  // ------------------------------------------------------------------

  function After(p: Policy, b: Option<Bucket>, now: real): (Bucket, bool) {
    Touch(p, if b.Some? then b.value else Bucket(p.burst as real, now), now)
  }

  function Solo(p: Policy, b: Option<Bucket>, times: seq<real>): (ds: seq<bool>)
    ensures |ds| == |times|
    decreases |times|
  {
    if times == [] then []
    else
      var (b', ok) := After(p, b, times[0]);
      [ok] + Solo(p, Some(b'), times[1..])
  }

  // ------------------------------------------------------------------
  // Runs of the shared limiter.
  // ------------------------------------------------------------------

  datatype Event = Request(ip: string, at: real) | Sweep(at: real)

  /** The clock never goes back. */
  predicate Clocked(t: real, evs: seq<Event>)
    decreases |evs|
  {
    evs == [] || (t <= evs[0].at && Clocked(evs[0].at, evs[1..]))
  }

  function Next(p: Policy, m: Clients, e: Event): Clients {
    match e
    case Request(ip, at) => Admit(p, m, ip, at).0
    case Sweep(at) => Swept(m, at)
  }

  /** What the limiter answers to the requests of `ip`. */
  function Decisions(p: Policy, m: Clients, evs: seq<Event>, ip: string): seq<bool>
    decreases |evs|
  {
    if evs == [] then []
    else
      var rest := Decisions(p, Next(p, m, evs[0]), evs[1..], ip);
      if evs[0].Request? && evs[0].ip == ip then [Admit(p, m, ip, evs[0].at).1] + rest else rest
  }

  function Times(evs: seq<Event>, ip: string): seq<real> {
    if evs == [] then []
    else if evs[0].Request? && evs[0].ip == ip then [evs[0].at] + Times(evs[1..], ip)
    else Times(evs[1..], ip)
  }

  /** The bucket never holds more than `burst`, and is not below 0 unless `burst` is. */
  predicate InRange(p: Policy, b: Bucket) {
    Lesser(0.0, p.burst as real) <= b.tokens <= p.burst as real
  }

  lemma EarnedNonNegative(p: Policy, d: real)
    requires p.Valid() && 0.0 <= d
    ensures Earned(p, d) >= 0.0
  {
  }

  lemma EarnedAdds(p: Policy, d: real, d': real)
    ensures Earned(p, d) + Earned(p, d') == Earned(p, d + d')
  {
  }

  lemma EarnedGrows(p: Policy, d: real, d': real)
    requires p.Valid() && d <= d'
    ensures Earned(p, d) <= Earned(p, d')
  {
    hide Earned;
    EarnedAdds(p, d, d' - d);
    EarnedNonNegative(p, d' - d);
  }

  lemma TouchInRange(p: Policy, b: Bucket, now: real)
    requires p.Valid() && InRange(p, b) && b.lastSeen <= now
    ensures InRange(p, Touch(p, b, now).0)
  {
    hide Earned;
    EarnedNonNegative(p, now - b.lastSeen);
  }

  /** The bucket would be full at `t`. */
  predicate FullAt(p: Policy, b: Bucket, t: real) {
    b.tokens + Earned(p, t - b.lastSeen) >= p.burst as real
  }

  lemma StaleIsFull(p: Policy, b: Bucket, t: real)
    requires p.Valid() && InRange(p, b) && t - b.lastSeen > STALE_AFTER
    requires p.rate * 600 >= p.burst
    ensures FullAt(p, b, t)
  {
    EarnedGrows(p, STALE_AFTER, t - b.lastSeen);
    assert Earned(p, STALE_AFTER) >= p.burst as real;
  }

  /** The shared limiter and the private bucket agree about `ip` at time `t`. */
  ghost predicate Agree(p: Policy, m: Clients, b: Option<Bucket>, ip: string, t: real) {
    && (b.Some? ==> InRange(p, b.value) && b.value.lastSeen <= t)
    && (ip in m ==> b == Some(m[ip]))
    && (ip !in m && b.Some? ==> FullAt(p, b.value, t))
  }

  lemma EarnedZero(p: Policy)
    ensures Earned(p, 0.0) == 0.0
  {
  }

  lemma AgreeNext(p: Policy, m: Clients, b: Option<Bucket>, ip: string, t: real, e: Event)
    requires p.Valid() && p.rate * 600 >= p.burst && t <= e.at && Agree(p, m, b, ip, t)
    ensures e.Request? && e.ip == ip ==>
              && Admit(p, m, ip, e.at).1 == After(p, b, e.at).1
              && Agree(p, Next(p, m, e), Some(After(p, b, e.at).0), ip, e.at)
    ensures !(e.Request? && e.ip == ip) ==> Agree(p, Next(p, m, e), b, ip, e.at)
  {
    hide Earned;
    EarnedZero(p);
    if b.Some? {
      TouchInRange(p, b.value, e.at);
      if ip !in m {
        EarnedGrows(p, t - b.value.lastSeen, e.at - b.value.lastSeen);
      }
      if e.Sweep? && e.at - b.value.lastSeen > STALE_AFTER {
        StaleIsFull(p, b.value, e.at);
      }
    }
  }

  lemma {:induction false} Simulates(p: Policy, m: Clients, b: Option<Bucket>, ip: string, t: real, evs: seq<Event>)
    requires p.Valid() && p.rate * 600 >= p.burst
    requires Agree(p, m, b, ip, t) && Clocked(t, evs)
    ensures Decisions(p, m, evs, ip) == Solo(p, b, Times(evs, ip))
    decreases |evs|
  {
    if evs != [] {
      var e := evs[0];
      AgreeNext(p, m, b, ip, t, e);
      if e.Request? && e.ip == ip {
        Simulates(p, Next(p, m, e), Some(After(p, b, e.at).0), ip, e.at, evs[1..]);
        assert Times(evs, ip)[1..] == Times(evs[1..], ip);
      } else {
        Simulates(p, Next(p, m, e), b, ip, e.at, evs[1..]);
      }
    }
  }

  /**
   Cleanup is invisible and clients are isolated: over every run, with requests from any
   other clients and cleanup passes at any moments, the answers to `ip` are those of a
   bucket of its own that is never deleted, provided a bucket refills within the ten
   minutes after which it is deleted.
   */
  lemma CleanupInvisible(p: Policy, evs: seq<Event>, ip: string, t: real)
    requires p.Valid() && Clocked(t, evs)
    requires p.rate * 600 >= p.burst
    ensures Decisions(p, map[], evs, ip) == Solo(p, None, Times(evs, ip))
  {
    Simulates(p, map[], None, ip, t, evs);
  }

  /** The run without the requests of others. */
  function Own(evs: seq<Event>, ip: string): seq<Event> {
    if evs == [] then []
    else if evs[0].Request? && evs[0].ip != ip then Own(evs[1..], ip)
    else [evs[0]] + Own(evs[1..], ip)
  }

  /** For every policy: what other clients send never changes the answers to `ip`. */
  lemma {:induction false} OthersDoNotMatter(p: Policy, m: Clients, m': Clients, evs: seq<Event>, ip: string)
    requires ip in m <==> ip in m'
    requires ip in m ==> m[ip] == m'[ip]
    ensures Decisions(p, m, evs, ip) == Decisions(p, m', Own(evs, ip), ip)
    decreases |evs|
  {
    hide Touch;
    if evs != [] {
      var e := evs[0];
      if e.Request? && e.ip != ip {
        OthersDoNotMatter(p, Next(p, m, e), m', evs[1..], ip);
      } else {
        OthersDoNotMatter(p, Next(p, m, e), Next(p, m', e), evs[1..], ip);
        assert Own(evs, ip)[1..] == Own(evs[1..], ip);
      }
    }
  }

  // ------------------------------------------------------------------
  // The window bound.
  // ------------------------------------------------------------------

  function Count(ds: seq<bool>): nat {
    if ds == [] then 0 else (if ds[0] then 1 else 0) + Count(ds[1..])
  }

  /** Non-decreasing request times, from `t` to `end`. */
  predicate Ordered(t: real, times: seq<real>, end: real)
    decreases |times|
  {
    if times == [] then t <= end else t <= times[0] && Ordered(times[0], times[1..], end)
  }

  /** Everything admitted was in the bucket or was earned since. */
  lemma {:induction false} AdmittedWasEarned(p: Policy, b: Bucket, times: seq<real>, end: real)
    requires p.Valid() && 0 <= p.burst && InRange(p, b) && Ordered(b.lastSeen, times, end)
    ensures Count(Solo(p, Some(b), times)) as real <= b.tokens + Earned(p, end - b.lastSeen)
    decreases |times|
  {
    hide Earned;
    if times == [] {
      EarnedNonNegative(p, end - b.lastSeen);
    } else {
      var t := times[0];
      var (b', ok) := Touch(p, b, t);
      TouchInRange(p, b, t);
      AdmittedWasEarned(p, b', times[1..], end);
      EarnedAdds(p, t - b.lastSeen, end - t);
      assert Solo(p, Some(b), times)[1..] == Solo(p, Some(b'), times[1..]);
    }
  }

  /** The bucket after the given requests. */
  function SoloState(p: Policy, b: Option<Bucket>, times: seq<real>): Option<Bucket>
    decreases |times|
  {
    if times == [] then b else SoloState(p, Some(After(p, b, times[0]).0), times[1..])
  }

  lemma {:induction false} SoloSplits(p: Policy, b: Option<Bucket>, times: seq<real>, i: nat)
    requires i <= |times|
    ensures Solo(p, b, times)[i..] == Solo(p, SoloState(p, b, times[..i]), times[i..])
    decreases |times|
  {
    if i == 0 {
    } else {
      var b' := Some(After(p, b, times[0]).0);
      SoloSplits(p, b', times[1..], i - 1);
      assert times[..i][1..] == times[1..][..i-1];
      assert times[1..][i-1..] == times[i..];
      assert Solo(p, b, times)[i..] == Solo(p, b', times[1..])[i-1..];
    }
  }

  lemma {:induction false} SoloPrefix(p: Policy, b: Option<Bucket>, times: seq<real>, j: nat)
    requires j <= |times|
    ensures Solo(p, b, times)[..j] == Solo(p, b, times[..j])
    decreases |times|
  {
    if j > 0 {
      var b' := Some(After(p, b, times[0]).0);
      SoloPrefix(p, b', times[1..], j - 1);
      assert times[..j][1..] == times[1..][..j-1];
      assert Solo(p, b, times)[..j] == [Solo(p, b, times)[0]] + Solo(p, b', times[1..])[..j-1];
    }
  }

  lemma {:induction false} SoloStateInRange(p: Policy, b: Option<Bucket>, t: real, times: seq<real>, end: real)
    requires p.Valid() && Ordered(t, times, end)
    requires b.Some? ==> InRange(p, b.value) && b.value.lastSeen <= t
    ensures var s := SoloState(p, b, times);
            s.Some? ==> InRange(p, s.value) && s.value.lastSeen <= end
    decreases |times|
  {
    if times != [] {
      var b0 := if b.Some? then b.value else Bucket(p.burst as real, times[0]);
      TouchInRange(p, b0, times[0]);
      SoloStateInRange(p, Some(After(p, b, times[0]).0), times[0], times[1..], end);
    } else if b.Some? {
      OrderedEnds(t, times, end);
    }
  }

  lemma {:induction false} OrderedEnds(t: real, times: seq<real>, end: real)
    requires Ordered(t, times, end)
    ensures t <= end
    decreases |times|
  {
    if times != [] {
      OrderedEnds(times[0], times[1..], end);
    }
  }

  lemma {:induction false} OrderedSplits(t: real, times: seq<real>, end: real, i: nat)
    requires Ordered(t, times, end) && i < |times|
    ensures Ordered(t, times[..i], times[i])
    ensures Ordered(times[i], times[i..], end)
    decreases |times|
  {
    if i > 0 {
      OrderedSplits(times[0], times[1..], end, i - 1);
      assert times[..i][1..] == times[1..][..i-1];
      assert times[1..][i-1..] == times[i..];
    }
  }

  lemma {:induction false} OrderedPrefix(t: real, times: seq<real>, end: real, j: nat)
    requires Ordered(t, times, end) && 0 < j <= |times|
    ensures Ordered(t, times[..j], times[j-1])
    decreases |times|
  {
    if j > 1 {
      OrderedPrefix(times[0], times[1..], end, j - 1);
      assert times[..j][1..] == times[1..][..j-1];
    } else {
      assert times[..1][1..] == [];
    }
  }

  /** A stretch of requests, from whatever state the bucket is in. */
  lemma WindowFromState(p: Policy, b: Option<Bucket>, times: seq<real>, end: real)
    requires p.Valid() && 0 <= p.burst && times != [] && Ordered(times[0], times, end)
    requires b.Some? ==> InRange(p, b.value) && b.value.lastSeen <= times[0]
    ensures Count(Solo(p, b, times)) as real <= p.burst as real + Earned(p, end - times[0])
  {
    hide Earned;
    var b0 := if b.Some? then b.value else Bucket(p.burst as real, times[0]);
    var (b', ok) := Touch(p, b0, times[0]);
    TouchInRange(p, b0, times[0]);
    AdmittedWasEarned(p, b', times[1..], end);
    assert Solo(p, b, times)[1..] == Solo(p, Some(b'), times[1..]);
  }

  /**
   The window bound: of any stretch of consecutive requests within `W` seconds, at most
   `burst + rate * W` are admitted.
   */
  lemma WindowBound(p: Policy, times: seq<real>, i: nat, j: nat, W: real)
    requires p.Valid() && 0 <= p.burst
    requires i < j <= |times| && Ordered(times[0], times, times[|times|-1])
    requires times[j-1] - times[i] <= W
    ensures Count(Solo(p, None, times)[i..j]) as real <= p.burst as real + Earned(p, W)
  {
    hide Earned;
    hide Solo;
    hide SoloState;
    hide Ordered;
    hide Count;
    var ts := times[..j];
    var end := times[j-1];
    OrderedPrefix(times[0], times, times[|times|-1], j);
    OrderedSplits(times[0], ts, end, i);
    SoloPrefix(p, None, times, j);
    SoloSplits(p, None, ts, i);
    assert Solo(p, None, times)[i..j] == Solo(p, None, times)[..j][i..];
    SoloStateInRange(p, None, times[0], ts[..i], ts[i]);
    WindowFromState(p, SoloState(p, None, ts[..i]), ts[i..], end);
    EarnedGrows(p, end - times[i], W);
  }

  lemma {:induction false} TimesOrdered(t: real, evs: seq<Event>, ip: string)
    requires Clocked(t, evs)
    ensures var ts := Times(evs, ip);
            ts != [] ==> t <= ts[0] && Ordered(ts[0], ts, ts[|ts|-1])
    decreases |evs|
  {
    if evs != [] {
      TimesOrdered(evs[0].at, evs[1..], ip);
      if evs[0].Request? && evs[0].ip == ip {
        assert Times(evs, ip)[1..] == Times(evs[1..], ip);
      }
    }
  }

  /** The window bound for the shared limiter itself, over every run. */
  lemma LimiterWindowBound(p: Policy, evs: seq<Event>, ip: string, t: real, i: nat, j: nat, W: real)
    requires p.Valid() && 0 <= p.burst <= p.rate * 600 && Clocked(t, evs)
    requires i < j <= |Times(evs, ip)| && Times(evs, ip)[j-1] - Times(evs, ip)[i] <= W
    ensures |Decisions(p, map[], evs, ip)| == |Times(evs, ip)|
    ensures Count(Decisions(p, map[], evs, ip)[i..j]) as real <= p.burst as real + Earned(p, W)
  {
    hide Solo;
    hide Decisions;
    hide Count;
    hide Times;
    hide Ordered;
    hide Clocked;
    hide Earned;
    CleanupInvisible(p, evs, ip, t);
    TimesOrdered(t, evs, ip);
    WindowBound(p, Times(evs, ip), i, j, W);
  }

  // ------------------------------------------------------------------
  // Exactly which requests are admitted.
  // ------------------------------------------------------------------

  lemma {:induction false} CountAppend(ds: seq<bool>, d: bool)
    ensures Count(ds + [d]) == Count(ds) + if d then 1 else 0
  {
    if ds == [] {
      assert ds + [d] == [d];
    } else {
      CountAppend(ds[1..], d);
      assert (ds + [d])[1..] == ds[1..] + [d];
    }
  }

  lemma {:induction false} NextRequest(p: Policy, b: Option<Bucket>, times: seq<real>, i: nat)
    requires i < |times|
    ensures var (b', ok) := After(p, SoloState(p, b, times[..i]), times[i]);
            SoloState(p, b, times[..i+1]) == Some(b') && Solo(p, b, times)[i] == ok
    decreases |times|
  {
    hide After;
    if i == 0 {
      assert times[..1][1..] == [];
    } else {
      NextRequest(p, Some(After(p, b, times[0]).0), times[1..], i - 1);
      assert times[..i][1..] == times[1..][..i-1];
      assert times[..i+1][1..] == times[1..][..i];
    }
  }

  /** The tokens at hand when a request comes. */
  function Level(p: Policy, b: Option<Bucket>, now: real): real {
    if b.None? then p.burst as real
    else Lesser(p.burst as real, b.value.tokens + Earned(p, now - b.value.lastSeen))
  }

  lemma AfterByLevel(p: Policy, b: Option<Bucket>, now: real)
    ensures var l := Level(p, b, now);
            After(p, b, now) == if l < 1.0 then (Bucket(l, now), false) else (Bucket(l - 1.0, now), true)
  {
    hide Earned;
    EarnedZero(p);
  }

  /** What the window from request `k` on leaves for request `i`: burst and refill, less what was admitted. */
  function Room(p: Policy, times: seq<real>, ds: seq<bool>, k: nat, i: nat): real
    requires k <= i < |times| && i <= |ds|
  {
    p.burst as real + Earned(p, times[i] - times[k]) - Count(ds[k..i]) as real
  }

  lemma RoomStep(p: Policy, times: seq<real>, ds: seq<bool>, k: nat, i: nat)
    requires k < i < |times| && i <= |ds|
    ensures Room(p, times, ds, k, i) ==
              Room(p, times, ds, k, i - 1) - (if ds[i-1] then 1.0 else 0.0) + Earned(p, times[i] - times[i-1])
  {
    hide Earned;
    EarnedAdds(p, times[i-1] - times[k], times[i] - times[i-1]);
    CountAppend(ds[k..i-1], ds[i-1]);
    hide Count;
    assert ds[k..i] == ds[k..i-1] + [ds[i-1]];
  }

  lemma RoomAtOnce(p: Policy, times: seq<real>, ds: seq<bool>, i: nat)
    requires i < |times| && i <= |ds|
    ensures Room(p, times, ds, i, i) == p.burst as real
  {
    EarnedZero(p);
  }

  /** The tokens at hand are what the tightest window leaves. */
  lemma {:induction false} LevelIsLeastRoom(p: Policy, times: seq<real>, i: nat) returns (least: nat)
    requires i < |times|
    ensures var ds, l := Solo(p, None, times), Level(p, SoloState(p, None, times[..i]), times[i]);
            && least <= i && l == Room(p, times, ds, least, i)
            && (forall k: nat | k <= i :: l <= Room(p, times, ds, k, i))
            && (ds[i] <==> l >= 1.0)
  {
    hide Solo;
    hide After;
    hide Earned;
    var ds, b := Solo(p, None, times), SoloState(p, None, times[..i]);
    NextRequest(p, None, times, i);
    AfterByLevel(p, b, times[i]);
    RoomAtOnce(p, times, ds, i);
    least := i;
    if i > 0 {
      least := LevelIsLeastRoom(p, times, i - 1);
      NextRequest(p, None, times, i - 1);
      AfterByLevel(p, SoloState(p, None, times[..i-1]), times[i-1]);
      hide SoloState;
      hide Room;
      forall k: nat | k < i
        ensures Room(p, times, ds, k, i) ==
                  Room(p, times, ds, k, i - 1) - (if ds[i-1] then 1.0 else 0.0) + Earned(p, times[i] - times[i-1])
      {
        RoomStep(p, times, ds, k, i);
      }
      if Level(p, b, times[i]) == p.burst as real {
        least := i;
      }
    }
  }

  /**
   For every request up to number `i`, those admitted from it on and `i` itself are at most `burst`
   plus `rate` times the seconds passed.
   */
  ghost predicate WindowsAllow(p: Policy, times: seq<real>, ds: seq<bool>, i: nat)
    requires i < |times| && i <= |ds|
  {
    forall k | 0 <= k <= i ::
      Count(ds[k..i]) as real + 1.0 <= p.burst as real + (times[i] - times[k]) * p.rate as real
  }

  /** A request is admitted if and only if the window bound leaves room for it in every window. */
  lemma AdmittedIffWindowsAllow(p: Policy, times: seq<real>, i: nat)
    requires i < |times|
    ensures Solo(p, None, times)[i] <==> WindowsAllow(p, times, Solo(p, None, times), i)
  {
    hide Solo;
    hide Level;
    hide SoloState;
    hide Count;
    var ds := Solo(p, None, times);
    var least := LevelIsLeastRoom(p, times, i);
    forall k: nat | k <= i
      ensures Room(p, times, ds, k, i) ==
                p.burst as real + (times[i] - times[k]) * p.rate as real - Count(ds[k..i]) as real
    {
    }
    hide Room;
  }

  /** The same for the shared limiter, over every run. */
  lemma LimiterAdmitsIffWindowsAllow(p: Policy, evs: seq<Event>, ip: string, t: real, i: nat)
    requires p.Valid() && p.rate * 600 >= p.burst && Clocked(t, evs) && i < |Times(evs, ip)|
    ensures var ds, times := Decisions(p, map[], evs, ip), Times(evs, ip);
            |ds| == |times| && (ds[i] <==> WindowsAllow(p, times, ds, i))
  {
    hide Solo;
    hide WindowsAllow;
    CleanupInvisible(p, evs, ip, t);
    AdmittedIffWindowsAllow(p, Times(evs, ip), i);
  }

  // ------------------------------------------------------------------
  // A rejected request costs nothing.
  // ------------------------------------------------------------------

  /** After a rejection the bucket answers as if the request had not been made. */
  lemma RejectionLeavesBucket(p: Policy, b: Option<Bucket>, now: real, later: real)
    requires 1 <= p.burst && !After(p, b, now).1
    ensures After(p, Some(After(p, b, now).0), later) == After(p, b, later)
  {
    hide Earned;
    EarnedZero(p);
    if b.Some? {
      EarnedAdds(p, now - b.value.lastSeen, later - now);
    }
  }

  lemma {:induction false} NoBurstNoService(p: Policy, b: Option<Bucket>, times: seq<real>)
    requires p.burst < 1
    ensures forall j | 0 <= j < |times| :: !Solo(p, b, times)[j]
    decreases |times|
  {
    if times != [] {
      NoBurstNoService(p, Some(After(p, b, times[0]).0), times[1..]);
    }
  }

  /** Without a rejected request, every other request of the client is answered the same. */
  lemma {:induction false} RejectedIsFree(p: Policy, b: Option<Bucket>, times: seq<real>, i: nat)
    requires i < |times| && !Solo(p, b, times)[i]
    ensures Solo(p, b, Without(times, i)) == Without(Solo(p, b, times), i)
    decreases |times|
  {
    hide After;
    if p.burst < 1 {
      NoBurstNoService(p, b, times);
      NoBurstNoService(p, b, Without(times, i));
    } else {
      hide Solo;
      hide Without;
      var t, rest := times[0], times[1..];
      assert times == [t] + rest;
      var (b', ok) := After(p, b, t);
      SoloFirst(p, b, t, rest);
      if i == 0 {
        RejectedFirst(p, b, t, rest);
      } else {
        WithoutBehind(t, rest, i - 1);
        SoloFirst(p, b, t, Without(rest, i - 1));
        RejectedIsFree(p, Some(b'), rest, i - 1);
        WithoutBehind(ok, Solo(p, Some(b'), rest), i - 1);
      }
    }
  }

  lemma SoloFirst(p: Policy, b: Option<Bucket>, t: real, rest: seq<real>)
    ensures var (b', ok) := After(p, b, t); Solo(p, b, [t] + rest) == [ok] + Solo(p, Some(b'), rest)
  {
    hide After;
    assert ([t] + rest)[1..] == rest;
  }

  lemma RejectedFirst(p: Policy, b: Option<Bucket>, t: real, rest: seq<real>)
    requires 1 <= p.burst && !After(p, b, t).1
    ensures Solo(p, b, Without([t] + rest, 0)) == Without(Solo(p, b, [t] + rest), 0)
  {
    hide After;
    SoloFirst(p, b, t, rest);
    assert Without([t] + rest, 0) == rest;
    assert Without(Solo(p, b, [t] + rest), 0) == Solo(p, Some(After(p, b, t).0), rest);
    if rest != [] {
      RejectionLeavesBucket(p, b, t, rest[0]);
    }
  }

  lemma {:induction false} TimesConcat(first: seq<Event>, then_: seq<Event>, ip: string)
    ensures Times(first + then_, ip) == Times(first, ip) + Times(then_, ip)
  {
    if first == [] {
      assert first + then_ == then_;
    } else {
      hide Times;
      var e, rest := first[0], first[1..];
      TimesConcat(rest, then_, ip);
      assert first == [e] + rest;
      Associates([e], rest, then_);
      TimesOfFirst(e, rest, ip);
      TimesOfFirst(e, rest + then_, ip);
      Associates(if e.Request? && e.ip == ip then [e.at] else [], Times(rest, ip), Times(then_, ip));
    }
  }

  lemma Associates<T>(a: seq<T>, b: seq<T>, c: seq<T>)
    ensures (a + b) + c == a + (b + c)
  {
  }

  lemma TimesOfFirst(e: Event, rest: seq<Event>, ip: string)
    ensures Times([e] + rest, ip) == (if e.Request? && e.ip == ip then [e.at] else []) + Times(rest, ip)
  {
    assert ([e] + rest)[1..] == rest;
  }

  lemma {:induction false} ClockedWithout(t: real, evs: seq<Event>, n: nat)
    requires Clocked(t, evs) && n < |evs|
    ensures Clocked(t, Without(evs, n))
    decreases |evs|
  {
    if n == 0 {
      assert evs[..0] + evs[1..] == evs[1..];
      ClockedEarlier(t, evs[0].at, evs[1..]);
    } else {
      ClockedWithout(evs[0].at, evs[1..], n - 1);
      assert (evs[..n] + evs[n+1..])[1..] == evs[1..][..n-1] + evs[1..][n..];
    }
  }

  /** Over every run of the shared limiter, leaving out a rejected request changes no other answer to the client. */
  lemma RejectedIsFreeInEveryRun(p: Policy, evs: seq<Event>, ip: string, t: real, n: nat)
    requires p.Valid() && p.rate * 600 >= p.burst && Clocked(t, evs)
    requires n < |evs| && evs[n].Request? && evs[n].ip == ip
    ensures var ds, i := Decisions(p, map[], evs, ip), |Times(evs[..n], ip)|;
            i < |ds| && (!ds[i] ==> Decisions(p, map[], Without(evs, n), ip) == Without(ds, i))
  {
    hide Solo;
    hide Decisions;
    hide Clocked;
    var before, after := evs[..n], evs[n+1..];
    var times, i := Times(evs, ip), |Times(before, ip)|;
    assert evs == before + ([evs[n]] + after);
    TimesConcat(before, [evs[n]] + after, ip);
    TimesConcat(before, after, ip);
    TimesOfFirst(evs[n], after, ip);
    hide Times;
    assert times[..i] == Times(before, ip) && times[i+1..] == Times(after, ip);
    ClockedWithout(t, evs, n);
    CleanupInvisible(p, evs, ip, t);
    CleanupInvisible(p, before + after, ip, t);
    if !Decisions(p, map[], evs, ip)[i] {
      RejectedIsFree(p, None, times, i);
    }
  }

  // ------------------------------------------------------------------
  // The condition for invisible cleanup is exact.
  // ------------------------------------------------------------------

  /** `n` requests of `ip` at `at`. */
  function Salvo(ip: string, at: real, n: nat): seq<Event> {
    if n == 0 then [] else [Request(ip, at)] + Salvo(ip, at, n - 1)
  }

  /** With a whole token left and no time passed, a request takes one token. */
  lemma TakesOne(p: Policy, m: Clients, ip: string, at: real)
    requires ip in m && m[ip].lastSeen == at && 1.0 <= m[ip].tokens <= p.burst as real
    ensures Admit(p, m, ip, at) == (m[ip := Bucket(m[ip].tokens - 1.0, at)], true)
  {
    hide Earned;
    EarnedZero(p);
  }

  lemma AdmittedFirst(p: Policy, m: Clients, ip: string, at: real, evs: seq<Event>)
    requires evs != [] && evs[0] == Request(ip, at) && Admit(p, m, ip, at).1
    ensures Count(Decisions(p, m, evs, ip)) == 1 + Count(Decisions(p, Admit(p, m, ip, at).0, evs[1..], ip))
  {
    hide Admit;
    assert Decisions(p, m, evs, ip)[1..] == Decisions(p, Admit(p, m, ip, at).0, evs[1..], ip);
  }

  lemma SpentTogether(m: Clients, ip: string, at: real, n: nat)
    requires ip in m && 0 < n
    ensures var m' := m[ip := Bucket(m[ip].tokens - 1.0, at)];
            m'[ip := Bucket(m'[ip].tokens - (n - 1) as real, at)] == m[ip := Bucket(m[ip].tokens - n as real, at)]
  {
  }

  lemma {:induction false} SalvoTail(ip: string, at: real, n: nat, rest: seq<Event>)
    requires 0 < n
    ensures var evs := Salvo(ip, at, n) + rest;
            evs != [] && evs[0] == Request(ip, at) && evs[1..] == Salvo(ip, at, n - 1) + rest
  {
    var head, tail := [Request(ip, at)], Salvo(ip, at, n - 1);
    assert Salvo(ip, at, n) == head + tail;
    hide Salvo;
    assert head + tail + rest == head + (tail + rest);
  }

  /** A bucket with `n` whole tokens admits `n` requests at once. */
  lemma {:induction false} SalvoAdmitted(p: Policy, m: Clients, ip: string, at: real, n: nat, rest: seq<Event>)
    requires ip in m && m[ip].lastSeen == at && n as real <= m[ip].tokens <= p.burst as real
    ensures Count(Decisions(p, m, Salvo(ip, at, n) + rest, ip)) ==
              n + Count(Decisions(p, m[ip := Bucket(m[ip].tokens - n as real, at)], rest, ip))
    decreases n
  {
    hide Admit;
    hide Decisions;
    hide Count;
    if n == 0 {
      assert Salvo(ip, at, n) + rest == rest;
      assert m[ip := Bucket(m[ip].tokens - n as real, at)] == m;
    } else {
      var evs := Salvo(ip, at, n) + rest;
      SalvoTail(ip, at, n, rest);
      var m' := m[ip := Bucket(m[ip].tokens - 1.0, at)];
      TakesOne(p, m, ip, at);
      AdmittedFirst(p, m, ip, at, evs);
      SalvoAdmitted(p, m', ip, at, n - 1, rest);
      SpentTogether(m, ip, at, n);
    }
  }

  /** An absent entry answers like a full one. */
  lemma AbsentIsFull(p: Policy, ip: string, at: real, n: nat, rest: seq<Event>)
    requires 0 < n
    ensures var evs := Salvo(ip, at, n) + rest;
            Decisions(p, map[], evs, ip) == Decisions(p, map[ip := Bucket(p.burst as real, at)], evs, ip)
  {
    var evs := Salvo(ip, at, n) + rest;
    var full: Clients := map[ip := Bucket(p.burst as real, at)];
    assert evs[0] == Request(ip, at);
    assert Next(p, map[], evs[0]) == Next(p, full, evs[0]);
  }

  /** A full burst from an absent entry empties the bucket. */
  lemma SalvoFromAbsent(p: Policy, ip: string, at: real, rest: seq<Event>)
    requires 0 < p.burst
    ensures Count(Decisions(p, map[], Salvo(ip, at, p.burst) + rest, ip)) ==
              p.burst + Count(Decisions(p, map[ip := Bucket(0.0, at)], rest, ip))
  {
    hide Decisions;
    hide Count;
    hide Salvo;
    var full: Clients := map[ip := Bucket(p.burst as real, at)];
    AbsentIsFull(p, ip, at, p.burst, rest);
    SalvoAdmitted(p, full, ip, at, p.burst, rest);
    assert full[ip := Bucket(0.0, at)] == map[ip := Bucket(0.0, at)];
  }

  lemma {:induction false} SalvoClocked(ip: string, t: real, at: real, n: nat, rest: seq<Event>, end: real)
    requires t <= at && Clocked(at, rest) && Ordered(at, Times(rest, ip), end)
    ensures var evs := Salvo(ip, at, n) + rest;
            && Clocked(t, evs)
            && Ordered(if n == 0 then at else t, Times(evs, ip), end)
            && |Times(evs, ip)| == n + |Times(rest, ip)|
            && (n > 0 ==> Times(evs, ip)[0] == at)
    decreases n
  {
    hide Clocked;
    hide Ordered;
    hide Times;
    var evs := Salvo(ip, at, n) + rest;
    if n == 0 {
      assert evs == rest;
      ClockedEarlier(t, at, rest);
    } else {
      hide Salvo;
      var e, more := Request(ip, at), Salvo(ip, at, n - 1) + rest;
      SalvoTail(ip, at, n, rest);
      assert evs == [e] + more;
      SalvoClocked(ip, at, at, n - 1, rest, end);
      ClockedFirst(t, e, more);
      TimesOfFirst(e, more, ip);
      OrderedFirst(t, at, Times(more, ip), end);
    }
  }

  lemma ClockedFirst(t: real, e: Event, rest: seq<Event>)
    ensures Clocked(t, [e] + rest) <==> t <= e.at && Clocked(e.at, rest)
  {
    assert ([e] + rest)[1..] == rest;
  }

  lemma OrderedFirst(t: real, first: real, rest: seq<real>, end: real)
    ensures Ordered(t, [first] + rest, end) <==> t <= first && Ordered(first, rest, end)
  {
    assert ([first] + rest)[1..] == rest;
  }

  lemma SalvoTimes(ip: string, at: real, n: nat)
    ensures |Times(Salvo(ip, at, n), ip)| == n
  {
    assert Salvo(ip, at, n) + [] == Salvo(ip, at, n);
    SalvoClocked(ip, at, at, n, [], at);
  }

  lemma ClockedEarlier(t: real, t': real, evs: seq<Event>)
    requires t <= t' && Clocked(t', evs)
    ensures Clocked(t, evs)
  {
  }

  /**
   The condition of CleanupInvisible is exact. When a bucket does not refill in ten
   minutes, a client that spends its burst, waits for the cleanup and spends it again
   gets a different answer than without cleanup, and more than `burst + rate * W`
   within `W` seconds.
   */
  lemma CleanupVisible(p: Policy) returns (evs: seq<Event>, W: real)
    requires p.Valid() && p.rate * 600 < p.burst
    ensures Clocked(0.0, evs)
    ensures Times(evs, "x") != [] && Times(evs, "x")[0] == 0.0 && Ordered(0.0, Times(evs, "x"), W)
    ensures Decisions(p, map[], evs, "x") != Solo(p, None, Times(evs, "x"))
    ensures Count(Decisions(p, map[], evs, "x")) as real > p.burst as real + Earned(p, W)
  {
    W := WaitTooShort(p);
    hide Earned;
    var second := Salvo("x", W, p.burst);
    assert second + [] == second;
    SalvoClocked("x", W, W, p.burst, [], W);
    var rest := [Sweep(W)] + second;
    assert rest[1..] == second;
    OrderedFrom(0.0, W, Times(rest, "x"), W);
    SalvoClocked("x", 0.0, 0.0, p.burst, rest, W);
    evs := Salvo("x", 0.0, p.burst) + rest;
    SalvoFromAbsent(p, "x", 0.0, rest);
    var empty: Clients := map["x" := Bucket(0.0, 0.0)];
    assert Next(p, empty, rest[0]) == map[];
    SalvoFromAbsent(p, "x", W, []);
    assert Count(Decisions(p, map[], evs, "x")) >= 2 * p.burst;
    WindowFromState(p, None, Times(evs, "x"), W);
  }

  lemma {:induction false} SalvoIsSolo(p: Policy, m: Clients, ip: string, at: real, n: nat)
    requires ip in m
    ensures Decisions(p, m, Salvo(ip, at, n), ip) == Solo(p, Some(m[ip]), Times(Salvo(ip, at, n), ip))
  {
    if n > 0 {
      var rest := Salvo(ip, at, n - 1);
      var m' := Admit(p, m, ip, at).0;
      SalvoIsSolo(p, m', ip, at, n - 1);
      TimesOfFirst(Request(ip, at), rest, ip);
      assert Salvo(ip, at, n)[1..] == rest;
      hide Admit;
      assert Times(Salvo(ip, at, n), ip)[1..] == Times(rest, ip);
    }
  }

  lemma AnswersBehind(p: Policy, m: Clients, ip: string, at: real, evs: seq<Event>, n: nat)
    requires evs != [] && evs[0] == Request(ip, at)
    requires n <= |Decisions(p, Admit(p, m, ip, at).0, evs[1..], ip)|
    ensures n < |Decisions(p, m, evs, ip)|
    ensures Decisions(p, m, evs, ip)[n+1..] == Decisions(p, Admit(p, m, ip, at).0, evs[1..], ip)[n..]
  {
    hide Admit;
  }

  /** What is answered behind a salvo of `n` that the bucket can serve. */
  lemma {:induction false} BehindSalvo(p: Policy, m: Clients, ip: string, at: real, n: nat, rest: seq<Event>)
    requires ip in m && m[ip].lastSeen == at && n as real <= m[ip].tokens <= p.burst as real
    ensures n <= |Decisions(p, m, Salvo(ip, at, n) + rest, ip)|
    ensures Decisions(p, m, Salvo(ip, at, n) + rest, ip)[n..] ==
              Decisions(p, m[ip := Bucket(m[ip].tokens - n as real, at)], rest, ip)
    decreases n
  {
    hide Admit;
    hide Decisions;
    if n == 0 {
      assert Salvo(ip, at, n) + rest == rest;
      assert m[ip := Bucket(m[ip].tokens - n as real, at)] == m;
    } else {
      SalvoTail(ip, at, n, rest);
      var m' := m[ip := Bucket(m[ip].tokens - 1.0, at)];
      TakesOne(p, m, ip, at);
      BehindSalvo(p, m', ip, at, n - 1, rest);
      AnswersBehind(p, m, ip, at, Salvo(ip, at, n) + rest, n - 1);
      SpentTogether(m, ip, at, n);
    }
  }

  lemma BehindSalvoFromAbsent(p: Policy, ip: string, at: real, rest: seq<Event>)
    requires 0 < p.burst
    ensures var ds := Decisions(p, map[], Salvo(ip, at, p.burst) + rest, ip);
            p.burst <= |ds| && ds[p.burst..] == Decisions(p, map[ip := Bucket(0.0, at)], rest, ip)
  {
    var full: Clients := map[ip := Bucket(p.burst as real, at)];
    AbsentIsFull(p, ip, at, p.burst, rest);
    BehindSalvo(p, full, ip, at, p.burst, rest);
    assert full[ip := Bucket(0.0, at)] == map[ip := Bucket(0.0, at)];
  }

  /** A request at `s`, a cleanup at `W`, and a burst. */
  function LateBurst(p: Policy, s: real, W: real): seq<Event>
    requires 0 <= p.burst
  {
    [Request("x", s), Sweep(W)] + Salvo("x", W, p.burst)
  }

  lemma LateBurstClocked(p: Policy, s: real, W: real)
    requires 0 <= p.burst && 0.0 <= s <= W
    ensures Clocked(0.0, LateBurst(p, s, W)) && Ordered(0.0, Times(LateBurst(p, s, W), "x"), W)
    ensures Ordered(s, Times(Salvo("x", W, p.burst), "x"), W)
  {
    var second, evs := Salvo("x", W, p.burst), LateBurst(p, s, W);
    assert second + [] == second;
    SalvoClocked("x", W, W, p.burst, [], W);
    OrderedFrom(s, W, Times(second, "x"), W);
    assert evs[1..][1..] == second;
    assert Times(evs, "x")[1..] == Times(evs[1..], "x") == Times(second, "x");
  }

  /** The request at `s` is rejected and keeps the entry, so that less than a burst is left to admit. */
  lemma RejectedKeepsEntry(p: Policy, s: real, W: real)
    requires p.Valid() && 1 <= p.burst && 0.0 <= s <= W && W - s <= STALE_AFTER
    requires Earned(p, s) < 1.0 && Earned(p, W) < p.burst as real
    ensures var ds := Decisions(p, map["x" := Bucket(0.0, 0.0)], LateBurst(p, s, W), "x");
            ds != [] && !ds[0] && Count(ds) < p.burst
  {
    hide Earned;
    var evs, second := LateBurst(p, s, W), Salvo("x", W, p.burst);
    var spent: Clients := map["x" := Bucket(0.0, 0.0)];
    var b := Bucket(Earned(p, s), s);
    var kept: Clients := map["x" := b];
    EarnedNonNegative(p, s);
    assert s - 0.0 == s;
    assert Touch(p, spent["x"], s) == (b, false);
    assert spent["x" := b] == kept;
    assert Swept(kept, W) == kept;
    assert evs[1..][1..] == second;
    var ds := Decisions(p, spent, evs, "x");
    assert ds[1..] == Decisions(p, kept, evs[1..], "x") == Decisions(p, kept, second, "x");
    LateBurstClocked(p, s, W);
    SalvoIsSolo(p, kept, "x", W, p.burst);
    AdmittedWasEarned(p, b, Times(second, "x"), W);
    EarnedAdds(p, s, W - s);
  }

  /**
   The condition of RejectedIsFreeInEveryRun is exact too. When a bucket does not refill in ten
   minutes, a rejected request can keep the client's entry from the cleanup: a client that spends
   its burst, is rejected once, and asks for a burst after the cleanup gets fewer requests admitted
   than without the rejected one.
   */
  lemma RejectionNotFree(p: Policy) returns (evs: seq<Event>, n: nat)
    requires p.Valid() && p.rate * 600 < p.burst
    ensures Clocked(0.0, evs) && n < |evs| && evs[n].Request? && evs[n].ip == "x"
    ensures var ds, i := Decisions(p, map[], evs, "x"), |Times(evs[..n], "x")|;
            && i < |ds| && !ds[i]
            && Count(ds) < Count(Decisions(p, map[], Without(evs, n), "x"))
  {
    var W := WaitTooShort(p);
    var s := W - STALE_AFTER;
    hide Earned;
    hide Count;
    hide Decisions;
    hide Clocked;
    hide Times;
    hide Ordered;
    hide Salvo;
    var first, late := Salvo("x", 0.0, p.burst), LateBurst(p, s, W);
    evs, n := first + late, |first|;
    assert evs[..n] == first && evs[n] == late[0] && Without(evs, n) == first + late[1..];
    LateBurstClocked(p, s, W);
    SalvoClocked("x", 0.0, 0.0, p.burst, late, W);
    SalvoTimes("x", 0.0, p.burst);
    RejectedKeepsEntry(p, s, W);
    SalvoFromAbsent(p, "x", 0.0, late);
    BehindSalvoFromAbsent(p, "x", 0.0, late);
    TwoBursts(p, s, W);
  }

  /** Without the rejected request the entry is gone and both bursts are admitted. */
  lemma TwoBursts(p: Policy, s: real, W: real)
    requires 1 <= p.burst && W > STALE_AFTER
    ensures Count(Decisions(p, map[], Salvo("x", 0.0, p.burst) + LateBurst(p, s, W)[1..], "x")) >= 2 * p.burst
  {
    var rest, second := LateBurst(p, s, W)[1..], Salvo("x", W, p.burst);
    assert rest[1..] == second && second + [] == second;
    SalvoFromAbsent(p, "x", 0.0, rest);
    assert Next(p, map["x" := Bucket(0.0, 0.0)], rest[0]) == map[];
    SalvoFromAbsent(p, "x", W, []);
  }

  lemma OrderedFrom(t: real, t': real, times: seq<real>, end: real)
    requires t <= t' && Ordered(t', times, end)
    ensures Ordered(t, times, end)
  {
  }

  /** A wait past the cleanup in which less than a burst is earned. */
  lemma WaitTooShort(p: Policy) returns (W: real)
    requires p.Valid() && p.rate * 600 < p.burst
    ensures W > STALE_AFTER && Earned(p, W) < p.burst as real && Earned(p, W - STALE_AFTER) < 1.0
  {
    var r, b := p.rate as real, p.burst as real;
    W := 600.0 + 1.0 / (r + 1.0);
    assert (1.0 / (r + 1.0)) * (r + 1.0) == 1.0;
    assert W * r == 600.0 * r + 1.0 - 1.0 / (r + 1.0);
  }

  // ------------------------------------------------------------------
  // Well-behaved clients are never rejected.
  // ------------------------------------------------------------------

  /** The requests of `ip` are at least one token's refill apart. */
  predicate Spaced(p: Policy, evs: seq<Event>, ip: string) {
    Apart(p, Times(evs, ip))
  }

  predicate Apart(p: Policy, times: seq<real>) {
    |times| < 2 || (Earned(p, times[1] - times[0]) >= 1.0 && Apart(p, times[1..]))
  }

  lemma {:induction false} SpacedFrom(p: Policy, m: Clients, evs: seq<Event>, ip: string, t: real)
    requires p.Valid() && 1 <= p.burst && Clocked(t, evs) && Spaced(p, evs, ip)
    requires ip in m ==>
               && 0.0 <= m[ip].tokens && m[ip].lastSeen <= t
               && (Times(evs, ip) != [] ==> Earned(p, Times(evs, ip)[0] - m[ip].lastSeen) >= 1.0)
    ensures forall d <- Decisions(p, m, evs, ip) :: d
    decreases |evs|
  {
    hide Earned;
    if evs != [] {
      var e := evs[0];
      var rest := evs[1..];
      EarnedZero(p);
      if e.Request? && e.ip == ip {
        assert Times(evs, ip)[1..] == Times(rest, ip);
      }
      SpacedFrom(p, Next(p, m, e), rest, ip, e.at);
    }
  }

  /**
   A client whose requests are at least `1/rate` apart is never rejected, whatever other
   clients and the cleanup do.
   */
  lemma SpacedNeverRejected(p: Policy, evs: seq<Event>, ip: string, t: real)
    requires p.Valid() && 1 <= p.burst && Clocked(t, evs) && Spaced(p, evs, ip)
    ensures forall d <- Decisions(p, map[], evs, ip) :: d
  {
    SpacedFrom(p, map[], evs, ip, t);
  }
}
