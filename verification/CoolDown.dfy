/** A provider that answered with a rate limit is left alone for a minute, over whole runs of the resilience stack. */
module CoolDowns {
  import opened Basics
  import opened CircuitBreakers
  import opened ProviderErrors
  import R = Retries
  import opened RateLimitTrackers
  import opened Selectors
  import opened Fallback
  import opened FallbackProperties
  import opened FallbackRuns
  import opened FallbackLoad

  /** A minute, in nanoseconds. */
  const MINUTE := 60_000_000_000

  // ------------------------------------------------------------------
  // One visit.
  // ------------------------------------------------------------------

  /** The attempt that decides the visit fails, and its error names a rate limit. */
  predicate EndsLimited<T>(cfg: Settings, env: R.Env<T>) {
    cfg.retry.maxAttempts >= 1 &&
    var k := R.FirstStop(cfg.retry, Retryable, env, 0);
    && !env.endedBefore(k) && env.outcome(k).Err?
    && (k == cfg.retry.maxAttempts - 1 || !Retryable(env.outcome(k).error))
    && NamesLimit(env.outcome(k).error)
  }

  lemma EndsLimitedIff<T>(cfg: Settings, env: R.Env<T>)
    ensures EndsLimited(cfg, env) <==> Fetched(cfg, env).Gave? && IsRateLimited(Fetched(cfg, env).error)
  {
    hide Retryable;
    if cfg.retry.maxAttempts >= 1 {
      var k := R.DecidedByFirstStop(cfg.retry, Retryable, env, 0);
      hide R.FirstStop;
      hide R.Attempt;
      var r := Fetched(cfg, env);
      if r.Gave? {
        RateLimitedIff(r.error);
      }
    }
  }

  /** A visit that calls nothing records no limit. */
  lemma NoCallNoLimit<T>(cfg: Settings, env: R.Env<T>)
    ensures R.Retried(cfg.retry, Retryable, env).1 > 0 <==> cfg.retry.maxAttempts >= 1 && !env.endedBefore(0)
    ensures R.Retried(cfg.retry, Retryable, env).1 == 0 ==> !EndsLimited(cfg, env)
  {
    hide Retryable;
    if cfg.retry.maxAttempts >= 1 {
      var k := R.DecidedByFirstStop(cfg.retry, Retryable, env, 0);
      if env.endedBefore(0) {
        assert !R.GoesOn(cfg.retry, Retryable, env, 0);
      } else if k > 0 {
        assert R.GoesOn(cfg.retry, Retryable, env, 0);
      }
    }
  }

  /** The limit of `p` after a visit of `p` that calls it. */
  predicate LimitRenewed<T>(cfg: Settings, s: State, s': State, p: string, v: Visit<T>) {
    if EndsLimited(cfg, v.env) then LimitedAt(s', p, Some(v.doneAt)) else LimitOf(s', p) == LimitOf(s, p)
  }

  /** The tracker knows of a limit of `p` at that moment, for a minute. */
  predicate LimitedAt(s: State, p: string, at: Option<int>) {
    match at
    case None => p !in s.limits
    case Some(t) => p in s.limits && s.limits[p].last == t && s.limits[p].retryAfter == MINUTE
  }

  lemma VisitLimits<T>(cfg: Settings, s: State, p: string, primary: Option<string>, v: Visit<T>)
    ensures var (s', _, calls) := VisitOne(cfg, s, p, primary, v);
            && (calls > 0 ==> !Skips(cfg, s, p, v) && LimitRenewed(cfg, s, s', p, v))
            && (calls == 0 ==> LimitOf(s', p) == LimitOf(s, p))
  {
    EndsLimitedIff(cfg, v.env);
    NoCallNoLimit(cfg, v.env);
    VisitRecords(cfg, s, p, primary, v);
    hide EndsLimited;
    hide IsRateLimited;
    hide Retryable;
    hide R.Retried;
    hide Checked;
    hide VisitFailed;
    hide VisitServed;
    hide Skips;
  }

  // ------------------------------------------------------------------
  // One pass.
  // ------------------------------------------------------------------

  lemma {:induction false} PassWithout<T>(cfg: Settings, s: State, names: seq<string>, visits: seq<Visit<T>>, i: nat,
      lastErr: Option<Error>, p: string)
    requires i <= |names| <= |visits| && p !in names[i..]
    ensures PassCalls(cfg, s, names, visits, i, p) == 0
    ensures Untouched(s, Pass(cfg, s, names, visits, i, lastErr).0, p)
    decreases |names| - i
  {
    hide VisitOne;
    hide Pass;
    hide Untouched;
    if i == |names| {
      PassEnd(cfg, s, names, visits, lastErr);
      UntouchedAtAll(s, p);
    } else {
      var visit := VisitOne(cfg, s, names[i], PrimaryOf(names), visits[i]);
      PassUnfold(cfg, s, names, visits, i, lastErr, visit);
      assert names[i] == names[i..][0] && names[i+1..] == names[i..][1..];
      VisitSparesOthers(cfg, s, names[i], PrimaryOf(names), visits[i], p);
      if !visit.1.Served? {
        var e := if visit.1.FailedWith? then Some(visit.1.error) else lastErr;
        PassWithout(cfg, visit.0, names, visits, i + 1, e, p);
        UntouchedTwice(s, visit.0, Pass(cfg, visit.0, names, visits, i + 1, e).0, p);
      }
    }
  }

  lemma UntouchedAtAll(s: State, p: string)
    ensures Untouched(s, s, p)
  {
  }

  /** What a pass makes of the limit of `p`: nothing unless it calls `p`, and then what the visit of `p` makes of it. */
  predicate PassLimits<T>(cfg: Settings, s: State, s': State, p: string, v: Visit<T>, calls: nat) {
    if calls > 0 then !Skips(cfg, s, p, v) && LimitRenewed(cfg, s, s', p, v) else LimitOf(s', p) == LimitOf(s, p)
  }

  lemma LimitsThenUntouched<T>(cfg: Settings, s: State, s1: State, s2: State, p: string, v: Visit<T>, calls: nat)
    requires PassLimits(cfg, s, s1, p, v, calls) && Untouched(s1, s2, p)
    ensures PassLimits(cfg, s, s2, p, v, calls)
  {
    hide EndsLimited;
    hide Skips;
  }

  lemma UntouchedThenLimits<T>(cfg: Settings, s: State, s1: State, s2: State, p: string, v: Visit<T>, calls: nat)
    requires Untouched(s, s1, p) && PassLimits(cfg, s1, s2, p, v, calls)
    ensures PassLimits(cfg, s, s2, p, v, calls)
  {
    SameVerdict(cfg, s, s1, p, v);
    hide EndsLimited;
    hide Skips;
  }

  lemma {:induction false} PassOf<T>(cfg: Settings, s: State, names: seq<string>, visits: seq<Visit<T>>, i: nat,
      lastErr: Option<Error>, p: string, j: nat)
    requires Distinct(names) && i <= j < |names| <= |visits| && names[j] == p
    ensures PassLimits(cfg, s, Pass(cfg, s, names, visits, i, lastErr).0, p, visits[j],
                       PassCalls(cfg, s, names, visits, i, p))
    decreases |names| - i
  {
    hide VisitOne;
    hide Pass;
    hide Untouched;
    hide PassLimits;
    var visit := VisitOne(cfg, s, names[i], PrimaryOf(names), visits[i]);
    PassUnfold(cfg, s, names, visits, i, lastErr, visit);
    var e := if visit.1.FailedWith? then Some(visit.1.error) else lastErr;
    if i == j {
      VisitOfPass(cfg, s, p, PrimaryOf(names), visits[i]);
      assert p !in names[i+1..];
      if !visit.1.Served? {
        PassWithout(cfg, visit.0, names, visits, i + 1, e, p);
        LimitsThenUntouched(cfg, s, visit.0, Pass(cfg, visit.0, names, visits, i + 1, e).0, p, visits[i], visit.2);
      }
    } else {
      VisitSparesOthers(cfg, s, names[i], PrimaryOf(names), visits[i], p);
      if visit.1.Served? {
        SparedByPass(cfg, s, visit.0, p, visits[j]);
      } else {
        PassOf(cfg, visit.0, names, visits, i + 1, e, p, j);
        UntouchedThenLimits(cfg, s, visit.0, Pass(cfg, visit.0, names, visits, i + 1, e).0, p, visits[j],
                            PassCalls(cfg, visit.0, names, visits, i + 1, p));
      }
    }
  }

  lemma VisitOfPass<T>(cfg: Settings, s: State, p: string, primary: Option<string>, v: Visit<T>)
    ensures var (s', _, calls) := VisitOne(cfg, s, p, primary, v); PassLimits(cfg, s, s', p, v, calls)
  {
    VisitLimits(cfg, s, p, primary, v);
  }

  lemma SparedByPass<T>(cfg: Settings, s: State, s': State, p: string, v: Visit<T>)
    requires Untouched(s, s', p)
    ensures PassLimits(cfg, s, s', p, v, 0)
  {
  }

  // ------------------------------------------------------------------
  // Whole runs.
  // ------------------------------------------------------------------

  /** The place of `p` in the list, or its end. */
  function Place(names: seq<string>, p: string): (j: nat)
    ensures j <= |names|
    ensures if j < |names| then names[j] == p else p !in names
  {
    if names == [] || names[0] == p then 0 else 1 + Place(names[1..], p)
  }

  lemma OnlyPlace(names: seq<string>, p: string, j: nat)
    requires Distinct(names) && j < |names| && names[j] == p
    ensures Place(names, p) == j
  {
    hide Place;
  }

  /** When the last fetch that called `p` and ended with a rate limit was over, as of the last reset of `p`. */
  ghost function LastLimited<T>(cfg: Settings, ordered: seq<string>, w: World, actions: seq<Action<T>>, p: string)
      : Option<int>
    requires AllFit(ordered, actions)
  {
    if actions == [] then None
    else
      var init, a := actions[..|actions|-1], actions[|actions|-1];
      LimitedBy(cfg, ordered, FallbackRuns.Run(cfg, ordered, w, init).0, a, p,
                LastLimited(cfg, ordered, w, init, p))
  }

  ghost function LimitedBy<T>(cfg: Settings, ordered: seq<string>, w: World, a: Action<T>, p: string,
      before: Option<int>): Option<int>
    requires Fits(ordered, a)
  {
    match a
    case Reset(name) => if name == p then None else before
    case Fetch(visits) =>
      var names := Enabled(ordered, w.disabled);
      var j := Place(names, p);
      if j < |names| && ActCalls(cfg, ordered, w, a, p) > 0 && EndsLimited(cfg, visits[j].env)
      then Some(visits[j].doneAt)
      else before
    case _ => before
  }

  lemma FetchLimits<T>(cfg: Settings, ordered: seq<string>, w: World, a: Action<T>, p: string)
    requires Distinct(ordered) && Fits(ordered, a) && a.Fetch?
    ensures var names, s' := Enabled(ordered, w.disabled), Act(cfg, ordered, w, a).0.state;
            var j, calls := Place(names, p), ActCalls(cfg, ordered, w, a, p);
            if j < |names| then PassLimits(cfg, w.state, s', p, a.visits[j], calls)
            else calls == 0 && Untouched(w.state, s', p)
  {
    hide Pass;
    hide PassCalls;
    hide PassLimits;
    hide Untouched;
    var names := Enabled(ordered, w.disabled);
    EnabledDistinct(ordered, w.disabled);
    hide Enabled;
    var j := Place(names, p);
    if j < |names| {
      PassOf(cfg, w.state, names, a.visits, 0, None, p, j);
    } else {
      assert names[0..] == names;
      PassWithout(cfg, w.state, names, a.visits, 0, None, p);
      if names == [] {
        UntouchedAtAll(w.state, p);
      }
    }
  }

  lemma ActKeepsLimit<T>(cfg: Settings, ordered: seq<string>, w: World, a: Action<T>, p: string, at: Option<int>)
    requires Distinct(ordered) && Fits(ordered, a) && LimitedAt(w.state, p, at)
    ensures LimitedAt(Act(cfg, ordered, w, a).0.state, p, LimitedBy(cfg, ordered, w, a, p, at))
  {
    if a.Fetch? {
      FetchLimits(cfg, ordered, w, a, p);
      hide Act;
      hide ActCalls;
      hide Enabled;
      hide EndsLimited;
      hide Skips;
    }
  }

  lemma {:induction false} RunKeepsLimit<T>(cfg: Settings, ordered: seq<string>, w: World, actions: seq<Action<T>>,
      p: string)
    requires Distinct(ordered) && AllFit(ordered, actions) && p !in w.state.limits
    ensures LimitedAt(FallbackRuns.Run(cfg, ordered, w, actions).0.state, p,
                      LastLimited(cfg, ordered, w, actions, p))
  {
    hide Act;
    hide LimitedBy;
    hide LimitedAt;
    if actions == [] {
      assert LimitedAt(w.state, p, None) by { NeverLimited(w.state, p); }
    } else {
      var init, a := actions[..|actions|-1], actions[|actions|-1];
      RunKeepsLimit(cfg, ordered, w, init, p);
      ActKeepsLimit(cfg, ordered, FallbackRuns.Run(cfg, ordered, w, init).0, a, p,
                    LastLimited(cfg, ordered, w, init, p));
    }
  }

  lemma NeverLimited(s: State, p: string)
    requires p !in s.limits
    ensures LimitedAt(s, p, None)
  {
  }

  /**
   After every run, a visit calls its provider if and only if an attempt is allowed, the context
   lives, the circuit is not open, and a minute has passed since the last fetch that called the
   provider and ended with a rate limit, unless that was reset.
   */
  lemma CalledIff<T>(cfg: Settings, ordered: seq<string>, w: World, actions: seq<Action<T>>, p: string,
      primary: Option<string>, v: Visit<T>)
    requires Distinct(ordered) && AllFit(ordered, actions) && p !in w.state.limits
    ensures var s := FallbackRuns.Run(cfg, ordered, w, actions).0.state;
            var limited := LastLimited(cfg, ordered, w, actions, p);
            VisitOne(cfg, s, p, primary, v).2 > 0 <==>
              && cfg.retry.maxAttempts >= 1 && !v.env.endedBefore(0)
              && Current(cfg.breaker, BreakerOf(s, p), v.checkAt).state != Open
              && (limited.None? || v.waitAt >= limited.value + 60_000_000_000)
  {
    RunKeepsLimit(cfg, ordered, w, actions, p);
    NoCallNoLimit(cfg, v.env);
    hide FallbackRuns.Run;
    hide LastLimited;
    hide R.Retried;
    hide Retryable;
    hide Current;
    hide EndsLimited;
    hide VisitFailed;
    hide VisitServed;
    hide Checked;
  }

  /** Every visit of `p` in the run asks for the cool-down before `until`, and `p` is not reset. */
  ghost predicate Within<T>(cfg: Settings, ordered: seq<string>, w: World, actions: seq<Action<T>>, p: string,
      until: int)
    requires AllFit(ordered, actions)
  {
    actions == [] || (
      var init, a := actions[..|actions|-1], actions[|actions|-1];
      var names := Enabled(ordered, FallbackRuns.Run(cfg, ordered, w, init).0.disabled);
      && Within(cfg, ordered, w, init, p, until)
      && a != Reset(p)
      && (a.Fetch? ==> forall j | 0 <= j < |names| && names[j] == p :: a.visits[j].waitAt < until))
  }

  lemma CoolingAct<T>(cfg: Settings, ordered: seq<string>, w: World, a: Action<T>, p: string, at: int)
    requires Distinct(ordered) && Fits(ordered, a) && LimitedAt(w.state, p, Some(at)) && a != Reset(p)
    requires var names := Enabled(ordered, w.disabled);
             a.Fetch? ==> forall j | 0 <= j < |names| && names[j] == p :: a.visits[j].waitAt < at + MINUTE
    ensures ActCalls(cfg, ordered, w, a, p) == 0
    ensures LimitedAt(Act(cfg, ordered, w, a).0.state, p, Some(at))
  {
    if a.Fetch? {
      FetchLimits(cfg, ordered, w, a, p);
      hide Act;
      hide ActCalls;
      hide Enabled;
      hide EndsLimited;
    }
  }

  lemma {:induction false} CoolingRun<T>(cfg: Settings, ordered: seq<string>, w: World, actions: seq<Action<T>>,
      p: string, at: int)
    requires Distinct(ordered) && AllFit(ordered, actions) && LimitedAt(w.state, p, Some(at))
    requires Within(cfg, ordered, w, actions, p, at + MINUTE)
    ensures RunCalls(cfg, ordered, w, actions, p) == 0
    ensures LimitedAt(FallbackRuns.Run(cfg, ordered, w, actions).0.state, p, Some(at))
  {
    hide Act;
    hide ActCalls;
    hide LimitedAt;
    if actions != [] {
      var init, a := actions[..|actions|-1], actions[|actions|-1];
      CoolingRun(cfg, ordered, w, init, p, at);
      CoolingAct(cfg, ordered, FallbackRuns.Run(cfg, ordered, w, init).0, a, p, at);
    }
  }

  /**
   A 429 starts a cool-down. When a fetch has called `p` and the deciding attempt failed with an
   error that carries status 429, however deep it is wrapped, then in every run that follows `p`
   is not called by any visit that begins within a minute of the end of that fetch, unless `p` is
   reset.
   */
  lemma LimitedIsLeftAlone<T>(cfg: Settings, ordered: seq<string>, w: World, visits: seq<Visit<T>>,
      actions: seq<Action<T>>, p: string, j: nat, k: nat, n: nat, e: Error)
    requires Distinct(ordered) && |ordered| <= |visits| && AllFit(ordered, actions)
    requires j < |Enabled(ordered, w.disabled)| && Enabled(ordered, w.disabled)[j] == p
    requires ActCalls(cfg, ordered, w, Fetch(visits), p) > 0
    requires forall i | 0 <= i < k :: R.GoesOn(cfg.retry, Retryable, visits[j].env, i)
    requires k < cfg.retry.maxAttempts && !visits[j].env.endedBefore(k)
    requires visits[j].env.outcome(k) == R.Err(WrapTimes(n, e))
    requires (e.ProviderError? || e.ProviderErrorWith?) && e.status == 429
    requires k == cfg.retry.maxAttempts - 1 || !Retryable(e)
    requires Within(cfg, ordered, Act(cfg, ordered, w, Fetch(visits)).0, actions, p,
                    visits[j].doneAt + 60_000_000_000)
    ensures RunCalls(cfg, ordered, Act(cfg, ordered, w, Fetch(visits)).0, actions, p) == 0
  {
    hide Act;
    hide ActCalls;
    hide Enabled;
    hide EndsLimited;
    hide Place;
    hide Skips;
    hide Within;
    hide RunCalls;
    hide FallbackRuns.Run;
    hide Retryable;
    hide WrapTimes;
    hide R.GoesOn;
    var names, a := Enabled(ordered, w.disabled), Fetch(visits);
    EnabledDistinct(ordered, w.disabled);
    OnlyPlace(names, p, j);
    DecidingLimit(cfg, visits[j].env, k, n, e);
    FetchLimits(cfg, ordered, w, a, p);
    CoolingRun(cfg, ordered, Act(cfg, ordered, w, a).0, actions, p, visits[j].doneAt);
  }

  lemma DecidingLimit<T>(cfg: Settings, env: R.Env<T>, k: nat, n: nat, e: Error)
    requires k < cfg.retry.maxAttempts && forall i | 0 <= i < k :: R.GoesOn(cfg.retry, Retryable, env, i)
    requires !env.endedBefore(k) && env.outcome(k) == R.Err(WrapTimes(n, e))
    requires (e.ProviderError? || e.ProviderErrorWith?) && e.status == 429
    requires k == cfg.retry.maxAttempts - 1 || !Retryable(e)
    ensures EndsLimited(cfg, env)
  {
    WrappedLimit(n, e);
    RetriedIff(n, e);
    RetriedIff(0, e);
    hide Retryable;
    hide NamesLimit;
    var stop := R.FirstStop(cfg.retry, Retryable, env, 0);
    assert !R.GoesOn(cfg.retry, Retryable, env, k);
  }

  lemma {:induction false} WrappedLimit(n: nat, e: Error)
    requires (e.ProviderError? || e.ProviderErrorWith?) && e.status == 429
    ensures NamesLimit(WrapTimes(n, e))
  {
    if n > 0 {
      WrappedLimit(n - 1, e);
    }
  }
}
