/** The resilience stack over whole runs of non-overlapping actions. */
module FallbackRuns {
  import opened Basics
  import opened CircuitBreakers
  import opened ProviderErrors
  import R = Retries
  import opened RateLimitTrackers
  import opened Selectors
  import opened Fallback
  import opened FallbackProperties

  datatype Action<!T> =
    | Fetch(visits: seq<Visit<T>>)
    | Disable(name: string)
    | Enable(name: string)
    | ReadStates(at: int)
    | Reset(name: string)

  /** `switchPrimary` is history: the primary when the active provider last changed. */
  datatype World = World(state: State, disabled: set<string>, switchPrimary: string)

  predicate Fits<T>(ordered: seq<string>, a: Action<T>) {
    a.Fetch? ==> |ordered| <= |a.visits|
  }

  function Act<T>(cfg: Settings, ordered: seq<string>, w: World, a: Action<T>): (World, seq<FetchResult<T>>)
    requires Fits(ordered, a)
  {
    match a
    case Fetch(visits) =>
      var names := Enabled(ordered, w.disabled);
      var (s, r, _) := FetchInOrder(cfg, w.state, names, visits);
      var primary := if names == [] || s.active == w.state.active then w.switchPrimary else names[0];
      (World(s, w.disabled, primary), [r])
    case Disable(name) => (w.(disabled := w.disabled + {name}), [])
    case Enable(name) => (w.(disabled := w.disabled - {name}), [])
    case ReadStates(at) =>
      (w.(state := w.state.(breakers := AllCurrent(cfg.breaker, w.state.breakers, at))), [])
    case Reset(name) => (w.(state := w.state.(limits := w.state.limits - {name})), [])
  }

  ghost predicate AllFit<T>(ordered: seq<string>, actions: seq<Action<T>>) {
    forall i | 0 <= i < |actions| :: Fits(ordered, actions[i])
  }

  /** The world after the run and the answers to its fetches. */
  ghost function Run<T>(cfg: Settings, ordered: seq<string>, w: World, actions: seq<Action<T>>)
      : (World, seq<FetchResult<T>>)
    requires AllFit(ordered, actions)
  {
    if actions == [] then (w, [])
    else
      var before := Run(cfg, ordered, w, actions[..|actions|-1]);
      var last := Act(cfg, ordered, before.0, actions[|actions|-1]);
      (last.0, before.1 + last.1)
  }

  // ------------------------------------------------------------------
  // One healthy provider suffices.
  // ------------------------------------------------------------------

  /** The provider's first attempt succeeds under a live context. */
  predicate HealthyVisit<T>(v: Visit<T>) {
    !v.env.endedBefore(0) && v.env.outcome(0).Ok?
  }

  /** Closed with no failure on record, and never cooling down. */
  predicate Fit(s: State, h: string) {
    BreakerOf(s, h).state == Closed && BreakerOf(s, h).failures == 0 && h !in s.limits
  }

  /** The action leaves provider `h` enabled and, if it fetches, `h` would answer. */
  ghost predicate KeepsHealthy<T>(ordered: seq<string>, h: string, w: World, a: Action<T>)
    requires Fits(ordered, a)
  {
    match a
    case Fetch(visits) =>
      var names := Enabled(ordered, w.disabled);
      forall j | 0 <= j < |names| :: names[j] == h ==> HealthyVisit(visits[j])
    case Disable(n) => n != h
    case _ => true
  }

  ghost predicate AlwaysHealthy<T>(cfg: Settings, ordered: seq<string>, h: string, w: World, actions: seq<Action<T>>)
    requires AllFit(ordered, actions)
  {
    actions == [] || (
      && AlwaysHealthy(cfg, ordered, h, w, actions[..|actions|-1])
      && KeepsHealthy(ordered, h, Run(cfg, ordered, w, actions[..|actions|-1]).0, actions[|actions|-1]))
  }

  predicate Once(names: seq<string>, h: string, k: nat) {
    k < |names| && names[k] == h && forall j | 0 <= j < |names| && j != k :: names[j] != h
  }

  lemma {:induction false} EnabledOnce(ordered: seq<string>, disabled: set<string>, h: string, k: nat) returns (k': nat)
    requires Once(ordered, h, k) && h !in disabled
    ensures Once(Enabled(ordered, disabled), h, k')
  {
    var n := |ordered|;
    var init := ordered[..n-1];
    if k < n - 1 {
      k' := EnabledOnce(init, disabled, h, k);
    } else {
      EnabledMembers(init, disabled);
      assert h !in init;
      k' := |Enabled(init, disabled)|;
      assert forall j | 0 <= j < k' :: Enabled(init, disabled)[j] in Enabled(init, disabled);
    }
  }

  /** With no attempt allowed nothing is ever fetched; otherwise a served visit carries data. */
  lemma ServedMeansData<T>(cfg: Settings, v: Visit<T>)
    requires !Fetched(cfg, v.env).Gave?
    ensures ResultOf(cfg, v).Data? <==> cfg.retry.maxAttempts >= 1
  {
    if cfg.retry.maxAttempts >= 1 {
      var _ := R.DecidedByFirstStop(cfg.retry, Retryable, v.env, 0);
    }
  }

  lemma HealthyIsFetched<T>(cfg: Settings, v: Visit<T>)
    requires HealthyVisit(v)
    ensures cfg.retry.maxAttempts >= 1 ==> Fetched(cfg, v.env) == R.Returned(v.env.outcome(0).value)
    ensures !Fetched(cfg, v.env).Gave?
  {
  }

  /** A fit provider that is visited stays fit and serves. */
  lemma FitProviderServes<T>(cfg: Settings, s: State, h: string, v: Visit<T>)
    requires Fit(s, h) && HealthyVisit(v)
    ensures Serves(cfg, s, h, v)
    ensures BreakerAfter(cfg, s, h, v).state == Closed && BreakerAfter(cfg, s, h, v).failures == 0
    ensures LimitsAfter(cfg, s, h, v) == None
  {
    HealthyIsFetched(cfg, v);
  }

  lemma {:induction false} HealthyPass<T>(cfg: Settings, s: State, names: seq<string>, visits: seq<Visit<T>>,
      h: string, k: nat, i: nat, lastErr: Option<Error>)
    requires i <= k < |names| <= |visits| && Once(names, h, k)
    requires Fit(s, h) && HealthyVisit(visits[k])
    ensures var (s', r, _) := Pass(cfg, s, names, visits, i, lastErr);
            Fit(s', h) && (r.Data? <==> cfg.retry.maxAttempts >= 1)
    decreases k - i
  {
    hide VisitOne;
    hide Pass;
    hide Serves;
    hide BreakerAfter;
    hide LimitsAfter;
    hide ResultOf;
    var visit := VisitOne(cfg, s, names[i], PrimaryOf(names), visits[i]);
    PassUnfold(cfg, s, names, visits, i, lastErr, visit);
    VisitIsLocal(cfg, s, names[i], PrimaryOf(names), visits[i]);
    VisitOutcome(cfg, s, names[i], PrimaryOf(names), visits[i]);
    if i == k {
      FitProviderServes(cfg, s, h, visits[i]);
    } else {
      assert Untouched(s, visit.0, h);
    }
    if visit.1.Served? {
      ServesHasResult(cfg, s, names[i], visits[i]);
    } else {
      HealthyPass(cfg, visit.0, names, visits, h, k, i + 1,
                  if visit.1.FailedWith? then Some(visit.1.error) else lastErr);
    }
  }

  lemma ServesHasResult<T>(cfg: Settings, s: State, name: string, v: Visit<T>)
    requires Serves(cfg, s, name, v)
    ensures ResultOf(cfg, v).Data? <==> cfg.retry.maxAttempts >= 1
  {
    ServedMeansData(cfg, v);
  }

  lemma HealthyAct<T>(cfg: Settings, ordered: seq<string>, h: string, k: nat, w: World, a: Action<T>)
    requires Fits(ordered, a) && Once(ordered, h, k) && h !in w.disabled && Fit(w.state, h)
    requires KeepsHealthy(ordered, h, w, a)
    ensures var (w', rs) := Act(cfg, ordered, w, a);
            && h !in w'.disabled && Fit(w'.state, h)
            && (forall r <- rs :: r.Data? <==> cfg.retry.maxAttempts >= 1)
  {
    hide Pass;
    if a.Fetch? {
      var names := Enabled(ordered, w.disabled);
      var k' := EnabledOnce(ordered, w.disabled, h, k);
      HealthyPass(cfg, w.state, names, a.visits, h, k', 0, None);
    }
  }

  /**
   In every run in which one uniquely named provider stays enabled and answers, every
   fetch returns data, whatever all other providers do and however the clock moves,
   if and only if the configuration allows an attempt at all. The provider's breaker
   stays closed with no failure and it never cools down.
   */
  lemma {:induction false} OneHealthyProviderSuffices<T>(cfg: Settings, ordered: seq<string>, h: string, k: nat,
      w: World, actions: seq<Action<T>>)
    requires AllFit(ordered, actions) && Once(ordered, h, k)
    requires h !in w.disabled && Fit(w.state, h)
    requires AlwaysHealthy(cfg, ordered, h, w, actions)
    ensures var (w', rs) := Run(cfg, ordered, w, actions);
            && h !in w'.disabled && Fit(w'.state, h)
            && (forall r <- rs :: r.Data? <==> cfg.retry.maxAttempts >= 1)
  {
    if actions != [] {
      var init := actions[..|actions|-1];
      OneHealthyProviderSuffices(cfg, ordered, h, k, w, init);
      HealthyAct(cfg, ordered, h, k, Run(cfg, ordered, w, init).0, actions[|actions|-1]);
    }
  }

  // ------------------------------------------------------------------
  // What the degraded flag means.
  // ------------------------------------------------------------------

  /** A new orchestrator over new breakers and cool-downs. */
  function Start(ordered: seq<string>, disabled: set<string>): World {
    var s := Started(map[], map[], Enabled(ordered, disabled));
    World(s, disabled, s.active)
  }

  lemma {:induction false} PassSwitches<T>(cfg: Settings, s: State, names: seq<string>, visits: seq<Visit<T>>, i: nat,
      lastErr: Option<Error>)
    requires i <= |names| <= |visits| && names != []
    ensures var s' := Pass(cfg, s, names, visits, i, lastErr).0;
            s'.degraded == if s'.active == s.active then s.degraded else names[0] != s'.active
    decreases |names| - i
  {
    hide VisitOne;
    hide Pass;
    if i == |names| {
      PassEnd(cfg, s, names, visits, lastErr);
    } else {
      var visit := VisitOne(cfg, s, names[i], PrimaryOf(names), visits[i]);
      PassUnfold(cfg, s, names, visits, i, lastErr, visit);
      VisitOutcome(cfg, s, names[i], PrimaryOf(names), visits[i]);
      if !visit.1.Served? {
        PassSwitches(cfg, visit.0, names, visits, i + 1, if visit.1.FailedWith? then Some(visit.1.error) else lastErr);
      }
    }
  }

  /**
   In every run from a new orchestrator, with providers disabled and enabled at will,
   `degraded` says that the active provider is not the one that was primary when it
   became active.
   */
  lemma {:induction false} DegradedMeaning<T>(cfg: Settings, ordered: seq<string>, disabled: set<string>,
      actions: seq<Action<T>>)
    requires AllFit(ordered, actions)
    ensures var w := Run(cfg, ordered, Start(ordered, disabled), actions).0;
            w.state.degraded <==> w.state.active != w.switchPrimary
  {
    if actions != [] {
      DegradedMeaning(cfg, ordered, disabled, actions[..|actions|-1]);
      var w := Run(cfg, ordered, Start(ordered, disabled), actions[..|actions|-1]).0;
      var a := actions[|actions|-1];
      var names := Enabled(ordered, w.disabled);
      if a.Fetch? && names != [] {
        hide Pass;
        PassSwitches(cfg, w.state, names, a.visits, 0, None);
      }
    }
  }

  ghost predicate KeepsSelection<T>(actions: seq<Action<T>>) {
    forall i | 0 <= i < |actions| :: !actions[i].Disable? && !actions[i].Enable?
  }

  /** While the eligible set is fixed, `degraded` says exactly that the active provider is not the primary. */
  lemma {:induction false} DegradedIffNotPrimary<T>(cfg: Settings, ordered: seq<string>, disabled: set<string>,
      actions: seq<Action<T>>)
    requires AllFit(ordered, actions) && KeepsSelection(actions)
    requires Enabled(ordered, disabled) != []
    ensures var w := Run(cfg, ordered, Start(ordered, disabled), actions).0;
            && w.disabled == disabled
            && w.switchPrimary == Enabled(ordered, disabled)[0]
            && (w.state.degraded <==> w.state.active != Enabled(ordered, disabled)[0])
  {
    DegradedMeaning(cfg, ordered, disabled, actions);
    if actions != [] {
      DegradedIffNotPrimary(cfg, ordered, disabled, actions[..|actions|-1]);
    }
  }

  /**
   In general it is right about the primary of the moment if and only if that primary and the
   one at the last switch agree on being the active provider.
   */
  lemma DegradedRightIff<T>(cfg: Settings, ordered: seq<string>, disabled: set<string>, actions: seq<Action<T>>)
    requires AllFit(ordered, actions)
    ensures var w := Run(cfg, ordered, Start(ordered, disabled), actions).0;
            var isPrimary := PrimaryOf(Enabled(ordered, w.disabled)) == Some(w.state.active);
            (w.state.degraded <==> !isPrimary) <==> (w.state.active == w.switchPrimary <==> isPrimary)
  {
    DegradedMeaning(cfg, ordered, disabled, actions);
  }

  /**
   Otherwise it need not be: the primary is disabled, the fallback serves and becomes
   active as the primary of the moment, and the old primary is enabled again. The
   flag then stays false while a fallback is active.
   */
  lemma DegradedCanMislead<T>(cfg: Settings, v: Visit<T>)
    requires HealthyVisit(v)
    ensures var actions := [Disable("a"), Fetch([v, v]), Enable("a")];
            && AllFit(["a", "b"], actions)
            && var w := Run(cfg, ["a", "b"], Start(["a", "b"], {}), actions).0;
               && !w.state.degraded
               && w.state.active == "b"
               && Enabled(["a", "b"], w.disabled) == ["a", "b"]
  {
    hide FetchInOrder;
    var ordered := ["a", "b"];
    EnabledOfTwo({});
    EnabledOfTwo({"a"});
    var w0 := Start(ordered, {});
    var w1 := w0.(disabled := {"a"});
    var actions := [Disable("a"), Fetch([v, v]), Enable("a")];
    assert actions[..2][..1] == actions[..1] && actions[..1][..0] == [] && actions[..3] == actions;
    assert {} + {"a"} == {"a"} && {"a"} - {"a"} == {};
    assert Fit(w1.state, "b");
    SoloPass(cfg, w1.state, [v, v]);
    assert Enabled(ordered, {"a"}) == ["b"] && actions[1].visits == [v, v];
    assert Run(cfg, ordered, w0, actions[..1]).0 == w1;
    assert Run(cfg, ordered, w0, actions[..2]).0 == Act(cfg, ordered, w1, actions[1]).0;
    assert Run(cfg, ordered, w0, actions).0 == Act(cfg, ordered, Run(cfg, ordered, w0, actions[..2]).0, actions[2]).0;
  }

  lemma EnabledOfTwo(disabled: set<string>)
    ensures Enabled(["a", "b"], disabled) ==
              (if "a" in disabled then [] else ["a"]) + (if "b" in disabled then [] else ["b"])
  {
    assert ["a", "b"][..1] == ["a"] && ["a"][..0] == [];
  }

  lemma SoloPass<T>(cfg: Settings, s: State, visits: seq<Visit<T>>)
    requires |visits| == 2 && HealthyVisit(visits[0]) && Fit(s, "b") && s.active != "b"
    ensures var s' := FetchInOrder(cfg, s, ["b"], visits).0;
            s'.active == "b" && !s'.degraded
  {
    hide VisitOne;
    hide Pass;
    FitProviderServes(cfg, s, "b", visits[0]);
    VisitOutcome(cfg, s, "b", Some("b"), visits[0]);
    PassUnfold(cfg, s, ["b"], visits, 0, None, VisitOne(cfg, s, "b", Some("b"), visits[0]));
  }

  // ------------------------------------------------------------------
  // Bounded recovery.
  // ------------------------------------------------------------------

  /** What runs of non-overlapping actions keep of every breaker and cool-down. */
  predicate BreakerKept(cfg: Settings, b: Breaker) {
    && (b.state == Open ==> b.openedAt == b.lastFailure)
    && (b.state == HalfOpen ==> b.successes < Heal(cfg.breaker))
  }

  ghost predicate Kept(cfg: Settings, s: State) {
    && (forall n <- s.breakers :: BreakerKept(cfg, s.breakers[n]))
    && (forall n <- s.limits :: s.limits[n].retryAfter == DEFAULT_RETRY_AFTER)
  }

  lemma {:induction false} PassKeeps<T>(cfg: Settings, s: State, names: seq<string>, visits: seq<Visit<T>>, i: nat,
      lastErr: Option<Error>)
    requires i <= |names| <= |visits| && Kept(cfg, s)
    ensures Kept(cfg, Pass(cfg, s, names, visits, i, lastErr).0)
    decreases |names| - i
  {
    hide VisitOne;
    hide Pass;
    if i == |names| {
      PassEnd(cfg, s, names, visits, lastErr);
    } else {
      var visit := VisitOne(cfg, s, names[i], PrimaryOf(names), visits[i]);
      PassUnfold(cfg, s, names, visits, i, lastErr, visit);
      VisitKeeps(cfg, s, names[i], PrimaryOf(names), visits[i]);
      if !visit.1.Served? {
        PassKeeps(cfg, visit.0, names, visits, i + 1, if visit.1.FailedWith? then Some(visit.1.error) else lastErr);
      }
    }
  }

  lemma BreakerAfterKept<T>(cfg: Settings, s: State, name: string, v: Visit<T>)
    requires BreakerKept(cfg, BreakerOf(s, name))
    ensures BreakerKept(cfg, BreakerAfter(cfg, s, name, v))
  {
    hide Fetched;
    hide Cooling;
  }

  lemma VisitKeeps<T>(cfg: Settings, s: State, name: string, primary: Option<string>, v: Visit<T>)
    requires Kept(cfg, s)
    ensures Kept(cfg, VisitOne(cfg, s, name, primary, v).0)
  {
    hide VisitOne;
    hide BreakerAfter;
    hide BreakerKept;
    VisitIsLocal(cfg, s, name, primary, v);
    assert BreakerKept(cfg, BreakerOf(s, name)) by { NewKept(cfg); }
    BreakerAfterKept(cfg, s, name, v);
    var s' := VisitOne(cfg, s, name, primary, v).0;
    forall n | n in s'.breakers ensures BreakerKept(cfg, s'.breakers[n]) {
      assert n != name ==> Untouched(s, s', n);
      assert s'.breakers[n] == BreakerOf(s', n);
    }
    forall n | n in s'.limits ensures s'.limits[n].retryAfter == DEFAULT_RETRY_AFTER {
      assert n != name ==> Untouched(s, s', n);
      assert LimitOf(s', n) == Some(s'.limits[n]);
    }
  }

  lemma NewKept(cfg: Settings)
    ensures BreakerKept(cfg, New)
  {
  }

  lemma {:induction false} RunKeeps<T>(cfg: Settings, ordered: seq<string>, disabled: set<string>,
      actions: seq<Action<T>>)
    requires AllFit(ordered, actions)
    ensures Kept(cfg, Run(cfg, ordered, Start(ordered, disabled), actions).0.state)
  {
    if actions != [] {
      RunKeeps(cfg, ordered, disabled, actions[..|actions|-1]);
      var w := Run(cfg, ordered, Start(ordered, disabled), actions[..|actions|-1]).0;
      var a := actions[|actions|-1];
      if a.Fetch? {
        hide Pass;
        var names := Enabled(ordered, w.disabled);
        PassKeeps(cfg, w.state, names, a.visits, 0, None);
      }
    }
  }

  /** Time enough has passed for provider `p` since its last failure and its last 429. */
  predicate Rested<T>(cfg: Settings, s: State, p: string, v: Visit<T>) {
    && (BreakerOf(s, p).state == Open ==> v.checkAt - BreakerOf(s, p).lastFailure >= cfg.breaker.openDuration)
    && (p in s.limits ==> v.waitAt - s.limits[p].last >= DEFAULT_RETRY_AFTER)
  }

  /** After `n` served probes: closed, or half-open with at least `n` successes counted. */
  predicate Probed(cfg: Settings, b: Breaker, n: nat) {
    b.state == Closed || (b.state == HalfOpen && n <= b.successes < Heal(cfg.breaker))
  }

  /** One fetch with a healthy primary that is admitted: the primary alone is used. */
  lemma PrimaryServes<T>(cfg: Settings, s: State, names: seq<string>, visits: seq<Visit<T>>, n: nat)
    requires names != [] && |names| <= |visits| && cfg.retry.maxAttempts >= 1
    requires HealthyVisit(visits[0])
    requires Kept(cfg, s) && Rested(cfg, s, names[0], visits[0])
    requires n > 0 ==> Probed(cfg, BreakerOf(s, names[0]), n)
    ensures var (s', r, _) := FetchInOrder(cfg, s, names, visits);
            && r == Data(visits[0].env.outcome(0).value)
            && s'.active == names[0]
            && s'.degraded == (s.active == names[0] && s.degraded)
            && Probed(cfg, BreakerOf(s', names[0]), n + 1)
            && LimitOf(s', names[0]) == LimitOf(s, names[0])
            && (forall m | m != names[0] :: Untouched(s, s', m))
  {
    hide VisitOne;
    hide Pass;
    var p, v := names[0], visits[0];
    PassUnfold(cfg, s, names, visits, 0, None, VisitOne(cfg, s, p, Some(p), v));
    VisitIsLocal(cfg, s, p, Some(p), v);
    VisitOutcome(cfg, s, p, Some(p), v);
    HealthyIsFetched(cfg, v);
    assert BreakerKept(cfg, BreakerOf(s, p));
  }

  /** Fetches whose primary answers, with state reads and cool-down resets at will between them. */
  ghost predicate PrimaryHealthy<T>(cfg: Settings, s: State, p: string, actions: seq<Action<T>>) {
    forall i | 0 <= i < |actions| ::
      match actions[i]
      case Fetch(visits) => visits != [] && HealthyVisit(visits[0]) && Rested(cfg, s, p, visits[0])
      case ReadStates(_) => true
      case Reset(_) => true
      case _ => false
  }

  /** What the primary answers to the fetches among the actions, in order. */
  ghost function Answers<T>(actions: seq<Action<T>>): seq<FetchResult<T>> {
    if actions == [] then []
    else
      var a := actions[|actions|-1];
      Answers(actions[..|actions|-1]) +
      if a.Fetch? && a.visits != [] && a.visits[0].env.outcome(0).Ok?
      then [Data(a.visits[0].env.outcome(0).value)]
      else []
  }

  /** How far the primary `p` has recovered after `n` fetches since state `s0`. */
  ghost predicate Recovering(cfg: Settings, s0: State, s: State, p: string, n: nat) {
    && Kept(cfg, s)
    && (LimitOf(s, p) == LimitOf(s0, p) || LimitOf(s, p) == None)
    && (s.degraded <==> s.active != p)
    && (n == 0 && BreakerOf(s, p).state == Open ==>
          BreakerOf(s0, p).state == Open && BreakerOf(s, p).lastFailure == BreakerOf(s0, p).lastFailure)
    && (n > 0 ==> s.active == p && Probed(cfg, BreakerOf(s, p), n))
  }

  lemma RecoveringFetch<T>(cfg: Settings, s0: State, s: State, names: seq<string>, visits: seq<Visit<T>>, n: nat)
    requires names != [] && |names| <= |visits| && cfg.retry.maxAttempts >= 1
    requires HealthyVisit(visits[0]) && Rested(cfg, s0, names[0], visits[0])
    requires Recovering(cfg, s0, s, names[0], n)
    ensures var (s', r, _) := FetchInOrder(cfg, s, names, visits);
            Recovering(cfg, s0, s', names[0], n + 1) && r == Data(visits[0].env.outcome(0).value)
  {
    hide Pass;
    assert Rested(cfg, s, names[0], visits[0]);
    PrimaryServes(cfg, s, names, visits, n);
    PassKeeps(cfg, s, names, visits, 0, None);
  }

  lemma RecoveringAct<T>(cfg: Settings, ordered: seq<string>, s0: State, w: World, a: Action<T>, n: nat)
    requires Fits(ordered, a) && cfg.retry.maxAttempts >= 1
    requires Enabled(ordered, w.disabled) != []
    requires PrimaryHealthy(cfg, s0, Enabled(ordered, w.disabled)[0], [a])
    requires Recovering(cfg, s0, w.state, Enabled(ordered, w.disabled)[0], n)
    ensures var (w', rs) := Act(cfg, ordered, w, a);
            && w'.disabled == w.disabled
            && rs == Answers([a])
            && Recovering(cfg, s0, w'.state, Enabled(ordered, w.disabled)[0], n + |rs|)
  {
    hide FetchInOrder;
    hide HealthyVisit;
    hide Rested;
    assert [a][0] == a && [a][..0] == [];
    assert Answers<T>([]) == [];
    match a
    case Fetch(visits) =>
      hide Recovering;
      AnswersHealthy(a);
      RecoveringFetch(cfg, s0, w.state, Enabled(ordered, w.disabled), visits, n);
    case ReadStates(at) =>
      hide Enabled;
      RecoveringRead(cfg, s0, w.state, Enabled(ordered, w.disabled)[0], n, at);
    case Reset(name) =>
      hide Enabled;
  }

  lemma AnswersHealthy<T>(a: Action<T>)
    requires a.Fetch? && a.visits != [] && HealthyVisit(a.visits[0])
    ensures a.visits[0].env.outcome(0).Ok?
    ensures Answers([a]) == [Data(a.visits[0].env.outcome(0).value)]
  {
    assert [a][0] == a && [a][..0] == [];
    assert Answers<T>([]) == [];
  }

  lemma RecoveringRead(cfg: Settings, s0: State, s: State, p: string, n: nat, at: int)
    requires Recovering(cfg, s0, s, p, n)
    ensures Recovering(cfg, s0, s.(breakers := AllCurrent(cfg.breaker, s.breakers, at)), p, n)
  {
  }

  /**
   Bounded recovery. From any kept state, once the primary answers again, the first
   fetch at least `openDuration` after its last failure and a minute after its last 429
   is served by it, and so is every fetch that follows; the flag `degraded` is cleared at
   once; and after `Heal` such fetches the primary's breaker is closed.
   */
  lemma {:induction false} PrimaryRecovers<T>(cfg: Settings, ordered: seq<string>, w: World, actions: seq<Action<T>>)
    requires AllFit(ordered, actions) && cfg.retry.maxAttempts >= 1
    requires Enabled(ordered, w.disabled) != [] && Kept(cfg, w.state)
    requires PrimaryHealthy(cfg, w.state, Enabled(ordered, w.disabled)[0], actions)
    requires w.state.degraded <==> w.state.active != Enabled(ordered, w.disabled)[0]
    ensures var (w', rs) := Run(cfg, ordered, w, actions);
            var p := Enabled(ordered, w.disabled)[0];
            && w'.disabled == w.disabled
            && rs == Answers(actions)
            && Recovering(cfg, w.state, w'.state, p, |rs|)
            && (|rs| > 0 ==> w'.state.active == p && !w'.state.degraded)
            && (|rs| >= Heal(cfg.breaker) ==> BreakerOf(w'.state, p).state == Closed)
  {
    hide Pass;
    if actions != [] {
      var init, a := actions[..|actions|-1], actions[|actions|-1];
      PrimaryRecovers(cfg, ordered, w, init);
      var (w1, rs) := Run(cfg, ordered, w, init);
      assert PrimaryHealthy(cfg, w.state, Enabled(ordered, w.disabled)[0], [a]);
      RecoveringAct(cfg, ordered, w.state, w1, a, |rs|);
    }
  }

  /** Recovery in every run of a new orchestrator whose eligible set is fixed, whatever `past` did to the providers. */
  lemma RecoversInEveryRun<T>(cfg: Settings, ordered: seq<string>, disabled: set<string>, past: seq<Action<T>>,
      actions: seq<Action<T>>)
    requires AllFit(ordered, past) && AllFit(ordered, actions) && KeepsSelection(past)
    requires cfg.retry.maxAttempts >= 1 && Enabled(ordered, disabled) != []
    requires PrimaryHealthy(cfg, Run(cfg, ordered, Start(ordered, disabled), past).0.state,
                            Enabled(ordered, disabled)[0], actions)
    ensures var w := Run(cfg, ordered, Start(ordered, disabled), past).0;
            var p := Enabled(ordered, disabled)[0];
            var (w', rs) := Run(cfg, ordered, w, actions);
            && rs == Answers(actions)
            && (|rs| > 0 ==> w'.state.active == p && !w'.state.degraded)
            && (|rs| >= Heal(cfg.breaker) ==> BreakerOf(w'.state, p).state == Closed)
  {
    hide Run;
    hide Recovering;
    RunKeeps(cfg, ordered, disabled, past);
    DegradedIffNotPrimary(cfg, ordered, disabled, past);
    PrimaryRecovers(cfg, ordered, Run(cfg, ordered, Start(ordered, disabled), past).0, actions);
  }
}
