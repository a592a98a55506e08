/**
 The fallback orchestrator (internal/provider/fallback.go): eligible providers are
 tried in priority order, behind a circuit breaker and a rate-limit cool-down each,
 with retries inside every visit.
 */
module Fallback {
  import opened Basics
  import opened CircuitBreakers
  import opened ProviderErrors
  import R = Retries
  import opened RateLimitTrackers
  import opened Selectors

  datatype Settings = Settings(breaker: Config, retry: R.RetryConfig)

  /**
   What one visit to a provider meets: the clock when the breaker is asked, when the
   cool-down is asked and when the fetch is over, and what the fetch itself meets.
   */
  datatype Visit<!T> = Visit(checkAt: int, waitAt: int, doneAt: int, env: R.Env<T>)

  datatype FetchResult<T> =
    | Data(value: T)
    | NoData
    | ProviderFailed(error: Error)
    | NoneEligible
    | AllUnavailable

  /** The orchestrator's state, with the breakers and cool-downs it works on. */
  datatype State = State(
    breakers: map<string, Breaker>, limits: Limits,
    active: string, degraded: bool, lastSwitch: int)

  /** A provider that was never visited has a new breaker. */
  function BreakerOf(s: State, name: string): Breaker {
    if name in s.breakers then s.breakers[name] else New
  }

  /** attemptFetch: the retried fetch, with its error wrapped once more. */
  function Fetched<T>(cfg: Settings, env: R.Env<T>): R.RetryResult<T> {
    match R.Retried(cfg.retry, Retryable, env).0
    case Gave(e) => R.Gave(Wrapped(e))
    case Returned(v) => R.Returned(v)
    case Nothing => R.Nothing
  }

  function Checked(cfg: Settings, s: State, name: string, at: int): State {
    s.(breakers := s.breakers[name := Current(cfg.breaker, BreakerOf(s, name), at)])
  }

  /** The visit ends before the provider is called: circuit open, or cooling down. */
  predicate Skips<T>(cfg: Settings, s: State, name: string, v: Visit<T>) {
    || Current(cfg.breaker, BreakerOf(s, name), v.checkAt).state == Open
    || Cooling(s.limits, name, v.waitAt)
  }

  function VisitFailed(cfg: Settings, s: State, name: string, e: Error, at: int): State {
    s.(breakers := s.breakers[name := Failed(cfg.breaker, BreakerOf(s, name), at)],
       limits := if IsRateLimited(e) then Recorded(s.limits, name, DEFAULT_RETRY_AFTER, at) else s.limits)
  }

  /** The first eligible provider, if there is one. */
  function PrimaryOf(names: seq<string>): Option<string> {
    if names == [] then None else Some(names[0])
  }

  function Activated(s: State, name: string, primary: Option<string>, at: int): State {
    if s.active == name then s
    else s.(active := name, lastSwitch := at, degraded := primary != Some(name))
  }

  function VisitServed(cfg: Settings, s: State, name: string, primary: Option<string>, at: int): State {
    Activated(s.(breakers := s.breakers[name := Succeeded(cfg.breaker, BreakerOf(s, name))]), name, primary, at)
  }

  datatype Outcome<T> = Skipped | FailedWith(error: Error) | Served(result: FetchResult<T>)

  /** One round of the loop: the new state, how the visit ends and the provider calls made. */
  function VisitOne<T>(cfg: Settings, s: State, name: string, primary: Option<string>, v: Visit<T>)
    : (State, Outcome<T>, nat)
  {
    var c := Checked(cfg, s, name, v.checkAt);
    if Skips(cfg, s, name, v) then (c, Skipped, 0)
    else
      var calls := R.Retried(cfg.retry, Retryable, v.env).1;
      match Fetched(cfg, v.env)
      case Gave(e) => (VisitFailed(cfg, c, name, e, v.doneAt), FailedWith(e), calls)
      case Returned(d) => (VisitServed(cfg, c, name, primary, v.doneAt), Served(Data(d)), calls)
      case Nothing => (VisitServed(cfg, c, name, primary, v.doneAt), Served(NoData), calls)
  }

  /** The loop from provider `i` on: the new state, the result and the provider calls made. */
  function Pass<T>(cfg: Settings, s: State, names: seq<string>, visits: seq<Visit<T>>, i: nat, lastErr: Option<Error>)
    : (State, FetchResult<T>, nat)
    requires i <= |names| <= |visits|
    decreases |names| - i
  {
    if i == |names| then
      (s, (match lastErr case Some(e) => ProviderFailed(e) case None => AllUnavailable), 0)
    else
      var (s', o, calls) := VisitOne(cfg, s, names[i], PrimaryOf(names), visits[i]);
      match o
      case Served(result) => (s', result, calls)
      case Skipped => AddCalls(calls, Pass(cfg, s', names, visits, i + 1, lastErr))
      case FailedWith(e) => AddCalls(calls, Pass(cfg, s', names, visits, i + 1, Some(e)))
  }

  function AddCalls<T>(calls: nat, r: (State, FetchResult<T>, nat)): (State, FetchResult<T>, nat) {
    (r.0, r.1, calls + r.2)
  }

  function FetchInOrder<T>(cfg: Settings, s: State, names: seq<string>, visits: seq<Visit<T>>)
    : (State, FetchResult<T>, nat)
    requires |names| <= |visits|
  {
    if names == [] then (s, NoneEligible, 0) else Pass(cfg, s, names, visits, 0, None)
  }

  lemma PassUnfold<T>(cfg: Settings, s: State, names: seq<string>, visits: seq<Visit<T>>, i: nat,
      lastErr: Option<Error>,
                      visit: (State, Outcome<T>, nat))
    requires i < |names| <= |visits|
    requires visit == VisitOne(cfg, s, names[i], PrimaryOf(names), visits[i])
    ensures Pass(cfg, s, names, visits, i, lastErr) ==
              match visit.1
              case Served(result) => (visit.0, result, visit.2)
              case Skipped => AddCalls(visit.2, Pass(cfg, visit.0, names, visits, i + 1, lastErr))
              case FailedWith(e) => AddCalls(visit.2, Pass(cfg, visit.0, names, visits, i + 1, Some(e)))
  {
  }

  lemma PassEnd<T>(cfg: Settings, s: State, names: seq<string>, visits: seq<Visit<T>>, lastErr: Option<Error>)
    requires |names| <= |visits|
    ensures Pass(cfg, s, names, visits, |names|, lastErr) ==
              (s, (match lastErr case Some(e) => ProviderFailed(e) case None => AllUnavailable), 0)
  {
  }

  class FallbackOrchestrator {
    const selector: Selector
    const manager: Manager
    const tracker: RateLimitTracker
    const retryConfig: R.RetryConfig
    var activeProvider: string
    var lastSwitch: int
    var degraded: bool

    ghost predicate Valid()
      reads this, manager, manager.breakers.Values
    {
      manager.Valid()
    }

    ghost function Cfg(): Settings {
      Settings(manager.config, retryConfig)
    }

    ghost function View(): State
      reads this, manager, manager.breakers.Values, tracker
    {
      State(manager.View(), tracker.providers, activeProvider, degraded, lastSwitch)
    }

    constructor (selector: Selector, manager: Manager, tracker: RateLimitTracker, retryConfig: R.RetryConfig)
      requires manager.Valid()
      ensures Valid()
      ensures this.selector == selector && this.manager == manager
      ensures this.tracker == tracker && this.retryConfig == retryConfig
      ensures View() == Started(manager.View(), tracker.providers, Enabled(selector.ordered, selector.disabled))
    {
      this.selector := selector;
      this.manager := manager;
      this.tracker := tracker;
      this.retryConfig := retryConfig;
      activeProvider, lastSwitch, degraded := "", 0, false;
      new;
      var eligible := selector.Eligible();
      if eligible != [] {
        activeProvider := eligible[0];
      }
    }

    method SetActiveProvider(name: string, at: int)
      modifies this
      ensures View() == Activated(old(View()), name, PrimaryOf(Enabled(selector.ordered, selector.disabled)), at)
    {
      hide Manager.View;
      hide Enabled;
      if activeProvider != name {
        activeProvider := name;
        lastSwitch := at;
        var eligible := selector.Eligible();
        degraded := eligible == [] || eligible[0] != name;
      }
    }

    /** The checks before a provider is called. */
    method CheckProvider<T>(name: string, v: Visit<T>) returns (skip: bool)
      requires Valid()
      modifies manager, manager.breakers.Values
      ensures Valid() && fresh(manager.breakers.Values - old(manager.breakers.Values))
      ensures View() == Checked(Cfg(), old(View()), name, v.checkAt)
      ensures skip <==> Skips(Cfg(), old(View()), name, v)
    {
      var s := manager.Check(name, v.checkAt);
      if s == Open {
        return true;
      }
      var wait, _ := tracker.ShouldWait(name, v.waitAt);
      return wait;
    }

    method RecordVisitFailed(name: string, e: Error, at: int)
      requires Valid()
      modifies manager, manager.breakers.Values, tracker
      ensures Valid() && fresh(manager.breakers.Values - old(manager.breakers.Values))
      ensures View() == VisitFailed(Cfg(), old(View()), name, e, at)
    {
      hide Failed;
      hide IsRateLimited;
      hide Recorded;
      hide Manager.Valid;
      OfView(manager, name);
      hide Manager.View;
      hide Manager.Of;
      manager.Fail(name, at);
      if IsRateLimited(e) {
        tracker.RecordRateLimit(name, DEFAULT_RETRY_AFTER, at);
      }
    }

    method RecordVisitServed(name: string, at: int)
      requires Valid()
      modifies this, manager, manager.breakers.Values
      ensures Valid() && fresh(manager.breakers.Values - old(manager.breakers.Values))
      ensures View() ==
                VisitServed(Cfg(), old(View()), name, PrimaryOf(Enabled(selector.ordered, selector.disabled)), at)
    {
      manager.Succeed(name);
      SetActiveProvider(name, at);
    }

    /** The loop body of FetchMarketData. */
    method VisitProvider<T>(name: string, v: Visit<T>) returns (o: Outcome<T>, calls: nat)
      requires Valid() && v.env.Valid()
      modifies this, manager, manager.breakers.Values, tracker
      ensures Valid() && fresh(manager.breakers.Values - old(manager.breakers.Values))
      ensures (View(), o, calls) ==
                VisitOne(Cfg(), old(View()), name, PrimaryOf(Enabled(selector.ordered, selector.disabled)), v)
    {
      hide Checked;
      hide Skips;
      hide VisitFailed;
      hide VisitServed;
      hide PrimaryOf;
      hide Enabled;
      hide R.Retried;
      hide R.Backoffs;
      hide R.WithinBudget;
      hide R.Sum;
      var skip := CheckProvider(name, v);
      if skip {
        return Skipped, 0;
      }
      var fetched, n, _ := R.RetryWithResult(retryConfig, Retryable, v.env);
      match fetched
      case Gave(e) =>
        RecordVisitFailed(name, Wrapped(e), v.doneAt);
        return FailedWith(Wrapped(e)), n;
      case Returned(d) =>
        RecordVisitServed(name, v.doneAt);
        return Served(Data(d)), n;
      case Nothing =>
        RecordVisitServed(name, v.doneAt);
        return Served(NoData), n;
    }

    method FetchMarketData<T>(visits: seq<Visit<T>>) returns (result: FetchResult<T>, calls: nat)
      requires Valid()
      requires |Enabled(selector.ordered, selector.disabled)| <= |visits|
      requires forall i | 0 <= i < |visits| :: visits[i].env.Valid()
      modifies this, manager, manager.breakers.Values, tracker
      ensures Valid() && fresh(manager.breakers.Values - old(manager.breakers.Values))
      ensures (View(), result, calls) ==
                old(FetchInOrder(Cfg(), View(), Enabled(selector.ordered, selector.disabled), visits))
    {
      hide VisitOne;
      hide Pass;
      var eligible := selector.Eligible();
      if eligible == [] {
        return NoneEligible, 0;
      }
      var lastErr: Option<Error> := None;
      calls := 0;
      ghost var whole := Pass(Cfg(), View(), eligible, visits, 0, None);
      for i := 0 to |eligible|
        invariant Valid() && fresh(manager.breakers.Values - old(manager.breakers.Values))
        invariant whole == AddCalls(calls, Pass(Cfg(), View(), eligible, visits, i, lastErr))
      {
        ghost var before := View();
        var o, n := VisitProvider(eligible[i], visits[i]);
        PassUnfold(Cfg(), before, eligible, visits, i, lastErr, (View(), o, n));
        calls := calls + n;
        match o
        case Served(r) => return r, calls;
        case Skipped =>
        case FailedWith(e) => lastErr := Some(e);
      }
      PassEnd(Cfg(), View(), eligible, visits, lastErr);
      match lastErr
      case Some(e) => return ProviderFailed(e), calls;
      case None => return AllUnavailable, calls;
    }
  }

  lemma OfView(manager: Manager, name: string)
    ensures manager.Of(name) == if name in manager.View() then manager.View()[name] else New
  {
  }

  /** The state of a new orchestrator: the primary is active, nothing is degraded. */
  function Started(breakers: map<string, Breaker>, limits: Limits, names: seq<string>): State {
    State(breakers, limits, if names == [] then "" else names[0], false, 0)
  }
}
