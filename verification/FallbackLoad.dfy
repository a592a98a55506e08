/** How often a provider that always fails is called, over whole runs of the resilience stack. */
module FallbackLoad {
  import opened Basics
  import opened CircuitBreakers
  import opened ProviderErrors
  import R = Retries
  import opened RateLimitTrackers
  import opened Selectors
  import opened Fallback
  import opened FallbackProperties
  import opened FallbackRuns

  // ------------------------------------------------------------------
  // Serial operations on one breaker.
  // ------------------------------------------------------------------

  /** The breaker after the operations, when every admitted call fails. */
  function ServeAll(cfg: Config, b: Breaker, ops: seq<Op>): Breaker
    decreases |ops|
  {
    if ops == [] then b else ServeAll(cfg, Serve(cfg, b, ops[0], true), ops[1..])
  }

  lemma {:induction false} ServeConcat(cfg: Config, b: Breaker, first: seq<Op>, then_: seq<Op>)
    ensures ServeAll(cfg, b, first + then_) == ServeAll(cfg, ServeAll(cfg, b, first), then_)
    ensures Admitted(cfg, b, first + then_) == Admitted(cfg, b, first) + Admitted(cfg, ServeAll(cfg, b, first), then_)
    decreases |first|
  {
    hide Serve;
    hide Admits;
    if first == [] {
      assert first + then_ == then_;
    } else {
      assert (first + then_)[1..] == first[1..] + then_;
      ServeConcat(cfg, Serve(cfg, b, first[0], true), first[1..], then_);
    }
  }

  lemma ServeOne(cfg: Config, b: Breaker, op: Op)
    ensures ServeAll(cfg, b, [op]) == Serve(cfg, b, op, true)
    ensures Admitted(cfg, b, [op]) == if op.Call? && Admits(cfg, b, op.now) then 1 else 0
  {
    assert [op][1..] == [];
  }

  // ------------------------------------------------------------------
  // What a run does to the breaker of one provider.
  // ------------------------------------------------------------------

  /** A visit asks the breaker for its state, and calls the provider unless it cools down. */
  function OpOf<T>(s: State, p: string, v: Visit<T>): Op {
    if Cooling(s.limits, p, v.waitAt) then StateRead(v.checkAt) else Call(v.checkAt, v.doneAt)
  }

  function PassOps<T>(cfg: Settings, s: State, names: seq<string>, visits: seq<Visit<T>>, i: nat, p: string): seq<Op>
    requires i <= |names| <= |visits|
    decreases |names| - i
  {
    if i == |names| then []
    else
      var (s', o, _) := VisitOne(cfg, s, names[i], PrimaryOf(names), visits[i]);
      (if names[i] == p then [OpOf(s, p, visits[i])] else []) +
      (if o.Served? then [] else PassOps(cfg, s', names, visits, i + 1, p))
  }

  /** How often the pass calls provider `p`, retries included. */
  function PassCalls<T>(cfg: Settings, s: State, names: seq<string>, visits: seq<Visit<T>>, i: nat, p: string): nat
    requires i <= |names| <= |visits|
    decreases |names| - i
  {
    if i == |names| then 0
    else
      var (s', o, calls) := VisitOne(cfg, s, names[i], PrimaryOf(names), visits[i]);
      (if names[i] == p then calls else 0) +
      (if o.Served? then 0 else PassCalls(cfg, s', names, visits, i + 1, p))
  }

  ghost predicate FailingVisit<T>(v: Visit<T>) {
    forall k: nat :: v.env.outcome(k).Err?
  }

  lemma FailingGives<T>(cfg: Settings, v: Visit<T>)
    requires cfg.retry.maxAttempts >= 1 && FailingVisit(v)
    ensures Fetched(cfg, v.env).Gave?
  {
    var k := R.DecidedByFirstStop(cfg.retry, Retryable, v.env, 0);
    assert v.env.outcome(k).Err?;
  }

  /** A visit to the failing provider is its operation on the breaker, and calls count only when admitted. */
  lemma VisitProject<T>(cfg: Settings, s: State, p: string, primary: Option<string>, v: Visit<T>)
    requires cfg.retry.maxAttempts >= 1 && FailingVisit(v)
    ensures var (s', o, calls) := VisitOne(cfg, s, p, primary, v);
            && !o.Served?
            && BreakerOf(s', p) == Serve(cfg.breaker, BreakerOf(s, p), OpOf(s, p, v), true)
            && calls <= cfg.retry.maxAttempts
            && (OpOf(s, p, v).StateRead? || !Admits(cfg.breaker, BreakerOf(s, p), v.checkAt) ==> calls == 0)
  {
    FailingGives(cfg, v);
    VisitIsLocal(cfg, s, p, primary, v);
    VisitOutcome(cfg, s, p, primary, v);
    hide Fetched;
    hide R.Retried;
    hide Current;
    hide Failed;
    hide VisitFailed;
    hide VisitServed;
  }

  ghost predicate FailsIn<T>(names: seq<string>, visits: seq<Visit<T>>, p: string)
    requires |names| <= |visits|
  {
    forall j | 0 <= j < |names| :: names[j] == p ==> FailingVisit(visits[j])
  }

  /** `b` goes to `b'` by the operations, and there were at most `m` calls for each admitted one. */
  ghost predicate Accounts(cfg: Settings, b: Breaker, ops: seq<Op>, b': Breaker, calls: int) {
    b' == ServeAll(cfg.breaker, b, ops) && calls <= Cost(Admitted(cfg.breaker, b, ops), cfg.retry.maxAttempts)
  }

  lemma CostAdd(j: int, k: int, d: int)
    ensures Cost(j + k, d) == Cost(j, d) + Cost(k, d)
  {
  }

  lemma AccountsConcat(cfg: Settings, b: Breaker, ops: seq<Op>, b1: Breaker, calls: int, ops1: seq<Op>, b2: Breaker,
      calls1: int)
    requires Accounts(cfg, b, ops, b1, calls) && Accounts(cfg, b1, ops1, b2, calls1)
    ensures Accounts(cfg, b, ops + ops1, b2, calls + calls1)
  {
    hide ServeAll;
    hide Admitted;
    hide Cost;
    ServeConcat(cfg.breaker, b, ops, ops1);
    CostAdd(Admitted(cfg.breaker, b, ops), Admitted(cfg.breaker, b1, ops1), cfg.retry.maxAttempts);
  }

  lemma AccountsNothing(cfg: Settings, b: Breaker)
    ensures Accounts(cfg, b, [], b, 0)
  {
  }

  lemma AccountsVisit<T>(cfg: Settings, s: State, name: string, primary: Option<string>, v: Visit<T>, p: string)
    requires cfg.retry.maxAttempts >= 1 && (name == p ==> FailingVisit(v))
    ensures var (s', o, calls) := VisitOne(cfg, s, name, primary, v);
            && (name == p ==> !o.Served?)
            && Accounts(cfg, BreakerOf(s, p), if name == p then [OpOf(s, p, v)] else [],
                        BreakerOf(s', p), if name == p then calls else 0)
  {
    hide VisitOne;
    hide Serve;
    hide Admits;
    if name == p {
      VisitProject(cfg, s, p, primary, v);
      ServeOne(cfg.breaker, BreakerOf(s, p), OpOf(s, p, v));
      assert Cost(1, cfg.retry.maxAttempts) == cfg.retry.maxAttempts && Cost(0, cfg.retry.maxAttempts) == 0;
    } else {
      VisitIsLocal(cfg, s, name, primary, v);
      AccountsNothing(cfg, BreakerOf(s, p));
      assert Untouched(s, VisitOne(cfg, s, name, primary, v).0, p);
    }
  }

  lemma {:induction false} PassProject<T>(cfg: Settings, s: State, names: seq<string>, visits: seq<Visit<T>>, i: nat,
      lastErr: Option<Error>, p: string)
    requires i <= |names| <= |visits| && cfg.retry.maxAttempts >= 1 && FailsIn(names, visits, p)
    ensures Accounts(cfg, BreakerOf(s, p), PassOps(cfg, s, names, visits, i, p),
                     BreakerOf(Pass(cfg, s, names, visits, i, lastErr).0, p), PassCalls(cfg, s, names, visits, i, p))
    decreases |names| - i
  {
    hide VisitOne;
    hide Pass;
    hide Accounts;
    hide BreakerOf;
    hide OpOf;
    if i == |names| {
      PassEnd(cfg, s, names, visits, lastErr);
      AccountsNothing(cfg, BreakerOf(s, p));
    } else {
      var visit := VisitOne(cfg, s, names[i], PrimaryOf(names), visits[i]);
      PassUnfold(cfg, s, names, visits, i, lastErr, visit);
      AccountsVisit(cfg, s, names[i], PrimaryOf(names), visits[i], p);
      var ops := if names[i] == p then [OpOf(s, p, visits[i])] else [];
      var calls := if names[i] == p then visit.2 else 0;
      if visit.1.Served? {
        assert PassOps(cfg, s, names, visits, i, p) == ops;
      } else {
        var e := if visit.1.FailedWith? then Some(visit.1.error) else lastErr;
        PassProject(cfg, visit.0, names, visits, i + 1, e, p);
        AccountsConcat(cfg, BreakerOf(s, p), ops, BreakerOf(visit.0, p), calls,
                       PassOps(cfg, visit.0, names, visits, i + 1, p),
                       BreakerOf(Pass(cfg, visit.0, names, visits, i + 1, e).0, p),
                       PassCalls(cfg, visit.0, names, visits, i + 1, p));
      }
    }
  }

  // ------------------------------------------------------------------
  // Whole runs.
  // ------------------------------------------------------------------

  function ActOps<T>(cfg: Settings, ordered: seq<string>, w: World, a: Action<T>, p: string): seq<Op>
    requires Fits(ordered, a)
  {
    match a
    case Fetch(visits) => PassOps(cfg, w.state, Enabled(ordered, w.disabled), visits, 0, p)
    case ReadStates(at) => [StateRead(at)]
    case _ => []
  }

  function ActCalls<T>(cfg: Settings, ordered: seq<string>, w: World, a: Action<T>, p: string): nat
    requires Fits(ordered, a)
  {
    if a.Fetch? then PassCalls(cfg, w.state, Enabled(ordered, w.disabled), a.visits, 0, p) else 0
  }

  /** The operations of the run on the breaker of `p`, in order. */
  ghost function RunOps<T>(cfg: Settings, ordered: seq<string>, w: World, actions: seq<Action<T>>, p: string): seq<Op>
    requires AllFit(ordered, actions)
  {
    if actions == [] then []
    else
      var init := actions[..|actions|-1];
      RunOps(cfg, ordered, w, init, p) +
      ActOps(cfg, ordered, FallbackRuns.Run(cfg, ordered, w, init).0, actions[|actions|-1], p)
  }

  /** How often the run calls provider `p`. */
  ghost function RunCalls<T>(cfg: Settings, ordered: seq<string>, w: World, actions: seq<Action<T>>, p: string): nat
    requires AllFit(ordered, actions)
  {
    if actions == [] then 0
    else
      var init := actions[..|actions|-1];
      RunCalls(cfg, ordered, w, init, p) +
      ActCalls(cfg, ordered, FallbackRuns.Run(cfg, ordered, w, init).0, actions[|actions|-1], p)
  }

  /** Every attempt that a visit to `p` may make in the run fails. */
  ghost predicate AlwaysFails<T>(cfg: Settings, ordered: seq<string>, w: World, actions: seq<Action<T>>, p: string)
    requires AllFit(ordered, actions)
  {
    actions == [] || (
      var init, a := actions[..|actions|-1], actions[|actions|-1];
      && AlwaysFails(cfg, ordered, w, init, p)
      && (a.Fetch? ==> FailsIn(Enabled(ordered, FallbackRuns.Run(cfg, ordered, w, init).0.disabled), a.visits, p)))
  }

  lemma ActProject<T>(cfg: Settings, ordered: seq<string>, w: World, a: Action<T>, p: string)
    requires Fits(ordered, a) && cfg.retry.maxAttempts >= 1
    requires a.Fetch? ==> FailsIn(Enabled(ordered, w.disabled), a.visits, p)
    ensures Accounts(cfg, BreakerOf(w.state, p), ActOps(cfg, ordered, w, a, p),
                     BreakerOf(Act(cfg, ordered, w, a).0.state, p), ActCalls(cfg, ordered, w, a, p))
  {
    hide Pass;
    hide PassOps;
    hide PassCalls;
    var b := BreakerOf(w.state, p);
    match a
    case Fetch(visits) =>
      hide Accounts;
      var names := Enabled(ordered, w.disabled);
      PassProject(cfg, w.state, names, visits, 0, None, p);
      if names == [] {
        PassEnd(cfg, w.state, names, visits, None);
      }
    case ReadStates(at) =>
      ServeOne(cfg.breaker, b, StateRead(at));
    case _ =>
      AccountsNothing(cfg, b);
  }

  lemma {:induction false} RunProject<T>(cfg: Settings, ordered: seq<string>, w: World, actions: seq<Action<T>>,
      p: string)
    requires AllFit(ordered, actions) && cfg.retry.maxAttempts >= 1 && AlwaysFails(cfg, ordered, w, actions, p)
    ensures Accounts(cfg, BreakerOf(w.state, p), RunOps(cfg, ordered, w, actions, p),
                     BreakerOf(FallbackRuns.Run(cfg, ordered, w, actions).0.state, p),
                     RunCalls(cfg, ordered, w, actions, p))
  {
    hide Accounts;
    hide Act;
    hide ActOps;
    hide ActCalls;
    hide BreakerOf;
    if actions == [] {
      AccountsNothing(cfg, BreakerOf(w.state, p));
    } else {
      var init, a := actions[..|actions|-1], actions[|actions|-1];
      RunProject(cfg, ordered, w, init, p);
      var w1 := FallbackRuns.Run(cfg, ordered, w, init).0;
      ActProject(cfg, ordered, w1, a, p);
      AccountsConcat(cfg, BreakerOf(w.state, p), RunOps(cfg, ordered, w, init, p), BreakerOf(w1.state, p),
                     RunCalls(cfg, ordered, w, init, p), ActOps(cfg, ordered, w1, a, p),
                     BreakerOf(Act(cfg, ordered, w1, a).0.state, p), ActCalls(cfg, ordered, w1, a, p));
    }
  }

  /** Without attempts nothing is called. */
  lemma {:induction false} NoAttemptsNoCalls<T>(cfg: Settings, s: State, names: seq<string>, visits: seq<Visit<T>>,
      i: nat, p: string)
    requires i <= |names| <= |visits| && cfg.retry.maxAttempts <= 0
    ensures PassCalls(cfg, s, names, visits, i, p) == 0
    decreases |names| - i
  {
    if i < |names| {
      VisitIsLocal(cfg, s, names[i], PrimaryOf(names), visits[i]);
      var visit := VisitOne(cfg, s, names[i], PrimaryOf(names), visits[i]);
      hide VisitOne;
      NoAttemptsNoCalls(cfg, visit.0, names, visits, i + 1, p);
    }
  }

  lemma {:induction false} NoAttemptsNoRunCalls<T>(cfg: Settings, ordered: seq<string>, w: World,
      actions: seq<Action<T>>, p: string)
    requires AllFit(ordered, actions) && cfg.retry.maxAttempts <= 0
    ensures RunCalls(cfg, ordered, w, actions, p) == 0
  {
    if actions != [] {
      var init, a := actions[..|actions|-1], actions[|actions|-1];
      NoAttemptsNoRunCalls(cfg, ordered, w, init, p);
      hide FallbackRuns.Run;
      hide PassCalls;
      if a.Fetch? {
        var w1 := FallbackRuns.Run(cfg, ordered, w, init).0;
        NoAttemptsNoCalls(cfg, w1.state, Enabled(ordered, w1.disabled), a.visits, 0, p);
      }
    }
  }

  lemma CostMonotone(j: int, k: int, d: int)
    requires j <= k && 0 <= d
    ensures Cost(j, d) <= Cost(k, d)
  {
    assert (k - j) * d >= 0;
  }

  /**
   Bounded load on a dead provider, for the whole stack. In every run from a new orchestrator
   whose operations on the breaker of `p` are in time order and start within `T`, a provider
   that always fails is called at most `maxAttempts * (Trip + T / openDuration)` times, whatever
   other providers, cool-downs, switches and state reads do.
   */
  lemma DeadProviderInEveryRun<T>(cfg: Settings, ordered: seq<string>, disabled: set<string>, actions: seq<Action<T>>,
      p: string, t0: int, span: nat)
    requires AllFit(ordered, actions) && cfg.breaker.openDuration > 0
    requires AlwaysFails(cfg, ordered, Start(ordered, disabled), actions, p)
    requires Serial(RunOps(cfg, ordered, Start(ordered, disabled), actions, p), t0, t0 + span)
    ensures RunCalls(cfg, ordered, Start(ordered, disabled), actions, p)
              <= Max(0, cfg.retry.maxAttempts) * (Trip(cfg.breaker) + span / cfg.breaker.openDuration)
  {
    hide RunOps;
    hide RunCalls;
    hide FallbackRuns.Run;
    hide AlwaysFails;
    hide Serial;
    hide ServeAll;
    hide Admitted;
    var w := Start(ordered, disabled);
    var m, bound := cfg.retry.maxAttempts, Trip(cfg.breaker) + span / cfg.breaker.openDuration;
    if m <= 0 {
      NoAttemptsNoRunCalls(cfg, ordered, w, actions, p);
    } else {
      var ops := RunOps(cfg, ordered, w, actions, p);
      assert BreakerOf(w.state, p) == New;
      RunProject(cfg, ordered, w, actions, p);
      DeadProviderBoundedLoad(cfg.breaker, ops, t0, span);
      CostMonotone(Admitted(cfg.breaker, New, ops), bound, m);
      assert Cost(bound, m) == m * bound;
    }
  }
}
