/** What one pass over the providers guarantees. */
module FallbackProperties {
  import opened Basics
  import opened CircuitBreakers
  import opened ProviderErrors
  import R = Retries
  import opened RateLimitTrackers
  import opened Selectors
  import opened Fallback

  // ------------------------------------------------------------------
  // One pass: first success in priority order.
  // ------------------------------------------------------------------

  /** The provider is called in state `s` and its retried fetch does not end in an error. */
  predicate Serves<T>(cfg: Settings, s: State, name: string, v: Visit<T>) {
    !Skips(cfg, s, name, v) && !Fetched(cfg, v.env).Gave?
  }

  /** The breaker of a visited provider: at most one success or failure is recorded. */
  function BreakerAfter<T>(cfg: Settings, s: State, name: string, v: Visit<T>): Breaker {
    var c := Current(cfg.breaker, BreakerOf(s, name), v.checkAt);
    if Skips(cfg, s, name, v) then c
    else if Fetched(cfg, v.env).Gave? then Failed(cfg.breaker, c, v.doneAt)
    else Succeeded(cfg.breaker, c)
  }

  /** The cool-down of a visited provider: set anew when it answered with a 429. */
  function LimitsAfter<T>(cfg: Settings, s: State, name: string, v: Visit<T>): Option<Limit> {
    if !Skips(cfg, s, name, v) && Fetched(cfg, v.env).Gave? && IsRateLimited(Fetched(cfg, v.env).error)
    then Some(Limit(v.doneAt, DEFAULT_RETRY_AFTER, (if name in s.limits then s.limits[name].count else 0) + 1))
    else LimitOf(s, name)
  }

  function LimitOf(s: State, name: string): Option<Limit> {
    if name in s.limits then Some(s.limits[name]) else None
  }

  /** Nothing recorded about `name` differs. */
  predicate Untouched(s: State, s': State, name: string) {
    && (name in s.breakers <==> name in s'.breakers)
    && BreakerOf(s, name) == BreakerOf(s', name)
    && LimitOf(s, name) == LimitOf(s', name)
  }

  /** A visit hands on the answer or, wrapped, the error of the attempt that decides, or that of the context. */
  lemma FetchedByFirstStop<T>(cfg: Settings, env: R.Env<T>)
    ensures cfg.retry.maxAttempts <= 0 ==> Fetched(cfg, env) == R.Nothing
    ensures cfg.retry.maxAttempts >= 1 ==>
              var k := R.FirstStop(cfg.retry, Retryable, env, 0);
              Fetched(cfg, env) ==
                if env.endedBefore(k) then R.Gave(Wrapped(Wrapped(env.ctxError)))
                else match env.outcome(k)
                     case Ok(v) => R.Returned(v)
                     case Err(e) =>
                       if k == cfg.retry.maxAttempts - 1 || !Retryable(e) then R.Gave(Wrapped(e))
                       else R.Gave(Wrapped(Wrapped(env.ctxError)))
  {
    hide Retryable;
    if cfg.retry.maxAttempts >= 1 {
      var _ := R.DecidedByFirstStop(cfg.retry, Retryable, env, 0);
      hide R.Attempt;
      hide R.FirstStop;
    }
  }

  lemma CallsBounded<T>(cfg: Settings, env: R.Env<T>)
    ensures R.Retried(cfg.retry, Retryable, env).1 <= Max(0, cfg.retry.maxAttempts)
  {
    if cfg.retry.maxAttempts > 0 {
      var _ := R.DecidedByFirstStop(cfg.retry, Retryable, env, 0);
    }
  }

  lemma CheckedSpares(cfg: Settings, s: State, name: string, at: int, other: string)
    requires other != name
    ensures Untouched(s, Checked(cfg, s, name, at), other)
  {
    hide Current;
  }

  lemma FailedSpares(cfg: Settings, s: State, name: string, e: Error, at: int, other: string)
    requires other != name
    ensures Untouched(s, VisitFailed(cfg, s, name, e, at), other)
  {
    hide Failed;
    hide IsRateLimited;
  }

  lemma ServedSpares(cfg: Settings, s: State, name: string, primary: Option<string>, at: int, other: string)
    requires other != name
    ensures Untouched(s, VisitServed(cfg, s, name, primary, at), other)
  {
    hide Succeeded;
  }

  lemma UntouchedTwice(s: State, s1: State, s2: State, name: string)
    requires Untouched(s, s1, name) && Untouched(s1, s2, name)
    ensures Untouched(s, s2, name)
  {
  }

  lemma VisitSparesOthers<T>(cfg: Settings, s: State, name: string, primary: Option<string>, v: Visit<T>, other: string)
    requires other != name
    ensures Untouched(s, VisitOne(cfg, s, name, primary, v).0, other)
  {
    hide Untouched;
    hide Checked;
    hide VisitFailed;
    hide VisitServed;
    hide Skips;
    hide Fetched;
    var c := Checked(cfg, s, name, v.checkAt);
    CheckedSpares(cfg, s, name, v.checkAt, other);
    if !Skips(cfg, s, name, v) {
      match Fetched(cfg, v.env)
      case Gave(e) =>
        FailedSpares(cfg, c, name, e, v.doneAt, other);
        UntouchedTwice(s, c, VisitFailed(cfg, c, name, e, v.doneAt), other);
      case _ =>
        ServedSpares(cfg, c, name, primary, v.doneAt, other);
        UntouchedTwice(s, c, VisitServed(cfg, c, name, primary, v.doneAt), other);
    }
  }

  lemma VisitRecords<T>(cfg: Settings, s: State, name: string, primary: Option<string>, v: Visit<T>)
    ensures var s' := VisitOne(cfg, s, name, primary, v).0;
            BreakerOf(s', name) == BreakerAfter(cfg, s, name, v) && LimitOf(s', name) == LimitsAfter(cfg, s, name, v)
  {
    hide Current;
    hide Failed;
    hide Succeeded;
    hide Fetched;
    hide Skips;
    hide IsRateLimited;
    hide Checked;
    hide VisitFailed;
    hide VisitServed;
    var c := Checked(cfg, s, name, v.checkAt);
    CheckedRecords(cfg, s, name, v.checkAt);
    if !Skips(cfg, s, name, v) {
      match Fetched(cfg, v.env)
      case Gave(e) => FailedRecords(cfg, c, name, e, v.doneAt);
      case _ => ServedRecords(cfg, c, name, primary, v.doneAt);
    }
  }

  lemma CheckedRecords(cfg: Settings, s: State, name: string, at: int)
    ensures var c := Checked(cfg, s, name, at);
            BreakerOf(c, name) == Current(cfg.breaker, BreakerOf(s, name), at) && c.limits == s.limits
  {
    hide Current;
  }

  lemma FailedRecords(cfg: Settings, s: State, name: string, e: Error, at: int)
    ensures var s' := VisitFailed(cfg, s, name, e, at);
            && BreakerOf(s', name) == Failed(cfg.breaker, BreakerOf(s, name), at)
            && LimitOf(s', name) ==
                 if IsRateLimited(e)
                 then Some(Limit(at, DEFAULT_RETRY_AFTER, (if name in s.limits then s.limits[name].count else 0) + 1))
                 else LimitOf(s, name)
  {
    hide Failed;
    hide IsRateLimited;
  }

  lemma ServedRecords(cfg: Settings, s: State, name: string, primary: Option<string>, at: int)
    ensures var s' := VisitServed(cfg, s, name, primary, at);
            BreakerOf(s', name) == Succeeded(cfg.breaker, BreakerOf(s, name)) && s'.limits == s.limits
  {
    hide Succeeded;
  }

  /** A visit concerns the visited provider alone. */
  lemma VisitIsLocal<T>(cfg: Settings, s: State, name: string, primary: Option<string>, v: Visit<T>)
    ensures var (s', _, calls) := VisitOne(cfg, s, name, primary, v);
            && (forall m | m != name :: Untouched(s, s', m))
            && BreakerOf(s', name) == BreakerAfter(cfg, s, name, v)
            && LimitOf(s', name) == LimitsAfter(cfg, s, name, v)
            && calls <= Max(0, cfg.retry.maxAttempts)
  {
    CallsBounded(cfg, v.env);
    VisitRecords(cfg, s, name, primary, v);
    forall m | m != name ensures Untouched(s, VisitOne(cfg, s, name, primary, v).0, m) {
      VisitSparesOthers(cfg, s, name, primary, v, m);
    }
    hide Skips;
    hide Fetched;
    hide R.Retried;
    hide Checked;
    hide VisitFailed;
    hide VisitServed;
    hide Untouched;
    hide BreakerAfter;
    hide LimitsAfter;
  }

  lemma VisitOutcome<T>(cfg: Settings, s: State, name: string, primary: Option<string>, v: Visit<T>)
    ensures var (s', o, _) := VisitOne(cfg, s, name, primary, v);
            && (o.Served? <==> Serves(cfg, s, name, v))
            && (o.Skipped? <==> Skips(cfg, s, name, v))
            && (o.Served? ==> o.result == ResultOf(cfg, v) && s'.active == name)
            && (o.Served? ==> s'.lastSwitch == if s.active == name then s.lastSwitch else v.doneAt)
            && (o.Served? ==> s'.degraded == if s.active == name then s.degraded else primary != Some(name))
            && (o.FailedWith? ==> Fetched(cfg, v.env).Gave? && o.error == Fetched(cfg, v.env).error)
            && (!o.Served? ==> s'.active == s.active && s'.degraded == s.degraded && s'.lastSwitch == s.lastSwitch)
  {
    hide Current;
    hide Failed;
    hide Succeeded;
  }

  /** What the caller gets from a provider that serves. */
  function ResultOf<T>(cfg: Settings, v: Visit<T>): FetchResult<T> {
    match Fetched(cfg, v.env)
    case Returned(d) => Data(d)
    case Nothing => NoData
    case Gave(e) => ProviderFailed(e)
  }

  lemma SameVerdict<T>(cfg: Settings, s: State, s': State, name: string, v: Visit<T>)
    requires Untouched(s, s', name)
    ensures Skips(cfg, s, name, v) == Skips(cfg, s', name, v)
    ensures Serves(cfg, s, name, v) == Serves(cfg, s', name, v)
    ensures BreakerAfter(cfg, s, name, v) == BreakerAfter(cfg, s', name, v)
    ensures LimitsAfter(cfg, s, name, v) == LimitsAfter(cfg, s', name, v)
  {
  }

  /**
   `k` is the first provider from `i` on that serves in the state before the pass, or
   the end of the list. The pass ends with its answer, has visited exactly the
   providers up to it, once each, and leaves all others as they were.
   */
  ghost predicate FirstServes<T>(cfg: Settings, s: State, names: seq<string>, visits: seq<Visit<T>>, i: nat, k: nat)
    requires i <= k <= |names| <= |visits|
  {
    && (forall j | i <= j < k :: !Serves(cfg, s, names[j], visits[j]))
    && (k < |names| ==> Serves(cfg, s, names[k], visits[k]))
  }

  ghost predicate VisitedUpTo<T>(cfg: Settings, s: State, s': State, names: seq<string>, visits: seq<Visit<T>>,
      i: nat, k: nat)
    requires i <= k <= |names| <= |visits|
  {
    && (forall j | i <= j < Min(k + 1, |names|) ::
          && BreakerOf(s', names[j]) == BreakerAfter(cfg, s, names[j], visits[j])
          && LimitOf(s', names[j]) == LimitsAfter(cfg, s, names[j], visits[j]))
    && (forall m | m !in names[i..Min(k + 1, |names|)] :: Untouched(s, s', m))
  }

  /** The last provider from `j` on that is called, and its fetch fails. */
  ghost predicate LastTried<T>(cfg: Settings, s: State, names: seq<string>, visits: seq<Visit<T>>, j: nat)
    requires j < |names| <= |visits|
  {
    && !Skips(cfg, s, names[j], visits[j]) && Fetched(cfg, visits[j].env).Gave?
    && forall l | j < l < |names| :: Skips(cfg, s, names[l], visits[l])
  }

  /** With none serving: the error of the last provider tried, else `lastErr`, else that all are unavailable. */
  ghost predicate FailsWith<T>(cfg: Settings, s: State, names: seq<string>, visits: seq<Visit<T>>, i: nat,
      lastErr: Option<Error>,
                               r: FetchResult<T>)
    requires i <= |names| <= |visits|
  {
    if Attempted(cfg, s, names, visits, i)
    then exists j | i <= j < |names| ::
        LastTried(cfg, s, names, visits, j) && r == ProviderFailed(Fetched(cfg, visits[j].env).error)
    else match lastErr
         case Some(e) => r == ProviderFailed(e)
         case None => r == AllUnavailable
  }

  ghost predicate Attempted<T>(cfg: Settings, s: State, names: seq<string>, visits: seq<Visit<T>>, i: nat)
    requires i <= |names| <= |visits|
  {
    exists j | i <= j < |names| :: !Skips(cfg, s, names[j], visits[j])
  }

  lemma MemberOfSlice(names: seq<string>, i: nat, e: nat, m: string)
    requires i < e <= |names|
    ensures m in names[i..e] <==> m == names[i] || m in names[i+1..e]
  {
    assert names[i..e] == [names[i]] + names[i+1..e];
  }

  /** The step from `s` to `s1` by visiting `names[i]`, with the rest of the pass after it. */
  lemma VisitedCons<T>(cfg: Settings, s: State, s1: State, s': State, names: seq<string>, visits: seq<Visit<T>>,
      i: nat, k: nat)
    requires Distinct(names) && i < k <= |names| <= |visits|
    requires forall m | m != names[i] :: Untouched(s, s1, m)
    requires BreakerOf(s1, names[i]) == BreakerAfter(cfg, s, names[i], visits[i])
    requires LimitOf(s1, names[i]) == LimitsAfter(cfg, s, names[i], visits[i])
    requires VisitedUpTo(cfg, s1, s', names, visits, i + 1, k)
    ensures VisitedUpTo(cfg, s, s', names, visits, i, k)
  {
    var e := Min(k + 1, |names|);
    assert names[i] !in names[i+1..e];
    assert Untouched(s1, s', names[i]);
    forall j | i + 1 <= j < e
      ensures BreakerOf(s', names[j]) == BreakerAfter(cfg, s, names[j], visits[j])
      ensures LimitOf(s', names[j]) == LimitsAfter(cfg, s, names[j], visits[j])
    {
      SameVerdict(cfg, s, s1, names[j], visits[j]);
    }
    forall m | m !in names[i..e] ensures Untouched(s, s', m) {
      MemberOfSlice(names, i, e, m);
      assert Untouched(s, s1, m) && Untouched(s1, s', m);
    }
  }

  lemma FirstServesCons<T>(cfg: Settings, s: State, s1: State, names: seq<string>, visits: seq<Visit<T>>, i: nat,
      k: nat)
    requires Distinct(names) && i < k <= |names| <= |visits|
    requires forall m | m != names[i] :: Untouched(s, s1, m)
    requires !Serves(cfg, s, names[i], visits[i])
    requires FirstServes(cfg, s1, names, visits, i + 1, k)
    ensures FirstServes(cfg, s, names, visits, i, k)
    ensures Attempted(cfg, s, names, visits, i) <==>
              !Skips(cfg, s, names[i], visits[i]) || Attempted(cfg, s1, names, visits, i + 1)
  {
    forall j | i + 1 <= j < |names|
      ensures Serves(cfg, s, names[j], visits[j]) == Serves(cfg, s1, names[j], visits[j])
      ensures Skips(cfg, s, names[j], visits[j]) == Skips(cfg, s1, names[j], visits[j])
    {
      SameVerdict(cfg, s, s1, names[j], visits[j]);
    }
  }

  /** The failing visit of `names[i]`, with the rest of the pass after it. */
  lemma FailsWithCons<T>(cfg: Settings, s: State, s1: State, names: seq<string>, visits: seq<Visit<T>>, i: nat,
                         lastErr: Option<Error>, r: FetchResult<T>)
    requires Distinct(names) && i < |names| <= |visits|
    requires forall m | m != names[i] :: Untouched(s, s1, m)
    requires !Serves(cfg, s, names[i], visits[i])
    requires FailsWith(cfg, s1, names, visits, i + 1,
                       if Skips(cfg, s, names[i], visits[i]) then lastErr
                       else Some(Fetched(cfg, visits[i].env).error),
                       r)
    ensures FailsWith(cfg, s, names, visits, i, lastErr, r)
  {
    forall j | i + 1 <= j < |names| ensures Skips(cfg, s, names[j], visits[j]) == Skips(cfg, s1, names[j], visits[j]) {
      SameVerdict(cfg, s, s1, names[j], visits[j]);
    }
    hide Skips;
    hide Fetched;
    hide Untouched;
    if Attempted(cfg, s1, names, visits, i + 1) {
      var j :| i + 1 <= j < |names| && LastTried(cfg, s1, names, visits, j)
          && r == ProviderFailed(Fetched(cfg, visits[j].env).error);
      assert LastTried(cfg, s, names, visits, j);
    } else if !Skips(cfg, s, names[i], visits[i]) {
      assert LastTried(cfg, s, names, visits, i);
    }
  }

  lemma VisitedNone<T>(cfg: Settings, s: State, names: seq<string>, visits: seq<Visit<T>>)
    requires |names| <= |visits|
    ensures FirstServes(cfg, s, names, visits, |names|, |names|)
    ensures VisitedUpTo(cfg, s, s, names, visits, |names|, |names|)
    ensures !Attempted(cfg, s, names, visits, |names|)
  {
  }

  lemma FailsWithNone<T>(cfg: Settings, s: State, names: seq<string>, visits: seq<Visit<T>>, lastErr: Option<Error>)
    requires |names| <= |visits|
    ensures FailsWith(cfg, s, names, visits, |names|, lastErr,
                      match lastErr case Some(e) => ProviderFailed(e) case None => AllUnavailable)
  {
  }

  lemma VisitedLast<T>(cfg: Settings, s: State, s': State, names: seq<string>, visits: seq<Visit<T>>, i: nat)
    requires i < |names| <= |visits|
    requires forall m | m != names[i] :: Untouched(s, s', m)
    requires BreakerOf(s', names[i]) == BreakerAfter(cfg, s, names[i], visits[i])
    requires LimitOf(s', names[i]) == LimitsAfter(cfg, s, names[i], visits[i])
    requires Serves(cfg, s, names[i], visits[i])
    ensures FirstServes(cfg, s, names, visits, i, i)
    ensures VisitedUpTo(cfg, s, s', names, visits, i, i)
  {
    assert names[i..i+1] == [names[i]];
  }

  /** The part of a pass's result that the list position `k` determines. */
  ghost predicate EndsAt<T>(cfg: Settings, s: State, names: seq<string>, visits: seq<Visit<T>>, i: nat,
      lastErr: Option<Error>,
                            k: nat, s': State, r: FetchResult<T>)
    requires i <= k <= |names| <= |visits|
  {
    && (k < |names| ==>
          && r == ResultOf(cfg, visits[k]) && s'.active == names[k]
          && s'.lastSwitch == (if s.active == names[k] then s.lastSwitch else visits[k].doneAt)
          && s'.degraded == (if s.active == names[k] then s.degraded else names[0] != names[k]))
    && (k == |names| ==>
          && s'.active == s.active && s'.degraded == s.degraded && s'.lastSwitch == s.lastSwitch
          && FailsWith(cfg, s, names, visits, i, lastErr, r))
  }

  /** What `n` providers may be called in all: each as often as the retries allow. */
  function MostCalls(cfg: Settings, n: nat): nat {
    n * Max(0, cfg.retry.maxAttempts)
  }

  lemma CallsAdd(cfg: Settings, calls: nat, rest: nat, n: nat)
    requires calls <= Max(0, cfg.retry.maxAttempts) && rest <= MostCalls(cfg, n)
    ensures calls + rest <= MostCalls(cfg, n + 1)
  {
  }

  /** Refinement of "first success in priority order", from provider `i` on. */
  lemma {:induction false} PassFindsFirst<T>(cfg: Settings, s: State, names: seq<string>, visits: seq<Visit<T>>,
      i: nat, lastErr: Option<Error>)
    returns (k: nat)
    requires Distinct(names) && i <= |names| <= |visits|
    ensures i <= k <= |names|
    ensures FirstServes(cfg, s, names, visits, i, k)
    ensures var (s', r, calls) := Pass(cfg, s, names, visits, i, lastErr);
            && VisitedUpTo(cfg, s, s', names, visits, i, k)
            && EndsAt(cfg, s, names, visits, i, lastErr, k, s', r)
            && calls <= MostCalls(cfg, |names| - i)
    decreases |names| - i
  {
    hide VisitOne;
    hide Pass;
    hide Serves;
    hide Skips;
    hide BreakerAfter;
    hide LimitsAfter;
    hide ResultOf;
    hide VisitedUpTo;
    hide FirstServes;
    hide Untouched;
    hide Attempted;
    hide FailsWith;
    hide Fetched;
    hide MostCalls;
    if i == |names| {
      FailsWithNone(cfg, s, names, visits, lastErr);
      PassEnd(cfg, s, names, visits, lastErr);
      VisitedNone(cfg, s, names, visits);
      k := i;
    } else {
      var visit := VisitOne(cfg, s, names[i], PrimaryOf(names), visits[i]);
      PassUnfold(cfg, s, names, visits, i, lastErr, visit);
      VisitIsLocal(cfg, s, names[i], PrimaryOf(names), visits[i]);
      VisitOutcome(cfg, s, names[i], PrimaryOf(names), visits[i]);
      if visit.1.Served? {
        k := i;
        VisitedLast(cfg, s, visit.0, names, visits, i);
        CallsAdd(cfg, visit.2, 0, |names| - i - 1);
      } else {
        var e := if visit.1.FailedWith? then Some(visit.1.error) else lastErr;
        k := PassFindsFirst(cfg, visit.0, names, visits, i + 1, e);
        var rest := Pass(cfg, visit.0, names, visits, i + 1, e);
        VisitedCons(cfg, s, visit.0, rest.0, names, visits, i, k);
        FirstServesCons(cfg, s, visit.0, names, visits, i, k);
        if k == |names| {
          FailsWithCons(cfg, s, visit.0, names, visits, i, lastErr, rest.1);
        }
        CallsAdd(cfg, visit.2, rest.2, |names| - i - 1);
      }
    }
  }

  /** The provider is eligible and was passed over. */
  ghost predicate PassedOver<T>(cfg: Settings, s: State, names: seq<string>, visits: seq<Visit<T>>, name: string)
    requires |names| <= |visits|
  {
    exists a | 0 <= a < |names| :: names[a] == name && !Serves(cfg, s, name, visits[a])
  }

  /** Every provider configured before the chosen one is disabled or was passed over. */
  ghost predicate FirstInPriority<T>(cfg: Settings, s: State, ordered: seq<string>, disabled: set<string>,
      visits: seq<Visit<T>>, k: nat)
    requires k < |Enabled(ordered, disabled)| <= |visits|
  {
    var names := Enabled(ordered, disabled);
    exists q | 0 <= q < |ordered| ::
      && ordered[q] == names[k] && ordered[q] !in disabled
      && forall p | 0 <= p < q :: ordered[p] in disabled || PassedOver(cfg, s, names, visits, ordered[p])
  }

  lemma ChosenIsFirst<T>(cfg: Settings, s: State, ordered: seq<string>, disabled: set<string>, visits: seq<Visit<T>>,
      k: nat)
    requires Distinct(ordered) && k < |Enabled(ordered, disabled)| <= |visits|
    requires FirstServes(cfg, s, Enabled(ordered, disabled), visits, 0, k)
    ensures FirstInPriority(cfg, s, ordered, disabled, visits, k)
  {
    hide Serves;
    var names := Enabled(ordered, disabled);
    EnabledMembers(ordered, disabled);
    EnabledDistinct(ordered, disabled);
    hide Enabled;
    assert names[k] in names;
    var q :| 0 <= q < |ordered| && ordered[q] == names[k];
    forall p | 0 <= p < q && ordered[p] !in disabled ensures PassedOver(cfg, s, names, visits, ordered[p]) {
      var a, b := EnabledKeepsOrder(ordered, disabled, p, q);
      assert b == k;
    }
  }

  /** What a fetch over the eligible providers `names` does, when the first to serve is number `k`. */
  ghost predicate FetchEndsAt<T>(cfg: Settings, s: State, names: seq<string>, visits: seq<Visit<T>>, k: nat,
                                 s': State, r: FetchResult<T>, calls: nat)
    requires k <= |names| <= |visits|
  {
    && FirstServes(cfg, s, names, visits, 0, k)
    && VisitedUpTo(cfg, s, s', names, visits, 0, k)
    && (names == [] ==> s' == s)
    && (names != [] ==> EndsAt(cfg, s, names, visits, 0, None, k, s', r))
    && (r.NoneEligible? <==> names == [])
    && calls <= MostCalls(cfg, |names|)
  }

  lemma FetchFindsFirst<T>(cfg: Settings, s: State, names: seq<string>, visits: seq<Visit<T>>) returns (k: nat)
    requires Distinct(names) && |names| <= |visits|
    ensures k <= |names|
    ensures var (s', r, calls) := FetchInOrder(cfg, s, names, visits);
            FetchEndsAt(cfg, s, names, visits, k, s', r, calls)
  {
    hide Pass;
    hide VisitedUpTo;
    hide FirstServes;
    hide EndsAt;
    hide Distinct;
    hide MostCalls;
    if names == [] {
      k := 0;
      VisitedNone(cfg, s, names, visits);
    } else {
      k := PassFindsFirst(cfg, s, names, visits, 0, None);
      var (s', r, _) := Pass(cfg, s, names, visits, 0, None);
      EndsEligible(cfg, s, names, visits, k, s', r);
    }
  }

  /**
   A fetch over configured and disabled providers answers with the first of them, in priority
   order, that is enabled, admitted and whose retried fetch succeeds; with the error of the
   last one tried when none does; and says so when none is eligible or none could be tried.
   */
  lemma FetchIsFirstSuccess<T>(cfg: Settings, s: State, ordered: seq<string>, disabled: set<string>,
      visits: seq<Visit<T>>) returns (k: nat)
    requires Distinct(ordered) && |Enabled(ordered, disabled)| <= |visits|
    ensures k <= |Enabled(ordered, disabled)|
    ensures var (s', r, calls) := FetchInOrder(cfg, s, Enabled(ordered, disabled), visits);
            FetchEndsAt(cfg, s, Enabled(ordered, disabled), visits, k, s', r, calls)
    ensures Enabled(ordered, disabled) == [] <==> forall n <- ordered :: n in disabled
    ensures k < |Enabled(ordered, disabled)| ==> FirstInPriority(cfg, s, ordered, disabled, visits, k)
  {
    EnabledDistinct(ordered, disabled);
    NoneEnabled(ordered, disabled);
    hide Enabled;
    hide FetchInOrder;
    hide FirstInPriority;
    hide FirstServes;
    hide VisitedUpTo;
    hide EndsAt;
    hide MostCalls;
    k := FetchFindsFirst(cfg, s, Enabled(ordered, disabled), visits);
    if k < |Enabled(ordered, disabled)| {
      ChosenIsFirst(cfg, s, ordered, disabled, visits, k);
    }
  }

  lemma NoneEnabled(ordered: seq<string>, disabled: set<string>)
    ensures Enabled(ordered, disabled) == [] <==> forall n <- ordered :: n in disabled
  {
    EnabledMembers(ordered, disabled);
    if Enabled(ordered, disabled) != [] {
      assert Enabled(ordered, disabled)[0] in Enabled(ordered, disabled);
    }
  }

  lemma EndsEligible<T>(cfg: Settings, s: State, names: seq<string>, visits: seq<Visit<T>>, k: nat, s': State,
      r: FetchResult<T>)
    requires k <= |names| <= |visits| && EndsAt(cfg, s, names, visits, 0, None, k, s', r)
    ensures !r.NoneEligible?
  {
    hide LastTried;
    hide Attempted;
    hide Fetched;
  }
}
