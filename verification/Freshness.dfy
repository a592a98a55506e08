/** Data freshness per symbol and in aggregate (internal/market/freshness.go). */
module Freshness {
  import opened Basics

  datatype State = Fresh | Delayed | Stale | Unknown

  datatype Config = Config(freshThreshold: int, staleThreshold: int)

  datatype Summary = Summary(total: nat, nFresh: nat, nDelayed: nat, nStale: nat, nUnknown: nat,
      oldestAge: Option<int>, overall: State)

  type Updates = map<string, int>

  function StateOfAge(cfg: Config, age: int): State {
    if age <= cfg.freshThreshold then Fresh
    else if age <= cfg.staleThreshold then Delayed
    else Stale
  }

  function StateFor(cfg: Config, m: Updates, symbol: string, now: int): State {
    if symbol !in m then Unknown else StateOfAge(cfg, now - m[symbol])
  }

  /** What each state means for the age, also when the thresholds are in the wrong order. */
  lemma StateMeans(cfg: Config, m: Updates, symbol: string, now: int)
    ensures StateFor(cfg, m, symbol, now) == Unknown <==> symbol !in m
    ensures StateFor(cfg, m, symbol, now) == Fresh <==> symbol in m && now <= m[symbol] + cfg.freshThreshold
    ensures StateFor(cfg, m, symbol, now) == Stale <==>
              symbol in m && now > m[symbol] + Max(cfg.freshThreshold, cfg.staleThreshold)
  {
  }

  /** Fresh is better than delayed, delayed than stale. */
  function Severity(s: State): nat {
    match s
    case Fresh => 0
    case Delayed => 1
    case Stale => 2
    case Unknown => 3
  }

  /** The symbols in the given state. */
  function InState(cfg: Config, m: Updates, now: int, s: State): set<string> {
    set k | k in m && StateFor(cfg, m, k, now) == s
  }

  /** `s` is the state of some symbol and no symbol is in a worse one. */
  ghost predicate IsWorst(cfg: Config, m: Updates, now: int, s: State) {
    && (exists k :: k in m && StateFor(cfg, m, k, now) == s)
    && (forall k <- m :: Severity(StateFor(cfg, m, k, now)) <= Severity(s))
  }

  /** `age` is the greatest age. */
  ghost predicate IsOldest(m: Updates, now: int, age: int) {
    && (exists k :: k in m && now - m[k] == age)
    && (forall k <- m :: now - m[k] <= age)
  }

  /** Symbols that have been updated are fresh, delayed or stale, and exactly one of these. */
  lemma StatesPartition(cfg: Config, m: Updates, now: int)
    ensures |InState(cfg, m, now, Fresh)| + |InState(cfg, m, now, Delayed)| + |InState(cfg, m, now, Stale)| == |m|
    ensures InState(cfg, m, now, Unknown) == {}
  {
    var f, d, s := InState(cfg, m, now, Fresh), InState(cfg, m, now, Delayed), InState(cfg, m, now, Stale);
    assert f + d + s == m.Keys && f !! d && (f + d) !! s;
    hide InState;
    PartsAddUp(f, d, s);
  }

  lemma PartsAddUp(a: set<string>, b: set<string>, c: set<string>)
    requires a !! b && (a + b) !! c
    ensures |a| + |b| + |c| == |a + b + c|
  {
  }

  class FreshnessTracker {
    const config: Config
    var lastUpdate: Updates

    constructor (config: Config)
      ensures this.config == config && lastUpdate == map[]
    {
      this.config := config;
      lastUpdate := map[];
    }

    method RecordUpdate(symbol: string, timestamp: int)
      modifies this
      ensures lastUpdate == old(lastUpdate)[symbol := timestamp]
    {
      lastUpdate := lastUpdate[symbol := timestamp];
    }

    /** The loop of Summary: the counters and the oldest age. */
    method Tally(now: int) returns (nFresh: int, nDelayed: int, nStale: int, nUnknown: int, oldest: Option<int>)
      ensures Tallied(config, lastUpdate, now, nFresh, nDelayed, nStale) && nUnknown == 0
      ensures Aged(lastUpdate, now, oldest)
    {
      hide InState;
      hide IsOldest;
      hide Tallied;
      hide Aged;
      hide StateOfAge;
      nFresh, nDelayed, nStale, nUnknown, oldest := 0, 0, 0, 0, None;
      var m := lastUpdate;
      var todo := m.Keys;
      ghost var done: Updates := map[];
      TallyStart(config, now);
      while todo != {}
        invariant todo <= m.Keys && Split(m, done, todo)
        invariant Tallied(config, done, now, nFresh, nDelayed, nStale) && nUnknown == 0
        invariant Aged(done, now, oldest)
        decreases todo
      {
        var symbol :| symbol in todo;
        TallyNext(config, done, now, nFresh, nDelayed, nStale, symbol, m[symbol]);
        AgeNext(done, now, oldest, symbol, m[symbol]);
        match StateFor(config, m, symbol, now) {
          case Fresh => nFresh := nFresh + 1;
          case Delayed => nDelayed := nDelayed + 1;
          case Stale => nStale := nStale + 1;
          case Unknown => nUnknown := nUnknown + 1;
        }
        var age := now - m[symbol];
        if oldest.None? || age > oldest.value {
          oldest := Some(age);
        }
        SplitNext(m, done, todo, symbol);
        todo := todo - {symbol};
        done := done[symbol := m[symbol]];
      }
      SplitEnd(m, done);
    }

    method Summarize(now: int) returns (s: Summary)
      ensures s.total == |lastUpdate|
      ensures s.nFresh == |InState(config, lastUpdate, now, Fresh)|
      ensures s.nDelayed == |InState(config, lastUpdate, now, Delayed)|
      ensures s.nStale == |InState(config, lastUpdate, now, Stale)|
      ensures s.nUnknown == 0 && s.nFresh + s.nDelayed + s.nStale == s.total
      ensures s.nFresh == |set k | k in lastUpdate && now <= lastUpdate[k] + config.freshThreshold|
      ensures s.nStale ==
                |set k | k in lastUpdate && now > lastUpdate[k] + Max(config.freshThreshold, config.staleThreshold)|
      ensures lastUpdate == map[] ==> s.oldestAge == None && s.overall == Unknown
      ensures lastUpdate != map[] ==>
                && IsWorst(config, lastUpdate, now, s.overall)
                && s.oldestAge.Some? && IsOldest(lastUpdate, now, s.oldestAge.value)
    {
      hide IsWorst;
      hide IsOldest;
      var nFresh, nDelayed, nStale, nUnknown, oldest := Tally(now);
      var overall :=
        if nStale > 0 then Stale else if nDelayed > 0 then Delayed else if nFresh > 0 then Fresh else Unknown;
      StatesPartition(config, lastUpdate, now);
      WorstByCounts(config, lastUpdate, now, overall);
      CountsByAge(config, lastUpdate, now);
      s := Summary(|lastUpdate|, nFresh, nDelayed, nStale, nUnknown, oldest, overall);
    }

    method ComplianceRatio(now: int) returns (r: real)
      ensures 0.0 <= r <= 1.0
      ensures lastUpdate == map[] ==> r == 1.0
      ensures lastUpdate != map[] ==> r * |lastUpdate| as real == |InState(config, lastUpdate, now, Fresh)| as real
    {
      var s := Summarize(now);
      if s.total == 0 {
        return 1.0;
      }
      Ratio(s.nFresh, s.total);
      r := s.nFresh as real / s.total as real;
    }
  }

  lemma CountsByAge(cfg: Config, m: Updates, now: int)
    ensures InState(cfg, m, now, Fresh) == set k | k in m && now <= m[k] + cfg.freshThreshold
    ensures InState(cfg, m, now, Stale) ==
              set k | k in m && now > m[k] + Max(cfg.freshThreshold, cfg.staleThreshold)
  {
  }

  lemma Ratio(part: nat, whole: nat)
    requires part <= whole && 0 < whole
    ensures var r := part as real / whole as real;
            0.0 <= r <= 1.0 && r * whole as real == part as real
  {
  }

  /** The counters are the numbers of symbols in each state. */
  ghost predicate Tallied(cfg: Config, m: Updates, now: int, nFresh: int, nDelayed: int, nStale: int) {
    && nFresh == |InState(cfg, m, now, Fresh)|
    && nDelayed == |InState(cfg, m, now, Delayed)|
    && nStale == |InState(cfg, m, now, Stale)|
  }

  /** The oldest age so far, none when nothing was looked at. */
  ghost predicate Aged(m: Updates, now: int, oldest: Option<int>) {
    if m == map[] then oldest == None else oldest.Some? && IsOldest(m, now, oldest.value)
  }

  lemma TallyStart(cfg: Config, now: int)
    ensures Tallied(cfg, map[], now, 0, 0, 0) && Aged(map[], now, None)
  {
  }

  /** `done` is the part of the map outside `todo`. */
  ghost predicate Split(m: Updates, done: Updates, todo: set<string>) {
    && (forall k :: k in done <==> k in m && k !in todo)
    && (forall k <- done :: k in m && done[k] == m[k])
  }

  lemma SplitNext(m: Updates, done: Updates, todo: set<string>, symbol: string)
    requires Split(m, done, todo) && symbol in todo && symbol in m
    ensures symbol !in done && Split(m, done[symbol := m[symbol]], todo - {symbol})
  {
  }

  lemma SplitEnd(m: Updates, done: Updates)
    requires Split(m, done, {})
    ensures done == m
  {
  }

  lemma OneMore(cfg: Config, m: Updates, now: int, symbol: string, at: int, s: State)
    requires symbol !in m
    ensures |InState(cfg, m[symbol := at], now, s)| ==
              |InState(cfg, m, now, s)| + if StateOfAge(cfg, now - at) == s then 1 else 0
  {
    assert InState(cfg, m[symbol := at], now, s) ==
             InState(cfg, m, now, s) + if StateOfAge(cfg, now - at) == s then {symbol} else {};
  }

  /** Counting one more symbol. */
  lemma TallyNext(cfg: Config, m: Updates, now: int, nFresh: int, nDelayed: int, nStale: int, symbol: string, at: int)
    requires symbol !in m && Tallied(cfg, m, now, nFresh, nDelayed, nStale)
    ensures StateOfAge(cfg, now - at) != Unknown
    ensures var s := StateOfAge(cfg, now - at);
            Tallied(cfg, m[symbol := at], now,
                    nFresh + (if s == Fresh then 1 else 0),
                    nDelayed + (if s == Delayed then 1 else 0),
                    nStale + (if s == Stale then 1 else 0))
  {
    OneMore(cfg, m, now, symbol, at, Fresh);
    OneMore(cfg, m, now, symbol, at, Delayed);
    OneMore(cfg, m, now, symbol, at, Stale);
  }

  lemma AgeNext(m: Updates, now: int, oldest: Option<int>, symbol: string, at: int)
    requires symbol !in m && Aged(m, now, oldest)
    ensures Aged(m[symbol := at], now, Some(if oldest.None? || now - at > oldest.value then now - at else oldest.value))
  {
    var m' := m[symbol := at];
    assert m'[symbol] == at;
    if oldest.Some? {
      var k :| k in m && now - m[k] == oldest.value;
      assert m'[k] == m[k];
    }
  }

  lemma WorstByCounts(cfg: Config, m: Updates, now: int, s: State)
    requires s == if |InState(cfg, m, now, Stale)| > 0 then Stale
                  else if |InState(cfg, m, now, Delayed)| > 0 then Delayed
                  else if |InState(cfg, m, now, Fresh)| > 0 then Fresh else Unknown
    ensures m != map[] ==> IsWorst(cfg, m, now, s)
    ensures m == map[] ==> s == Unknown
  {
    if m != map[] {
      StatesPartition(cfg, m, now);
      assert InState(cfg, m, now, s) != {};
      var k :| k in InState(cfg, m, now, s);
      forall j <- m ensures Severity(StateFor(cfg, m, j, now)) <= Severity(s) {
        assert j in InState(cfg, m, now, StateFor(cfg, m, j, now));
      }
    }
  }

  lemma NeverImproves(cfg: Config, m: Updates, symbol: string, t: int, t': int)
    requires t <= t'
    ensures Severity(StateFor(cfg, m, symbol, t)) <= Severity(StateFor(cfg, m, symbol, t'))
  {
  }

  /** Without updates the overall state never improves, and no fewer symbols violate the fresh threshold. */
  lemma OverallNeverImproves(cfg: Config, m: Updates, t: int, t': int, s: State, s': State)
    requires t <= t' && IsWorst(cfg, m, t, s) && IsWorst(cfg, m, t', s')
    ensures Severity(s) <= Severity(s')
    ensures InState(cfg, m, t', Fresh) <= InState(cfg, m, t, Fresh)
  {
    var k :| k in m && StateFor(cfg, m, k, t) == s;
    NeverImproves(cfg, m, k, t, t');
  }
}
