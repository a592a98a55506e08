/**
 The ingestion cycle (internal/worker/ingestor.go) over the snapshot table
 (internal/repository/snapshot_repo.go) and the latest-value cache
 (internal/cache/redis.go), and the read path of a single coin
 (internal/api/handlers.go).

 Validation is reduced to its verdict. Numeric text is kept as it is, so the scale of the
 table's NUMERIC columns is not modelled.
 */
module Ingestion {
  import opened Basics
  import opened PriceEvents

  /** Cache entries live for 5 minutes, in nanoseconds. */
  const TTL := 300_000_000_000

  datatype Coin = Coin(id: int, symbol: string, name: string)

  datatype MarketData = MarketData(symbol: string, quote: Quote, valid: bool)

  datatype Snapshot = Snapshot(coinId: int, quote: Quote, capturedAt: int)

  datatype Latest = Latest(symbol: string, name: string, quote: Quote, capturedAt: int)

  datatype Cached = Cached(value: Latest, writtenAt: int)

  /** What becomes of one value: when it is cached, whether that takes effect, and whether its event is published. */
  datatype Write = Write(at: int, takes: bool, publishes: bool)

  /** One cycle: what the coin table and the providers return, and how the stores behave. */
  datatype Cycle = Cycle(coins: Option<seq<Coin>>, fetched: Option<seq<MarketData>>, now: int, inserts: bool,
      writes: seq<Write>, logs: bool)

  datatype Outcome = CoinsFailed | NoCoins | FetchFailed | NoValidData | StoreFailed | Done

  /**
   The snapshot table, the cache, the values published to the stream and the sync log (success
   or failure). `synced` is history: whether the last cache write of the symbol took effect.
   */
  datatype Stores = Stores(db: seq<Snapshot>, cache: map<string, Cached>, stream: seq<Latest>, log: seq<bool>,
      synced: map<string, bool>)

  /** The first coin with the symbol. */
  function FindCoin(coins: seq<Coin>, symbol: string): (c: Option<Coin>)
    ensures c.Some? ==> c.value in coins && c.value.symbol == symbol
    ensures c.None? ==> forall d <- coins :: d.symbol != symbol
  {
    if coins == [] then None
    else if coins[0].symbol == symbol then Some(coins[0])
    else FindCoin(coins[1..], symbol)
  }

  datatype Item = Item(coin: Coin, quote: Quote)

  /** The valid records of known coins, in order. */
  function Matched(coins: seq<Coin>, data: seq<MarketData>): (items: seq<Item>)
    ensures |items| <= |data|
  {
    if data == [] then []
    else
      var init, md := Matched(coins, data[..|data|-1]), data[|data|-1];
      var c := FindCoin(coins, md.symbol);
      if md.valid && c.Some? then init + [Item(c.value, md.quote)] else init
  }

  function Snapshots(items: seq<Item>, now: int): (ss: seq<Snapshot>)
    ensures |ss| == |items|
    ensures forall i | 0 <= i < |items| :: ss[i] == Snapshot(items[i].coin.id, items[i].quote, now)
  {
    seq(|items|, i requires 0 <= i < |items| => Snapshot(items[i].coin.id, items[i].quote, now))
  }

  function LatestOf(item: Item, now: int): Latest {
    Latest(item.coin.symbol, item.coin.name, item.quote, now)
  }

  /** SetLatest and PublishEvent for one value; a failure of either stops nothing. */
  function SetLatest(s: Stores, v: Latest, w: Write): Stores {
    s.(cache := if w.takes then s.cache[v.symbol := Cached(v, w.at)] else s.cache,
       stream := if w.publishes then s.stream + [v] else s.stream,
       synced := s.synced[v.symbol := w.takes])
  }

  /** A sync log entry, if its insert takes effect. */
  function Logged(s: Stores, c: Cycle, success: bool): Stores {
    if c.logs then s.(log := s.log + [success]) else s
  }

  function SetAll(s: Stores, items: seq<Item>, now: int, writes: seq<Write>): Stores
    requires |items| <= |writes|
  {
    if items == [] then s
    else
      var n := |items|;
      SetLatest(SetAll(s, items[..n-1], now, writes), LatestOf(items[n-1], now), writes[n-1])
  }

  /** There is a write for every record that may be stored. */
  predicate Fits(c: Cycle) {
    c.fetched.Some? ==> |c.fetched.value| <= |c.writes|
  }

  function RunCycle(s: Stores, c: Cycle): (Stores, Outcome)
    requires Fits(c)
  {
    if c.coins.None? then (Logged(s, c, false), CoinsFailed)
    else if c.coins.value == [] then (s, NoCoins)
    else if c.fetched.None? then (Logged(s, c, false), FetchFailed)
    else
      var items := Matched(c.coins.value, c.fetched.value);
      if items == [] then (Logged(s, c, false), NoValidData)
      else if !c.inserts then (Logged(s, c, false), StoreFailed)
      else (SetAll(Stored(s, c, items), items, c.now, c.writes), Done)
  }

  /** The batch in the table, and its success in the log. */
  function Stored(s: Stores, c: Cycle, items: seq<Item>): Stores {
    Logged(s.(db := s.db + Snapshots(items, c.now)), c, true)
  }

  const EMPTY := Stores([], map[], [], [], map[])

  class Ingestor {
    var db: seq<Snapshot>
    var cache: map<string, Cached>
    var stream: seq<Latest>
    var log: seq<bool>
    ghost var synced: map<string, bool>

    ghost function Value(): Stores
      reads this
    {
      Stores(db, cache, stream, log, synced)
    }

    constructor ()
      ensures Value() == EMPTY
    {
      db, cache, stream, log, synced := [], map[], [], [], map[];
    }

    method Find(coins: seq<Coin>, symbol: string) returns (c: Option<Coin>)
      ensures c == FindCoin(coins, symbol)
    {
      for i := 0 to |coins|
        invariant FindCoin(coins, symbol) == FindCoin(coins[i..], symbol)
      {
        if coins[i].symbol == symbol {
          return Some(coins[i]);
        }
      }
      return None;
    }

    /** recordSuccess and recordFailure. */
    method Record(c: Cycle, success: bool)
      modifies this`log
      ensures Value() == Logged(old(Value()), c, success)
    {
      if c.logs {
        log := log + [success];
      }
    }

    /** The validation loop. */
    method Match(coins: seq<Coin>, data: seq<MarketData>) returns (items: seq<Item>)
      ensures items == Matched(coins, data)
    {
      items := [];
      for i := 0 to |data|
        invariant items == Matched(coins, data[..i])
      {
        assert data[..i+1][..i] == data[..i];
        var coin := Find(coins, data[i].symbol);
        if data[i].valid && coin.Some? {
          items := items + [Item(coin.value, data[i].quote)];
        }
      }
      assert data[..|data|] == data;
    }

    /** SetLatest and PublishEvent for one value. */
    method Spread(v: Latest, w: Write)
      modifies this`cache, this`stream, this`synced
      ensures Value() == SetLatest(old(Value()), v, w)
    {
      if w.takes {
        cache := cache[v.symbol := Cached(v, w.at)];
      }
      if w.publishes {
        stream := stream + [v];
      }
      synced := synced[v.symbol := w.takes];
    }

    /** The loop over the stored values. */
    method SpreadAll(items: seq<Item>, now: int, writes: seq<Write>)
      requires |items| <= |writes|
      modifies this`cache, this`stream, this`synced
      ensures Value() == SetAll(old(Value()), items, now, writes)
    {
      hide SetLatest;
      for i := 0 to |items|
        invariant Value() == SetAll(old(Value()), items[..i], now, writes)
      {
        assert items[..i+1][..i] == items[..i];
        Spread(LatestOf(items[i], now), writes[i]);
      }
      assert items[..|items|] == items;
    }

    method RunOnce(c: Cycle) returns (r: Outcome)
      requires Fits(c)
      modifies this
      ensures (Value(), r) == old(RunCycle(Value(), c))
    {
      if c.coins.None? {
        Record(c, false);
        return CoinsFailed;
      }
      var coins := c.coins.value;
      if coins == [] {
        return NoCoins;
      }
      if c.fetched.None? {
        Record(c, false);
        return FetchFailed;
      }
      var items := Match(coins, c.fetched.value);
      if items == [] {
        Record(c, false);
        return NoValidData;
      }
      if !c.inserts {
        Record(c, false);
        return StoreFailed;
      }
      db := db + Snapshots(items, c.now);
      Record(c, true);
      SpreadAll(items, c.now, c.writes);
      return Done;
    }
  }

  // ------------------------------------------------------------------
  // The cache agrees with the table.
  // ------------------------------------------------------------------

  /** The coin table: a symbol's id, one symbol per id. */
  type Registry = map<string, int>

  predicate Injective(ids: Registry) {
    forall a, b | a in ids && b in ids && ids[a] == ids[b] :: a == b
  }

  predicate Distinct(data: seq<MarketData>) {
    forall i, j | 0 <= i < j < |data| :: data[i].symbol != data[j].symbol
  }

  /** The cycle reads the coin table as it is, and a response has one record per symbol. */
  predicate Regular(ids: Registry, c: Cycle) {
    && (c.coins.Some? ==> forall coin <- c.coins.value :: coin.symbol in ids && ids[coin.symbol] == coin.id)
    && (c.fetched.Some? ==> Distinct(c.fetched.value))
  }

  /** The last snapshot stored for the coin. */
  function LastOf(db: seq<Snapshot>, coinId: int): Option<Snapshot> {
    if db == [] then None
    else if db[|db|-1].coinId == coinId then Some(db[|db|-1])
    else LastOf(db[..|db|-1], coinId)
  }

  /**
   The cached value of the symbol is a stored snapshot of its coin. It is the last one if and
   only if the last cache write took effect and none is still to come.
   */
  ghost predicate AgreesOn(ids: Registry, s: Stores, symbol: string, awaited: bool) {
    symbol in s.cache ==>
      && symbol in ids && symbol in s.synced
      && var v := s.cache[symbol].value;
         var snapshot := Snapshot(ids[symbol], v.quote, v.capturedAt);
         && v.symbol == symbol
         && snapshot in s.db
         && (LastOf(s.db, ids[symbol]) == Some(snapshot) <==> s.synced[symbol] && !awaited)
  }

  lemma {:induction false} LastOfAppend(db: seq<Snapshot>, more: seq<Snapshot>, id: int)
    ensures LastOf(db + more, id) == if LastOf(more, id).Some? then LastOf(more, id) else LastOf(db, id)
  {
    if more == [] {
      assert db + more == db;
    } else {
      assert (db + more)[..|db + more|-1] == db + more[..|more|-1];
      LastOfAppend(db, more[..|more|-1], id);
    }
  }

  predicate DistinctItems(items: seq<Item>) {
    forall i, j | 0 <= i < j < |items| :: items[i].coin.symbol != items[j].coin.symbol
  }

  /** The item holds the quote of a valid record under a coin of its symbol. */
  predicate StemsFrom(item: Item, md: MarketData) {
    md.valid && md.symbol == item.coin.symbol && md.quote == item.quote
  }

  /** Nothing is stored but valid records, each under a coin of the table. */
  lemma {:induction false} MatchedOnlyValid(coins: seq<Coin>, data: seq<MarketData>, item: Item)
    requires item in Matched(coins, data)
    ensures item.coin in coins && exists md <- data :: StemsFrom(item, md)
  {
    var init, last := data[..|data|-1], data[|data|-1];
    assert data == init + [last];
    if item in Matched(coins, init) {
      MatchedOnlyValid(coins, init, item);
      var md :| md in init && StemsFrom(item, md);
      assert md in data;
    } else {
      assert last in data && StemsFrom(item, last);
    }
  }

  /** Every valid record of a known coin is stored. */
  lemma {:induction false} MatchedMissesNone(coins: seq<Coin>, data: seq<MarketData>, md: MarketData)
    requires md in data && md.valid && exists coin <- coins :: coin.symbol == md.symbol
    ensures exists item <- Matched(coins, data) :: StemsFrom(item, md)
  {
    var init, last := data[..|data|-1], data[|data|-1];
    assert data == init + [last];
    var items := Matched(coins, data);
    if md == last {
      assert items[|items|-1] in items && StemsFrom(items[|items|-1], md);
    } else {
      MatchedMissesNone(coins, init, md);
      var item :| item in Matched(coins, init) && StemsFrom(item, md);
      assert item in items;
    }
  }

  /** With one record per symbol, one item per coin. */
  lemma {:induction false} MatchedDistinct(coins: seq<Coin>, data: seq<MarketData>)
    requires Distinct(data)
    ensures DistinctItems(Matched(coins, data))
  {
    if data != [] {
      var init, last := data[..|data|-1], data[|data|-1];
      MatchedDistinct(coins, init);
      forall item <- Matched(coins, init) ensures item.coin.symbol != last.symbol {
        MatchedOnlyValid(coins, init, item);
        var j :| 0 <= j < |init| && StemsFrom(item, init[j]);
        assert data[j] == init[j];
      }
    }
  }

  lemma MatchedItems(ids: Registry, coins: seq<Coin>, data: seq<MarketData>)
    requires Distinct(data)
    requires forall coin <- coins :: coin.symbol in ids && ids[coin.symbol] == coin.id
    ensures var items := Matched(coins, data);
            && DistinctItems(items)
            && forall i | 0 <= i < |items| ::
                items[i].coin.symbol in ids && ids[items[i].coin.symbol] == items[i].coin.id
  {
    hide Matched;
    var items := Matched(coins, data);
    MatchedDistinct(coins, data);
    forall i | 0 <= i < |items| ensures items[i].coin in coins {
      MatchedOnlyValid(coins, data, items[i]);
    }
  }

  /** The batch stores exactly one snapshot for the coin of an item, none for others. */
  lemma {:induction false} LastOfBatch(ids: Registry, items: seq<Item>, now: int, symbol: string)
    requires Injective(ids) && DistinctItems(items) && symbol in ids
    requires forall i | 0 <= i < |items| :: items[i].coin.symbol in ids && ids[items[i].coin.symbol] == items[i].coin.id
    ensures (forall i | 0 <= i < |items| :: items[i].coin.symbol != symbol) ==>
              LastOf(Snapshots(items, now), ids[symbol]) == None
    ensures forall i | 0 <= i < |items| && items[i].coin.symbol == symbol ::
              LastOf(Snapshots(items, now), ids[symbol]) == Some(Snapshot(ids[symbol], items[i].quote, now))
  {
    if items != [] {
      var init := items[..|items|-1];
      LastOfBatch(ids, init, now, symbol);
      assert Snapshots(items, now)[..|items|-1] == Snapshots(init, now);
      assert forall i | 0 <= i < |init| :: items[i] == init[i];
    }
  }

  /** What the cache and the history say about one symbol. */
  function About(s: Stores, symbol: string): (Option<Cached>, Option<bool>) {
    (if symbol in s.cache then Some(s.cache[symbol]) else None,
     if symbol in s.synced then Some(s.synced[symbol]) else None)
  }

  lemma {:induction false} SetAllMisses(s: Stores, items: seq<Item>, now: int, writes: seq<Write>, symbol: string)
    requires |items| <= |writes| && forall i | 0 <= i < |items| :: items[i].coin.symbol != symbol
    ensures About(SetAll(s, items, now, writes), symbol) == About(s, symbol)
  {
    if items != [] {
      SetAllMisses(s, items[..|items|-1], now, writes, symbol);
    }
  }

  lemma {:induction false} SetAllHits(s: Stores, items: seq<Item>, now: int, writes: seq<Write>, i: nat)
    requires i < |items| <= |writes| && DistinctItems(items)
    ensures About(SetAll(s, items, now, writes), items[i].coin.symbol) ==
              (if writes[i].takes then Some(Cached(LatestOf(items[i], now), writes[i].at))
               else About(s, items[i].coin.symbol).0,
               Some(writes[i].takes))
  {
    var n := |items| - 1;
    if i < n {
      SetAllHits(s, items[..n], now, writes, i);
      assert items[n].coin.symbol != items[i].coin.symbol;
    } else {
      SetAllMisses(s, items[..n], now, writes, items[i].coin.symbol);
    }
  }

  lemma {:induction false} SetAllKeepsTable(s: Stores, items: seq<Item>, now: int, writes: seq<Write>)
    requires |items| <= |writes|
    ensures SetAll(s, items, now, writes).db == s.db
  {
    if items != [] {
      SetAllKeepsTable(s, items[..|items|-1], now, writes);
    }
  }

  /** What the writes of a batch leave of one symbol. */
  lemma SetAllFor(s: Stores, items: seq<Item>, now: int, writes: seq<Write>, symbol: string)
    requires |items| <= |writes| && DistinctItems(items)
    ensures SetAll(s, items, now, writes).db == s.db
    ensures (forall i | 0 <= i < |items| :: items[i].coin.symbol != symbol) ==>
              About(SetAll(s, items, now, writes), symbol) == About(s, symbol)
    ensures forall i | 0 <= i < |items| && items[i].coin.symbol == symbol ::
              About(SetAll(s, items, now, writes), symbol) ==
                (if writes[i].takes then Some(Cached(LatestOf(items[i], now), writes[i].at)) else About(s, symbol).0,
                 Some(writes[i].takes))
  {
    hide SetAll;
    hide About;
    SetAllKeepsTable(s, items, now, writes);
    if forall i | 0 <= i < |items| :: items[i].coin.symbol != symbol {
      SetAllMisses(s, items, now, writes, symbol);
    }
    forall i | 0 <= i < |items| && items[i].coin.symbol == symbol
      ensures About(SetAll(s, items, now, writes), symbol) ==
                (if writes[i].takes then Some(Cached(LatestOf(items[i], now), writes[i].at)) else About(s, symbol).0,
                 Some(writes[i].takes))
    {
      SetAllHits(s, items, now, writes, i);
    }
  }

  /** A value of the symbol is among the items. */
  predicate Holds(items: seq<Item>, symbol: string) {
    exists i | 0 <= i < |items| :: items[i].coin.symbol == symbol
  }

  /** The stores in the middle of a cycle: the batch is in, and `k` of its values have been written out. */
  function Moment(s: Stores, c: Cycle, k: nat): Stores
    requires Fits(c)
  {
    if RunCycle(s, c).1 == Done then
      var items := Matched(c.coins.value, c.fetched.value);
      SetAll(Stored(s, c, items), items[..Min(k, |items|)], c.now, c.writes)
    else RunCycle(s, c).0
  }

  /** The values still to be written out at that moment. */
  function ToCome(s: Stores, c: Cycle, k: nat): seq<Item>
    requires Fits(c)
  {
    if RunCycle(s, c).1 == Done then
      var items := Matched(c.coins.value, c.fetched.value);
      items[Min(k, |items|)..]
    else []
  }

  /** The last moment is the end of the cycle. */
  lemma MomentEnds(s: Stores, c: Cycle)
    requires Fits(c)
    ensures var k := if c.fetched.Some? then |c.fetched.value| else 0;
            Moment(s, c, k) == RunCycle(s, c).0 && ToCome(s, c, k) == []
  {
    if RunCycle(s, c).1 == Done {
      var items := Matched(c.coins.value, c.fetched.value);
      assert items[..|items|] == items;
    }
  }

  /** A cycle keeps the agreement at every moment. */
  lemma CycleAgrees(ids: Registry, s: Stores, c: Cycle, k: nat, symbol: string)
    requires Injective(ids) && Fits(c) && Regular(ids, c) && AgreesOn(ids, s, symbol, false)
    requires forall t <- s.db :: t.capturedAt < c.now
    ensures AgreesOn(ids, Moment(s, c, k), symbol, Holds(ToCome(s, c, k), symbol))
  {
    hide AgreesOn;
    hide SetAll;
    if RunCycle(s, c).1 == Done {
      var items := Matched(c.coins.value, c.fetched.value);
      MatchedItems(ids, c.coins.value, c.fetched.value);
      BatchAgrees(ids, s, c, items, Min(k, |items|), symbol);
    } else {
      LoggedAgrees(ids, s, c, symbol);
    }
  }

  lemma LoggedAgrees(ids: Registry, s: Stores, c: Cycle, symbol: string)
    requires AgreesOn(ids, s, symbol, false)
    ensures AgreesOn(ids, Logged(s, c, false), symbol, false)
  {
  }

  lemma {:induction false} BatchAgrees(ids: Registry, s: Stores, c: Cycle, items: seq<Item>, k: nat, symbol: string)
    requires Injective(ids) && k <= |items| <= |c.writes| && DistinctItems(items) && AgreesOn(ids, s, symbol, false)
    requires forall t <- s.db :: t.capturedAt < c.now
    requires forall i | 0 <= i < |items| :: items[i].coin.symbol in ids && ids[items[i].coin.symbol] == items[i].coin.id
    ensures AgreesOn(ids, SetAll(Stored(s, c, items), items[..k], c.now, c.writes), symbol, Holds(items[k..], symbol))
  {
    hide SetAll;
    hide LastOf;
    var more, s1 := Snapshots(items, c.now), Stored(s, c, items);
    var s' := SetAll(s1, items[..k], c.now, c.writes);
    SetAllKeepsTable(s1, items[..k], c.now, c.writes);
    if i :| 0 <= i < |items| && items[i].coin.symbol == symbol {
      LastOfAppend(s.db, more, ids[symbol]);
      LastOfBatch(ids, items, c.now, symbol);
      assert s1.db[|s.db| + i] == more[i];
      if i < k {
        assert items[..k][i] == items[i];
        SetAllHits(s1, items[..k], c.now, c.writes, i);
      } else {
        assert items[k..][i - k] == items[i];
        SetAllMisses(s1, items[..k], c.now, c.writes, symbol);
      }
      NewerThanCached(ids, s, symbol, more[i]);
    } else {
      SetAllMisses(s1, items[..k], c.now, c.writes, symbol);
      if symbol in ids {
        LastOfAppend(s.db, more, ids[symbol]);
        LastOfBatch(ids, items, c.now, symbol);
      }
    }
  }

  /** A snapshot of a later time is not the cached one. */
  lemma NewerThanCached(ids: Registry, s: Stores, symbol: string, t: Snapshot)
    requires AgreesOn(ids, s, symbol, false) && forall u <- s.db :: u.capturedAt < t.capturedAt
    ensures symbol in s.cache ==> s.cache[symbol].value.capturedAt < t.capturedAt
  {
  }

  // ------------------------------------------------------------------
  // Whole runs.
  // ------------------------------------------------------------------

  /** Cycles do not overlap, and each is later than the ones before it. */
  predicate Regulars(ids: Registry, cycles: seq<Cycle>) {
    && (forall k | 0 <= k < |cycles| :: Fits(cycles[k]) && Regular(ids, cycles[k]))
    && (forall j, k | 0 <= j < k < |cycles| :: cycles[j].now < cycles[k].now)
  }

  function RunAll(ids: Registry, cycles: seq<Cycle>): Stores
    requires Regulars(ids, cycles)
  {
    if cycles == [] then EMPTY else RunCycle(RunAll(ids, cycles[..|cycles|-1]), cycles[|cycles|-1]).0
  }

  /** The run so far and the cycle under way. */
  predicate UnderWay(ids: Registry, cycles: seq<Cycle>, c: Cycle) {
    Regulars(ids, cycles) && Fits(c) && Regular(ids, c) && forall k | 0 <= k < |cycles| :: cycles[k].now < c.now
  }

  lemma LastUnderWay(ids: Registry, cycles: seq<Cycle>)
    requires Regulars(ids, cycles) && cycles != []
    ensures UnderWay(ids, cycles[..|cycles|-1], cycles[|cycles|-1])
  {
  }

  /** Everything stored before the cycle under way is older than it. */
  lemma StoredBefore(ids: Registry, cycles: seq<Cycle>, c: Cycle)
    requires Injective(ids) && UnderWay(ids, cycles, c)
    ensures Dated(RunAll(ids, cycles).db, c.now - 1)
    ensures forall t <- RunAll(ids, cycles).db :: t.capturedAt < c.now
  {
    DatedRun(ids, cycles, c.now - 1);
  }

  lemma {:induction false} CacheAgrees(ids: Registry, cycles: seq<Cycle>, symbol: string)
    requires Injective(ids) && Regulars(ids, cycles)
    ensures AgreesOn(ids, RunAll(ids, cycles), symbol, false)
  {
    hide AgreesOn;
    hide Moment;
    hide ToCome;
    hide RunCycle;
    if cycles == [] {
      NothingCached(ids, symbol);
    } else {
      var init, last := cycles[..|cycles|-1], cycles[|cycles|-1];
      LastUnderWay(ids, cycles);
      CacheAgrees(ids, init, symbol);
      StoredBefore(ids, init, last);
      MomentEnds(RunAll(ids, init), last);
      CycleAgrees(ids, RunAll(ids, init), last, if last.fetched.Some? then |last.fetched.value| else 0, symbol);
    }
  }

  lemma NothingCached(ids: Registry, symbol: string)
    ensures AgreesOn(ids, EMPTY, symbol, false)
  {
  }

  /** Over all runs and at every moment of the cycle under way. */
  lemma CacheAgreesAlways(ids: Registry, cycles: seq<Cycle>, c: Cycle, k: nat, symbol: string)
    requires Injective(ids) && UnderWay(ids, cycles, c)
    ensures var s := RunAll(ids, cycles);
            AgreesOn(ids, Moment(s, c, k), symbol, Holds(ToCome(s, c, k), symbol))
  {
    hide AgreesOn;
    hide Moment;
    hide ToCome;
    CacheAgrees(ids, cycles, symbol);
    StoredBefore(ids, cycles, c);
    CycleAgrees(ids, RunAll(ids, cycles), c, k, symbol);
  }

  /** ORDER BY captured_at DESC LIMIT 1: a snapshot of the coin that none is newer than. */
  ghost predicate IsNewest(db: seq<Snapshot>, s: Snapshot) {
    s in db && forall t | t in db && t.coinId == s.coinId :: t.capturedAt <= s.capturedAt
  }

  /** All snapshots are from cycles up to `now`, and those of one coin are all of different times. */
  ghost predicate Dated(db: seq<Snapshot>, now: int) {
    && (forall i | 0 <= i < |db| :: db[i].capturedAt <= now)
    && (forall i, j | 0 <= i < j < |db| && db[i].coinId == db[j].coinId :: db[i].capturedAt < db[j].capturedAt)
  }

  lemma DatedCycle(ids: Registry, s: Stores, c: Cycle, before: int)
    requires Injective(ids) && Fits(c) && Regular(ids, c) && Dated(s.db, before) && before < c.now
    ensures Dated(RunCycle(s, c).0.db, c.now)
  {
    if RunCycle(s, c).1 == Done {
      var items := Matched(c.coins.value, c.fetched.value);
      MatchedItems(ids, c.coins.value, c.fetched.value);
      SetAllFor(Stored(s, c, items), items, c.now, c.writes, "");
      DatedAppend(ids, s.db, items, before, c.now);
    }
  }

  lemma DatedAppend(ids: Registry, db: seq<Snapshot>, items: seq<Item>, before: int, now: int)
    requires Injective(ids) && DistinctItems(items) && Dated(db, before) && before < now
    requires forall i | 0 <= i < |items| :: items[i].coin.symbol in ids && ids[items[i].coin.symbol] == items[i].coin.id
    ensures Dated(db + Snapshots(items, now), now)
  {
    var more := Snapshots(items, now);
    var all := db + more;
    forall i, j | 0 <= i < j < |all| && all[i].coinId == all[j].coinId ensures all[i].capturedAt < all[j].capturedAt {
      if i < |db| <= j {
        assert all[i] == db[i] && all[j] == more[j - |db|];
      }
    }
  }

  lemma {:induction false} DatedRun(ids: Registry, cycles: seq<Cycle>, now: int)
    requires Injective(ids) && Regulars(ids, cycles)
    requires cycles != [] ==> cycles[|cycles|-1].now <= now
    ensures Dated(RunAll(ids, cycles).db, now)
  {
    if cycles != [] {
      var init, last := cycles[..|cycles|-1], cycles[|cycles|-1];
      DatedRun(ids, init, last.now - 1);
      DatedCycle(ids, RunAll(ids, init), last, last.now - 1);
    }
  }

  lemma DatedBefore(db: seq<Snapshot>, last: Snapshot, now: int)
    requires Dated(db + [last], now)
    ensures Dated(db, now) && forall t | t in db && t.coinId == last.coinId :: t.capturedAt < last.capturedAt
  {
    var all := db + [last];
    assert forall i | 0 <= i < |db| :: all[i] == db[i];
    forall t | t in db && t.coinId == last.coinId ensures t.capturedAt < last.capturedAt {
      var i :| 0 <= i < |db| && db[i] == t;
      assert all[i] == t && all[|db|] == last;
    }
  }

  lemma LastOfOne(db: seq<Snapshot>, last: Snapshot, coinId: int)
    ensures LastOf(db + [last], coinId) == if last.coinId == coinId then Some(last) else LastOf(db, coinId)
  {
    assert (db + [last])[..|db|] == db;
  }

  /** With increasing times the last snapshot of a coin is its one newest. */
  lemma {:induction false} LastIsNewest(db: seq<Snapshot>, coinId: int, now: int)
    requires Dated(db, now)
    ensures LastOf(db, coinId).Some? ==>
              IsNewest(db, LastOf(db, coinId).value) && LastOf(db, coinId).value.coinId == coinId
    ensures LastOf(db, coinId).None? ==> forall t <- db :: t.coinId != coinId
  {
    if db != [] {
      hide Dated;
      hide LastOf;
      var init, last := db[..|db|-1], db[|db|-1];
      assert db == init + [last];
      DatedBefore(init, last, now);
      LastOfOne(init, last, coinId);
      LastIsNewest(init, coinId, now);
    }
  }

  // ------------------------------------------------------------------
  // What is published was stored first.
  // ------------------------------------------------------------------

  /** Every published value is a stored snapshot of its coin. */
  ghost predicate PublishedStored(ids: Registry, s: Stores) {
    forall v <- s.stream :: v.symbol in ids && Snapshot(ids[v.symbol], v.quote, v.capturedAt) in s.db
  }

  lemma {:induction false} SetAllStream(s: Stores, items: seq<Item>, now: int, writes: seq<Write>, v: Latest)
    requires |items| <= |writes| && v in SetAll(s, items, now, writes).stream
    ensures v in s.stream || exists i | 0 <= i < |items| :: v == LatestOf(items[i], now)
  {
    if items != [] {
      var init := items[..|items|-1];
      if v in SetAll(s, init, now, writes).stream {
        SetAllStream(s, init, now, writes, v);
        if i :| 0 <= i < |init| && v == LatestOf(init[i], now) {
          assert items[i] == init[i];
        }
      } else {
        assert v == LatestOf(items[|items|-1], now);
      }
    }
  }

  lemma CyclePublishes(ids: Registry, s: Stores, c: Cycle)
    requires Injective(ids) && Fits(c) && Regular(ids, c) && PublishedStored(ids, s)
    ensures PublishedStored(ids, RunCycle(s, c).0)
  {
    if RunCycle(s, c).1 == Done {
      MatchedItems(ids, c.coins.value, c.fetched.value);
      BatchPublishes(ids, s, c, Matched(c.coins.value, c.fetched.value));
    }
  }

  lemma {:induction false} BatchPublishes(ids: Registry, s: Stores, c: Cycle, items: seq<Item>)
    requires |items| <= |c.writes| && DistinctItems(items) && PublishedStored(ids, s)
    requires forall i | 0 <= i < |items| ::
               items[i].coin.symbol in ids && ids[items[i].coin.symbol] == items[i].coin.id
    ensures PublishedStored(ids, SetAll(Stored(s, c, items), items, c.now, c.writes))
  {
    hide SetAll;
    var s1, more := Stored(s, c, items), Snapshots(items, c.now);
    SetAllFor(s1, items, c.now, c.writes, "");
    forall v | v in SetAll(s1, items, c.now, c.writes).stream
      ensures v.symbol in ids && Snapshot(ids[v.symbol], v.quote, v.capturedAt) in s1.db
    {
      SetAllStream(s1, items, c.now, c.writes, v);
      if v !in s.stream {
        var k :| 0 <= k < |items| && v == LatestOf(items[k], c.now);
        assert s1.db[|s.db| + k] == more[k];
      }
    }
  }

  /** Over all runs, whatever fails in them, an event on the stream tells of a snapshot in the table. */
  lemma {:induction false} PublishedIsStored(ids: Registry, cycles: seq<Cycle>)
    requires Injective(ids) && Regulars(ids, cycles)
    ensures PublishedStored(ids, RunAll(ids, cycles))
  {
    if cycles != [] {
      var init := cycles[..|cycles|-1];
      PublishedIsStored(ids, init);
      CyclePublishes(ids, RunAll(ids, init), cycles[|cycles|-1]);
    }
  }

  // ------------------------------------------------------------------
  // What a cycle stores, publishes and logs.
  // ------------------------------------------------------------------

  /** Records are matched one by one, in the order of the response. */
  lemma {:induction false} MatchedInOrder(coins: seq<Coin>, data: seq<MarketData>, more: seq<MarketData>)
    ensures Matched(coins, data + more) == Matched(coins, data) + Matched(coins, more)
  {
    if more == [] {
      assert data + more == data;
    } else {
      var n := |more| - 1;
      assert (data + more)[..|data + more|-1] == data + more[..n];
      MatchedInOrder(coins, data, more[..n]);
    }
  }

  /** Of several coins with the symbol the first is taken. */
  lemma {:induction false} FindsFirst(coins: seq<Coin>, i: nat, symbol: string)
    requires i < |coins| && coins[i].symbol == symbol && forall j | 0 <= j < i :: coins[j].symbol != symbol
    ensures FindCoin(coins, symbol) == Some(coins[i])
  {
    if i > 0 {
      FindsFirst(coins[1..], i - 1, symbol);
    }
  }

  /** The record is valid and its coin is known. */
  ghost predicate Usable(coins: seq<Coin>, md: MarketData) {
    md.valid && exists coin <- coins :: coin.symbol == md.symbol
  }

  /** The cycle gets coins, a usable record and a table that takes it. */
  ghost predicate Succeeds(c: Cycle) {
    && c.coins.Some? && c.fetched.Some? && c.inserts
    && exists md <- c.fetched.value :: Usable(c.coins.value, md)
  }

  lemma MatchedSome(coins: seq<Coin>, data: seq<MarketData>)
    ensures Matched(coins, data) != [] <==> exists md <- data :: Usable(coins, md)
  {
    var items := Matched(coins, data);
    if items != [] {
      assert items[0] in items;
      MatchedOnlyValid(coins, data, items[0]);
      var md :| md in data && StemsFrom(items[0], md);
      assert items[0].coin.symbol == md.symbol;
      assert Usable(coins, md);
    } else if md :| md in data && Usable(coins, md) {
      MatchedMissesNone(coins, data, md);
    }
  }

  /** The values that go out for the items, in order: one for each item whose write publishes. */
  function Published(items: seq<Item>, now: int, writes: seq<Write>): seq<Latest>
    requires |items| <= |writes|
  {
    if items == [] then []
    else
      var item := items[0];
      (if writes[0].publishes then [Latest(item.coin.symbol, item.coin.name, item.quote, now)] else []) +
      Published(items[1..], now, writes[1..])
  }

  lemma {:induction false} PublishedLast(items: seq<Item>, now: int, writes: seq<Write>)
    requires 0 < |items| <= |writes|
    ensures var n := |items| - 1;
            Published(items, now, writes) == Published(items[..n], now, writes) +
              if writes[n].publishes then [LatestOf(items[n], now)] else []
  {
    var n := |items| - 1;
    if n == 0 {
      assert Published(items[1..], now, writes[1..]) == [] && items[..0] == [];
    } else {
      PublishedLast(items[1..], now, writes[1..]);
      assert items[1..][..n-1] == items[..n][1..];
    }
  }

  lemma {:induction false} SetAllPublishes(s: Stores, items: seq<Item>, now: int, writes: seq<Write>)
    requires |items| <= |writes|
    ensures SetAll(s, items, now, writes).stream == s.stream + Published(items, now, writes)
    ensures SetAll(s, items, now, writes).log == s.log
  {
    if items != [] {
      var n := |items| - 1;
      SetAllPublishes(s, items[..n], now, writes);
      PublishedLast(items, now, writes);
      hide Published;
    }
  }

  /** What goes into the table, out to the stream and into the log in one cycle. */
  function Rows(c: Cycle): seq<Snapshot> {
    if c.coins.Some? && c.fetched.Some? && c.inserts
    then Snapshots(Matched(c.coins.value, c.fetched.value), c.now)
    else []
  }

  function Events(c: Cycle): seq<Latest>
    requires Fits(c)
  {
    if c.coins.Some? && c.fetched.Some? && c.inserts
    then Published(Matched(c.coins.value, c.fetched.value), c.now, c.writes)
    else []
  }

  ghost function Entries(c: Cycle): seq<bool> {
    if c.logs && c.coins != Some([]) then [Succeeds(c)] else []
  }

  lemma {:induction false} NoneMatched(data: seq<MarketData>)
    ensures Matched([], data) == []
  {
    if data != [] {
      NoneMatched(data[..|data|-1]);
    }
  }

  /**
   A cycle is done if and only if it gets coins, a usable record and a table that takes it. Then,
   and only then, one row and, where the write publishes, one event goes out per matched record,
   in order, whether or not the cache write took. The log gets the outcome, unless there are no
   coins.
   */
  lemma CycleRecords(s: Stores, c: Cycle)
    requires Fits(c)
    ensures var (s', r) := RunCycle(s, c);
            && (r == Done <==> Succeeds(c)) && (r == NoCoins <==> c.coins == Some([]))
            && (r == CoinsFailed <==> c.coins.None?)
            && (r == FetchFailed <==> c.coins.Some? && c.coins.value != [] && c.fetched.None?)
            && (r == StoreFailed <==> !Succeeds(c) && Succeeds(c.(inserts := true)) && c.coins != Some([]))
            && s'.db == s.db + Rows(c) && s'.stream == s.stream + Events(c) && s'.log == s.log + Entries(c)
  {
    hide Matched;
    hide SetAll;
    hide Usable;
    if c.coins.Some? && c.fetched.Some? {
      var coins, data := c.coins.value, c.fetched.value;
      MatchedSome(coins, data);
      if coins == [] {
        NoneMatched(data);
      }
      var items := Matched(coins, data);
      if RunCycle(s, c).1 == Done {
        SetAllPublishes(Stored(s, c, items), items, c.now, c.writes);
        SetAllKeepsTable(Stored(s, c, items), items, c.now, c.writes);
      }
    }
  }

  /** All rows, events and log entries of the cycles, in order. */
  function AllRows(cycles: seq<Cycle>): seq<Snapshot> {
    if cycles == [] then [] else AllRows(cycles[..|cycles|-1]) + Rows(cycles[|cycles|-1])
  }

  function AllEvents(cycles: seq<Cycle>): seq<Latest>
    requires forall c <- cycles :: Fits(c)
  {
    if cycles == [] then [] else AllEvents(cycles[..|cycles|-1]) + Events(cycles[|cycles|-1])
  }

  ghost function AllEntries(cycles: seq<Cycle>): seq<bool> {
    if cycles == [] then [] else AllEntries(cycles[..|cycles|-1]) + Entries(cycles[|cycles|-1])
  }

  /** Over every run the table, the stream and the log are what the cycles stored, published and logged, in order. */
  lemma {:induction false} RunRecords(ids: Registry, cycles: seq<Cycle>)
    requires Regulars(ids, cycles)
    ensures var s := RunAll(ids, cycles);
            (forall c <- cycles :: Fits(c)) &&
            s.db == AllRows(cycles) && s.stream == AllEvents(cycles) && s.log == AllEntries(cycles)
  {
    if cycles != [] {
      var init, last := cycles[..|cycles|-1], cycles[|cycles|-1];
      hide Rows;
      hide Events;
      hide Entries;
      hide RunCycle;
      RunRecords(ids, init);
      CycleRecords(RunAll(ids, init), last);
    }
  }

  // ------------------------------------------------------------------
  // What the API serves.
  // ------------------------------------------------------------------

  datatype Answer = Found(snapshot: Snapshot) | Empty | Failed

  predicate Live(s: Stores, symbol: string, now: int) {
    symbol in s.cache && now - s.cache[symbol].writtenAt < TTL
  }

  /** The read path: the cached value if it lives and can be read, otherwise the newest row of the table. */
  ghost predicate Serves(s: Stores, coin: Coin, now: int, cacheReads: bool, tableReads: bool, answer: Answer) {
    if cacheReads && Live(s, coin.symbol, now) then
      var v := s.cache[coin.symbol].value;
      answer == Found(Snapshot(coin.id, v.quote, v.capturedAt))
    else if !tableReads then answer == Failed
    else match answer
         case Found(snapshot) => snapshot.coinId == coin.id && IsNewest(s.db, snapshot)
         case Empty => forall t <- s.db :: t.coinId != coin.id
         case Failed => false
  }

  /** The table at a moment of a cycle is the one at its end. */
  lemma MomentDated(ids: Registry, s: Stores, c: Cycle, k: nat)
    requires Injective(ids) && Fits(c) && Regular(ids, c) && Dated(s.db, c.now - 1)
    ensures Dated(Moment(s, c, k).db, c.now)
  {
    DatedCycle(ids, s, c, c.now - 1);
    if RunCycle(s, c).1 == Done {
      var items := Matched(c.coins.value, c.fetched.value);
      SetAllKeepsTable(Stored(s, c, items), items[..Min(k, |items|)], c.now, c.writes);
      SetAllKeepsTable(Stored(s, c, items), items, c.now, c.writes);
    }
  }

  /** With increasing times the newest snapshot of a coin is the last. */
  lemma NewestIsLast(db: seq<Snapshot>, x: Snapshot, now: int)
    requires Dated(db, now) && IsNewest(db, x)
    ensures LastOf(db, x.coinId) == Some(x)
  {
    hide LastOf;
    LastIsNewest(db, x.coinId, now);
    var y := LastOf(db, x.coinId).value;
    var i :| 0 <= i < |db| && db[i] == x;
    var j :| 0 <= j < |db| && db[j] == y;
  }

  /**
   At every moment of every run of regular cycles, whatever inserts and cache writes failed, the
   API answers with a stored snapshot of the coin whenever it has one and can read it. The answer
   is the newest if and only if it comes from the table, or the symbol's last cache write took
   effect and none is still to come in the cycle under way. Else it was cached less than five
   minutes ago.
   */
  lemma ServedFromTable(ids: Registry, cycles: seq<Cycle>, c: Cycle, k: nat, coin: Coin, now: int,
      cacheReads: bool, tableReads: bool, answer: Answer)
    requires Injective(ids) && UnderWay(ids, cycles, c)
    requires coin.symbol in ids && ids[coin.symbol] == coin.id
    requires Serves(Moment(RunAll(ids, cycles), c, k), coin, now, cacheReads, tableReads, answer)
    ensures var s := Moment(RunAll(ids, cycles), c, k);
            var fromCache := cacheReads && coin.symbol in s.cache
                             && now < s.cache[coin.symbol].writtenAt + 300_000_000_000;
            && (answer.Failed? <==> !tableReads && !fromCache)
            && (answer.Empty? ==> forall t <- s.db :: t.coinId != coin.id)
            && (answer.Found? ==>
                  && answer.snapshot in s.db && answer.snapshot.coinId == coin.id
                  && (IsNewest(s.db, answer.snapshot) <==>
                        (fromCache ==>
                           && About(s, coin.symbol).1 == Some(true)
                           && !Holds(ToCome(RunAll(ids, cycles), c, k), coin.symbol))))
  {
    hide Moment;
    hide ToCome;
    hide RunAll;
    hide LastOf;
    var s := Moment(RunAll(ids, cycles), c, k);
    CacheAgreesAlways(ids, cycles, c, k, coin.symbol);
    StoredBefore(ids, cycles, c);
    MomentDated(ids, RunAll(ids, cycles), c, k);
    LastIsNewest(s.db, coin.id, c.now);
    if answer.Found? && IsNewest(s.db, answer.snapshot) {
      assert answer.snapshot.coinId == coin.id;
      NewestIsLast(s.db, answer.snapshot, c.now);
    }
  }

  /** A cycle that fetches and stores one quote, with a cache write that takes effect at once. */
  function CycleOf(coin: Coin, quote: Quote, now: int): Cycle {
    Cycle(Some([coin]), Some([MarketData(coin.symbol, quote, true)]), now, true, [Write(now, true, true)], true)
  }

  /** Every cache write of the cycle takes effect. */
  predicate AllTake(c: Cycle) {
    forall w <- c.writes :: w.takes
  }

  lemma OneCycleRun(coin: Coin, old_: Quote, new_: Quote)
    ensures var ids, first, c := map[coin.symbol := coin.id], CycleOf(coin, old_, 0), CycleOf(coin, new_, 1);
            && UnderWay(ids, [first], c) && AllTake(first) && AllTake(c)
            && RunAll(ids, [first]) == RunCycle(EMPTY, first).0
  {
    hide RunCycle;
    var ids: Registry := map[coin.symbol := coin.id];
    var first := CycleOf(coin, old_, 0);
    assert [first][..0] == [] && RunAll(ids, []) == EMPTY;
  }

  lemma LastStored(db: seq<Snapshot>, x: Snapshot)
    ensures LastOf(db + [x], x.coinId) == Some(x)
  {
  }

  /**
   Between the insert and the cache write of a value, the API serves the value before it, with no
   write that failed.
   */
  lemma StaleBetweenWrites(coin: Coin, old_: Quote, new_: Quote, t: nat, answer: Answer)
    requires t < TTL
    ensures var ids, first, c := map[coin.symbol := coin.id], CycleOf(coin, old_, 0), CycleOf(coin, new_, 1);
            && UnderWay(ids, [first], c) && AllTake(first) && AllTake(c)
            && var s := Moment(RunAll(ids, [first]), c, 0);
               && LastOf(s.db, coin.id) == Some(Snapshot(coin.id, new_, 1))
               && (Serves(s, coin, t, true, true, answer) <==> answer == Found(Snapshot(coin.id, old_, 0)))
  {
    hide UnderWay;
    hide RunAll;
    hide RunCycle;
    hide Moment;
    hide LastOf;
    hide AllTake;
    hide IsNewest;
    var first, c := CycleOf(coin, old_, 0), CycleOf(coin, new_, 1);
    OneCycleRun(coin, old_, new_);
    CycleOfStores(EMPTY, coin, old_, 0, 1);
    CycleOfStores(RunCycle(EMPTY, first).0, coin, new_, 1, 0);
    LastStored(RunCycle(EMPTY, first).0.db, Snapshot(coin.id, new_, 1));
  }

  lemma OneMatched(coin: Coin, quote: Quote)
    ensures Matched([coin], [MarketData(coin.symbol, quote, true)]) == [Item(coin, quote)]
  {
    var data := [MarketData(coin.symbol, quote, true)];
    assert data[..0] == [] && Matched([coin], []) == [];
    assert FindCoin([coin], coin.symbol) == Some(coin);
  }

  lemma OneSpread(s: Stores, item: Item, now: int, w: Write)
    ensures SetAll(s, [], now, [w]) == s
    ensures SetAll(s, [item], now, [w]) == SetLatest(s, LatestOf(item, now), w)
  {
    assert [item][..0] == [];
  }

  lemma CycleOfStores(s: Stores, coin: Coin, quote: Quote, now: int, k: nat)
    requires k <= 1
    ensures var c := CycleOf(coin, quote, now);
            var item, m := Item(coin, quote), Moment(s, c, k);
            && RunCycle(s, c).1 == Done
            && m.db == s.db + [Snapshot(coin.id, quote, now)]
            && m.cache == (if k == 0 then s.cache else s.cache[coin.symbol := Cached(LatestOf(item, now), now)])
            && (k == 1 ==> m == RunCycle(s, c).0)
  {
    hide Matched;
    hide SetAll;
    hide Snapshots;
    var c, items := CycleOf(coin, quote, now), [Item(coin, quote)];
    OneMatched(coin, quote);
    OneSpread(Stored(s, c, items), items[0], now, c.writes[0]);
    assert items[..0] == [] && items[..1] == items;
    assert Snapshots(items, now) == [Snapshot(coin.id, quote, now)];
  }
}
