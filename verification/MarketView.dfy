/**
 The browser's market table (frontend/hooks/useMarketData.ts): a REST snapshot merged
 with the events that arrived before it and after it.
 */
module MarketViews {
  import opened Basics
  import opened PriceEvents

  datatype Row = Row(symbol: string, name: string, quote: Quote, capturedAt: string)

  datatype View = View(markets: seq<Row>, latest: map<string, string>, buffer: seq<PriceEvent>, initialized: bool)

  /** The position of the first row of the symbol, or the number of rows. */
  function IndexOf(rows: seq<Row>, symbol: string): (i: nat)
    ensures i <= |rows|
    ensures i < |rows| ==> rows[i].symbol == symbol
    ensures forall j | 0 <= j < i :: rows[j].symbol != symbol
  {
    if rows == [] || rows[0].symbol == symbol then 0 else 1 + IndexOf(rows[1..], symbol)
  }

  function RowOf(e: PriceEvent, name: string): Row {
    Row(e.symbol, name, e.quote, if e.observedAt != "" then e.observedAt else e.publishedAt)
  }

  function Upsert(rows: seq<Row>, e: PriceEvent): seq<Row> {
    var i := IndexOf(rows, e.symbol);
    if i < |rows| then rows[i := RowOf(e, rows[i].name)] else rows + [RowOf(e, e.symbol)]
  }

  /** An empty timestamp is falsy and rejects nothing. */
  predicate Rejects(latest: map<string, string>, e: PriceEvent) {
    e.symbol in latest && latest[e.symbol] != "" && AtMost(e.publishedAt, latest[e.symbol])
  }

  function Merged(v: View, e: PriceEvent): View {
    if Rejects(v.latest, e) then v
    else v.(latest := v.latest[e.symbol := e.publishedAt], markets := Upsert(v.markets, e))
  }

  function MergeAll(v: View, es: seq<PriceEvent>): View {
    if es == [] then v else Merged(MergeAll(v, es[..|es|-1]), es[|es|-1])
  }

  function Handled(v: View, e: PriceEvent): View {
    if !v.initialized then v.(buffer := v.buffer + [e]) else Merged(v, e)
  }

  function Stamps(latest: map<string, string>, snapshot: seq<Row>): map<string, string> {
    if snapshot == [] then latest
    else Stamps(latest, snapshot[..|snapshot|-1])[snapshot[|snapshot|-1].symbol := snapshot[|snapshot|-1].capturedAt]
  }

  /** The snapshot in place, before the buffered events are merged. */
  function Based(v: View, snapshot: seq<Row>): View {
    View(snapshot, Stamps(v.latest, snapshot), [], true)
  }

  function Loaded(v: View, snapshot: seq<Row>): View {
    MergeAll(Based(v, snapshot), v.buffer)
  }

  class MarketView {
    var markets: seq<Row>
    var latestTimestamps: map<string, string>
    var eventBuffer: seq<PriceEvent>
    var isInitialized: bool

    ghost function Value(): View
      reads this
    {
      View(markets, latestTimestamps, eventBuffer, isInitialized)
    }

    constructor ()
      ensures Value() == View([], map[], [], false)
    {
      markets, latestTimestamps, eventBuffer, isInitialized := [], map[], [], false;
    }

    method MergeEvent(e: PriceEvent)
      modifies this
      ensures Value() == Merged(old(Value()), e)
    {
      if e.symbol in latestTimestamps {
        var existing := latestTimestamps[e.symbol];
        if existing != "" && AtMost(e.publishedAt, existing) {
          return;
        }
      }
      latestTimestamps := latestTimestamps[e.symbol := e.publishedAt];
      var index := 0;
      while index < |markets| && markets[index].symbol != e.symbol
        invariant 0 <= index <= |markets|
        invariant forall j | 0 <= j < index :: markets[j].symbol != e.symbol
      {
        index := index + 1;
      }
      if index < |markets| {
        markets := markets[index := RowOf(e, markets[index].name)];
      } else {
        markets := markets + [RowOf(e, e.symbol)];
      }
    }

    method HandleEvent(e: PriceEvent)
      modifies this
      ensures Value() == Handled(old(Value()), e)
    {
      if !isInitialized {
        eventBuffer := eventBuffer + [e];
        return;
      }
      MergeEvent(e);
    }

    /** A successful snapshot fetch. */
    method Load(snapshot: seq<Row>)
      modifies this
      ensures Value() == Loaded(old(Value()), snapshot)
    {
      hide Merged;
      markets := snapshot;
      for i := 0 to |snapshot|
        invariant Value() ==
                    View(snapshot, Stamps(old(latestTimestamps), snapshot[..i]), old(eventBuffer), old(isInitialized))
      {
        assert snapshot[..i+1][..i] == snapshot[..i];
        latestTimestamps := latestTimestamps[snapshot[i].symbol := snapshot[i].capturedAt];
      }
      assert snapshot[..|snapshot|] == snapshot;
      isInitialized := true;
      var buffered := eventBuffer;
      eventBuffer := [];
      for i := 0 to |buffered|
        invariant Value() == MergeAll(Based(old(Value()), snapshot), buffered[..i])
      {
        assert buffered[..i+1][..i] == buffered[..i];
        MergeEvent(buffered[i]);
      }
      assert buffered[..|buffered|] == buffered;
    }

    /** A failed snapshot fetch: buffered events wait for the next load. */
    method LoadFailed()
      modifies this
      ensures Value() == old(Value()).(initialized := true)
    {
      isInitialized := true;
    }
  }

  // ------------------------------------------------------------------
  // One load and all the events around it.
  // ------------------------------------------------------------------

  const EMPTY := View([], map[], [], false)

  function HandleAll(v: View, es: seq<PriceEvent>): View {
    if es == [] then v else Handled(HandleAll(v, es[..|es|-1]), es[|es|-1])
  }

  /** `early` arrives before the snapshot, `late` after it. */
  function Session(early: seq<PriceEvent>, snapshot: seq<Row>, late: seq<PriceEvent>): View {
    HandleAll(Loaded(HandleAll(EMPTY, early), snapshot), late)
  }

  lemma {:induction false} BuffersEarly(v: View, es: seq<PriceEvent>)
    requires !v.initialized
    ensures HandleAll(v, es) == v.(buffer := v.buffer + es)
  {
    hide Merged;
    if es == [] {
      assert v.buffer + es == v.buffer;
    } else {
      var init, last := es[..|es|-1], es[|es|-1];
      BuffersEarly(v, init);
      assert (v.buffer + init) + [last] == v.buffer + es;
    }
  }

  lemma {:induction false} HandlesLate(v: View, early: seq<PriceEvent>, late: seq<PriceEvent>)
    requires v.initialized
    ensures HandleAll(MergeAll(v, early), late) == MergeAll(v, early + late)
    ensures MergeAll(v, early + late).initialized
  {
    hide Merged;
    if late == [] {
      StaysInitialized(v, early);
      assert early + late == early;
    } else {
      HandlesLate(v, early, late[..|late|-1]);
      var all := early + late;
      assert all[..|all|-1] == early + late[..|late|-1];
      MergeKeepsInitialized(MergeAll(v, all[..|all|-1]), late[|late|-1]);
    }
  }

  lemma MergeKeepsInitialized(v: View, e: PriceEvent)
    ensures Merged(v, e).initialized == v.initialized
  {
  }

  lemma {:induction false} StaysInitialized(v: View, es: seq<PriceEvent>)
    ensures MergeAll(v, es).initialized == v.initialized
  {
    if es != [] {
      StaysInitialized(v, es[..|es|-1]);
    }
  }

  /** How events split into early and late does not matter. */
  lemma SessionIsMerge(early: seq<PriceEvent>, snapshot: seq<Row>, late: seq<PriceEvent>)
    ensures Session(early, snapshot, late) == MergeAll(Based(EMPTY, snapshot), early + late)
  {
    BuffersEarly(EMPTY, early);
    assert [] + early == early;
    HandlesLate(Based(EMPTY, snapshot), early, late);
  }

  // ------------------------------------------------------------------
  // What the table shows.
  // ------------------------------------------------------------------

  function Find(rows: seq<Row>, symbol: string): Option<Row> {
    var i := IndexOf(rows, symbol);
    if i < |rows| then Some(rows[i]) else None
  }

  predicate OneRowPerSymbol(rows: seq<Row>) {
    forall i, j | 0 <= i < j < |rows| :: rows[i].symbol != rows[j].symbol
  }

  /** `e` is the latest event of its symbol in `es`. */
  ghost predicate IsLatest(es: seq<PriceEvent>, e: PriceEvent) {
    e in es && forall f | f in es && f.symbol == e.symbol :: AtMost(f.publishedAt, e.publishedAt)
  }

  predicate Mentions(es: seq<PriceEvent>, symbol: string) {
    exists i | 0 <= i < |es| :: es[i].symbol == symbol
  }

  /** Events of one symbol with one timestamp look the same. */
  predicate TiesAgree(es: seq<PriceEvent>) {
    forall e, f | e in es && f in es && e.symbol == f.symbol && e.publishedAt == f.publishedAt ::
        RowOf(e, "") == RowOf(f, "")
  }

  /** The event is newer than the snapshot's row, if there is one. */
  predicate Newer(row: Option<Row>, e: PriceEvent) {
    row.None? || row.value.capturedAt == "" || !AtMost(e.publishedAt, row.value.capturedAt)
  }

  /** The row that should be shown, given the latest event of the symbol. */
  function Expected(row: Option<Row>, e: PriceEvent): Option<Row> {
    if Newer(row, e) then Some(RowOf(e, if row.Some? then row.value.name else e.symbol)) else row
  }

  function Stamp(v: View, symbol: string): Option<string> {
    if symbol in v.latest then Some(v.latest[symbol]) else None
  }

  function StampOf(row: Option<Row>): Option<string> {
    if row.Some? then Some(row.value.capturedAt) else None
  }

  lemma {:induction false} StampsOfSnapshot(snapshot: seq<Row>, symbol: string)
    requires OneRowPerSymbol(snapshot)
    ensures Stamp(Based(EMPTY, snapshot), symbol) == StampOf(Find(snapshot, symbol))
  {
    if snapshot != [] {
      var init, last := snapshot[..|snapshot|-1], snapshot[|snapshot|-1];
      StampsOfSnapshot(init, symbol);
      FindLast(init, last, symbol);
      assert snapshot == init + [last];
    }
  }

  lemma FindLast(rows: seq<Row>, row: Row, symbol: string)
    requires OneRowPerSymbol(rows + [row])
    ensures Find(rows + [row], symbol) == if row.symbol == symbol then Some(row) else Find(rows, symbol)
  {
    var all := rows + [row];
    var i := IndexOf(all, symbol);
    assert forall j | 0 <= j < |rows| :: all[j] == rows[j];
    assert all[|rows|] == row;
    if i < |rows| {
      assert IndexOf(rows, symbol) == i;
    }
  }

  /** An upsert changes the row of the event's symbol only, and keeps its name. */
  lemma UpsertFinds(rows: seq<Row>, e: PriceEvent, symbol: string)
    requires OneRowPerSymbol(rows)
    ensures OneRowPerSymbol(Upsert(rows, e))
    ensures Find(Upsert(rows, e), symbol) ==
              if symbol == e.symbol
              then Some(RowOf(e, if Find(rows, symbol).Some? then Find(rows, symbol).value.name else symbol))
              else Find(rows, symbol)
  {
    var i := IndexOf(rows, e.symbol);
    if i == |rows| {
      assert OneRowPerSymbol(Upsert(rows, e));
      FindLast(rows, RowOf(e, e.symbol), symbol);
    } else {
      var new_ := Upsert(rows, e);
      var k := IndexOf(new_, symbol);
      assert forall j | 0 <= j < |rows| :: new_[j].symbol == rows[j].symbol;
      assert k == IndexOf(rows, symbol);
    }
  }

  /** The table row and the timestamp of `symbol` are those that event `e` leaves on the snapshot's row. */
  predicate ShowsEvent(v: View, row: Option<Row>, e: PriceEvent) {
    && Find(v.markets, e.symbol) == Expected(row, e)
    && Stamp(v, e.symbol) == if Newer(row, e) then Some(e.publishedAt) else StampOf(row)
  }

  /** The symbol shows one of the latest events merged so far, or the snapshot if there is none. */
  ghost predicate ShowsFor(v: View, snapshot: seq<Row>, es: seq<PriceEvent>, symbol: string) {
    var row := Find(snapshot, symbol);
    if Mentions(es, symbol)
    then exists e: PriceEvent :: e.symbol == symbol && IsLatest(es, e) && ShowsEvent(v, row, e)
    else Find(v.markets, symbol) == row && Stamp(v, symbol) == StampOf(row)
  }

  lemma {:induction false} LatestExists(es: seq<PriceEvent>, symbol: string) returns (e: PriceEvent)
    requires Mentions(es, symbol)
    ensures IsLatest(es, e) && e.symbol == symbol
  {
    var init, last := es[..|es|-1], es[|es|-1];
    assert es == init + [last];
    if Mentions(init, symbol) {
      e := LatestExists(init, symbol);
      if last.symbol == symbol {
        AtMostTotal(last.publishedAt, e.publishedAt);
        if !AtMost(last.publishedAt, e.publishedAt) {
          forall f | f in es && f.symbol == symbol ensures AtMost(f.publishedAt, last.publishedAt) {
            if f in init {
              AtMostTransitive(f.publishedAt, e.publishedAt, last.publishedAt);
            } else {
              AtMostTotal(f.publishedAt, f.publishedAt);
            }
          }
          e := last;
        }
      }
    } else {
      assert last.symbol == symbol;
      e := last;
      AtMostTotal(e.publishedAt, e.publishedAt);
    }
  }

  /** Latest events of one symbol have one timestamp. */
  lemma LatestTie(es: seq<PriceEvent>, e: PriceEvent, f: PriceEvent)
    requires IsLatest(es, e) && IsLatest(es, f) && e.symbol == f.symbol
    ensures e.publishedAt == f.publishedAt
  {
    AtMostAntisymmetric(e.publishedAt, f.publishedAt);
  }

  lemma OtherSymbol(es: seq<PriceEvent>, f: PriceEvent, symbol: string)
    requires f.symbol != symbol
    ensures Mentions(es + [f], symbol) == Mentions(es, symbol)
    ensures forall e: PriceEvent | e.symbol == symbol :: IsLatest(es + [f], e) == IsLatest(es, e)
  {
    var all := es + [f];
    if Mentions(es, symbol) {
      var i :| 0 <= i < |es| && es[i].symbol == symbol;
      assert all[i] == es[i];
    }
    forall e: PriceEvent | e.symbol == symbol ensures IsLatest(all, e) == IsLatest(es, e) {
      assert e in all <==> e in es;
      assert forall g: PriceEvent | g.symbol == symbol :: g in all <==> g in es;
    }
  }

  /** The first event of a symbol: it is the latest one. */
  lemma FirstOfSymbol(es: seq<PriceEvent>, f: PriceEvent)
    requires !Mentions(es, f.symbol)
    ensures forall e: PriceEvent | e.symbol == f.symbol && IsLatest(es + [f], e) :: e == f
    ensures IsLatest(es + [f], f)
  {
    forall e | e in es + [f] && e.symbol == f.symbol ensures e == f {
    }
    AtMostTotal(f.publishedAt, f.publishedAt);
  }

  /** A further event of a symbol: the old latest stays, or the new one takes over. */
  lemma FurtherOfSymbol(es: seq<PriceEvent>, b: PriceEvent, f: PriceEvent)
    requires IsLatest(es, b) && b.symbol == f.symbol
    ensures IsLatest(es + [f], if AtMost(f.publishedAt, b.publishedAt) then b else f)
  {
    var all := es + [f];
    if AtMost(f.publishedAt, b.publishedAt) {
      assert b in all;
    } else {
      AtMostTotal(f.publishedAt, b.publishedAt);
      AtMostTotal(f.publishedAt, f.publishedAt);
      assert f in all;
      forall g | g in all && g.symbol == f.symbol ensures AtMost(g.publishedAt, f.publishedAt) {
        if g in es {
          AtMostTransitive(g.publishedAt, b.publishedAt, f.publishedAt);
        }
      }
    }
  }

  /** Of tying events both are latest. */
  lemma TyingIsLatest(es: seq<PriceEvent>, b: PriceEvent, f: PriceEvent)
    requires IsLatest(es, b) && b.symbol == f.symbol && b.publishedAt == f.publishedAt
    ensures IsLatest(es + [f], f)
  {
    AtMostTotal(f.publishedAt, f.publishedAt);
    assert f in es + [f];
  }

  /** What merging `f` makes of a symbol that shows `b`: a newer event is shown, and of tying ones either. */
  lemma MergeOntoBest(v: View, row: Option<Row>, b: PriceEvent, f: PriceEvent)
    requires OneRowPerSymbol(v.markets) && b.symbol == f.symbol && ShowsEvent(v, row, b)
    requires row.Some? ==> row.value.symbol == f.symbol
    ensures AtMost(f.publishedAt, b.publishedAt) && f.publishedAt != b.publishedAt ==> ShowsEvent(Merged(v, f), row, b)
    ensures f.publishedAt == b.publishedAt ==> ShowsEvent(Merged(v, f), row, b) || ShowsEvent(Merged(v, f), row, f)
    ensures !AtMost(f.publishedAt, b.publishedAt) ==> ShowsEvent(Merged(v, f), row, f)
  {
    UpsertFinds(v.markets, f, f.symbol);
    if AtMost(f.publishedAt, b.publishedAt) {
      if Newer(row, b) {
        if b.publishedAt == "" {
          assert f.publishedAt == "";
        }
      } else {
        AtMostTransitive(f.publishedAt, b.publishedAt, row.value.capturedAt);
      }
    } else if Newer(row, b) {
      AtMostTotal(f.publishedAt, b.publishedAt);
      if row.Some? && AtMost(f.publishedAt, row.value.capturedAt) {
        AtMostTransitive(b.publishedAt, f.publishedAt, row.value.capturedAt);
      }
    }
  }

  lemma MergeOntoSnapshot(v: View, row: Option<Row>, f: PriceEvent)
    requires OneRowPerSymbol(v.markets)
    requires row.Some? ==> row.value.symbol == f.symbol
    requires Find(v.markets, f.symbol) == row && Stamp(v, f.symbol) == StampOf(row)
    ensures ShowsEvent(Merged(v, f), row, f)
  {
    UpsertFinds(v.markets, f, f.symbol);
  }

  /** A merge leaves the other symbols alone. */
  lemma MergeElsewhere(v: View, f: PriceEvent, symbol: string)
    requires OneRowPerSymbol(v.markets) && symbol != f.symbol
    ensures Find(Merged(v, f).markets, symbol) == Find(v.markets, symbol)
    ensures Stamp(Merged(v, f), symbol) == Stamp(v, symbol)
  {
    UpsertFinds(v.markets, f, symbol);
  }

  lemma ShowsAfter(v: View, snapshot: seq<Row>, es: seq<PriceEvent>, f: PriceEvent, symbol: string)
    requires OneRowPerSymbol(v.markets) && ShowsFor(v, snapshot, es, symbol)
    ensures ShowsFor(Merged(v, f), snapshot, es + [f], symbol)
  {
    hide Merged;
    hide IsLatest;
    hide Find;
    var all, row := es + [f], Find(snapshot, symbol);
    if symbol != f.symbol {
      OtherSymbol(es, f, symbol);
      MergeElsewhere(v, f, symbol);
    } else {
      hide ShowsEvent;
      FindHasSymbol(snapshot, symbol);
      assert all[|es|] == f && Mentions(all, symbol);
      if !Mentions(es, symbol) {
        FirstOfSymbol(es, f);
        ShowsSnapshot(v, snapshot, es, symbol);
        MergeOntoSnapshot(v, row, f);
      } else {
        var b: PriceEvent :| b.symbol == symbol && IsLatest(es, b) && ShowsEvent(v, row, b);
        FurtherOfSymbol(es, b, f);
        MergeOntoBest(v, row, b, f);
        if b.publishedAt == f.publishedAt {
          AtMostTotal(f.publishedAt, b.publishedAt);
          TyingIsLatest(es, b, f);
        }
      }
    }
  }

  lemma ShowsSnapshot(v: View, snapshot: seq<Row>, es: seq<PriceEvent>, symbol: string)
    requires ShowsFor(v, snapshot, es, symbol) && !Mentions(es, symbol)
    ensures Find(v.markets, symbol) == Find(snapshot, symbol) && Stamp(v, symbol) == StampOf(Find(snapshot, symbol))
  {
  }

  lemma FindHasSymbol(rows: seq<Row>, symbol: string)
    ensures Find(rows, symbol).Some? ==> Find(rows, symbol).value.symbol == symbol
  {
  }

  /** In whatever order events come, each symbol shows one of its latest, or the snapshot if that is newer. */
  lemma {:induction false} MergeShows(snapshot: seq<Row>, es: seq<PriceEvent>, symbol: string)
    requires OneRowPerSymbol(snapshot)
    ensures var v := MergeAll(Based(EMPTY, snapshot), es);
            OneRowPerSymbol(v.markets) && ShowsFor(v, snapshot, es, symbol)
  {
    if es == [] {
      StampsOfSnapshot(snapshot, symbol);
    } else {
      hide ShowsFor;
      var init, f := es[..|es|-1], es[|es|-1];
      assert es == init + [f];
      MergeShows(snapshot, init, symbol);
      var v := MergeAll(Based(EMPTY, snapshot), init);
      UpsertFinds(v.markets, f, symbol);
      ShowsAfter(v, snapshot, init, f, symbol);
    }
  }

  /** Events `e` and `f` leave the same row on the snapshot's row. */
  predicate Alike(row: Option<Row>, e: PriceEvent, f: PriceEvent) {
    Newer(row, e) ==> RowOf(e, "") == RowOf(f, "")
  }

  /** For each symbol, the latest events that are newer than the snapshot look alike. */
  ghost predicate LatestAlike(snapshot: seq<Row>, es: seq<PriceEvent>) {
    forall e, f | IsLatest(es, e) && IsLatest(es, f) && e.symbol == f.symbol :: Alike(Find(snapshot, e.symbol), e, f)
  }

  /** Events without different ties are a case of that. */
  lemma TiesAreAlike(snapshot: seq<Row>, es: seq<PriceEvent>)
    requires TiesAgree(es)
    ensures LatestAlike(snapshot, es)
  {
    forall e, f | IsLatest(es, e) && IsLatest(es, f) && e.symbol == f.symbol
      ensures Alike(Find(snapshot, e.symbol), e, f)
    {
      LatestTie(es, e, f);
    }
  }

  lemma AlikeExpected(row: Option<Row>, e: PriceEvent, f: PriceEvent)
    requires e.symbol == f.symbol && e.publishedAt == f.publishedAt
    ensures Alike(row, e, f) <==> Expected(row, e) == Expected(row, f)
  {
  }

  lemma SameExpected(snapshot: seq<Row>, es: seq<PriceEvent>, e: PriceEvent, f: PriceEvent)
    requires LatestAlike(snapshot, es) && IsLatest(es, e) && IsLatest(es, f) && e.symbol == f.symbol
    ensures Expected(Find(snapshot, e.symbol), e) == Expected(Find(snapshot, e.symbol), f)
  {
    LatestTie(es, e, f);
    AlikeExpected(Find(snapshot, e.symbol), e, f);
  }

  /**
   After one successful load every symbol has one row. A symbol with events shows its
   latest event if that is newer than the snapshot's row, with the name from the
   snapshot, and the snapshot's row otherwise; a symbol without events shows the
   snapshot. The order of the events, repeats, and what came before the snapshot play
   no part.
   */
  lemma SessionShowsLatest(early: seq<PriceEvent>, snapshot: seq<Row>, late: seq<PriceEvent>, symbol: string)
    requires OneRowPerSymbol(snapshot) && LatestAlike(snapshot, early + late)
    ensures var v := Session(early, snapshot, late);
            && OneRowPerSymbol(v.markets)
            && (!Mentions(early + late, symbol) ==> Find(v.markets, symbol) == Find(snapshot, symbol))
            && (forall e | IsLatest(early + late, e) && e.symbol == symbol ::
                  Find(v.markets, symbol) == Expected(Find(snapshot, symbol), e))
  {
    hide IsLatest;
    hide Expected;
    hide Find;
    hide LatestAlike;
    SessionIsMerge(early, snapshot, late);
    MergeShows(snapshot, early + late, symbol);
    if Mentions(early + late, symbol) {
      var v := Session(early, snapshot, late);
      var b: PriceEvent :|
        b.symbol == symbol && IsLatest(early + late, b) && ShowsEvent(v, Find(snapshot, symbol), b);
      forall e | IsLatest(early + late, e) && e.symbol == symbol
        ensures Find(v.markets, symbol) == Expected(Find(snapshot, symbol), e)
      {
        SameExpected(snapshot, early + late, b, e);
      }
    } else {
      forall e | IsLatest(early + late, e) ensures e.symbol != symbol {
        LatestIsMentioned(early + late, e);
      }
    }
  }

  lemma LatestIsMentioned(es: seq<PriceEvent>, e: PriceEvent)
    requires IsLatest(es, e)
    ensures Mentions(es, e.symbol)
  {
    var i :| 0 <= i < |es| && es[i] == e;
  }

  // ------------------------------------------------------------------
  // The row that is shown, field by field.
  // ------------------------------------------------------------------

  /** Timestamp `a` is strictly earlier: a proper prefix, or smaller where the two first differ. */
  ghost predicate Earlier(a: string, b: string) {
    a < b || exists k: nat :: SmallerAt(a, b, k)
  }

  lemma EarlierIsLess(a: string, b: string)
    requires Earlier(a, b)
    ensures AtMost(a, b) && !AtMost(b, a)
  {
    AtMostIff(a, b);
    if AtMost(b, a) {
      AtMostAntisymmetric(a, b);
    }
  }

  /**
   An event that is later than every other one of its symbol, and than the snapshot's row, is
   what the table shows, whatever the order, the repeats and the split: its own prices and
   provider, the name from the snapshot, and the time it was observed or else published.
   */
  lemma GreatestStampShows(early: seq<PriceEvent>, snapshot: seq<Row>, late: seq<PriceEvent>, e: PriceEvent)
    requires OneRowPerSymbol(snapshot) && e in early + late
    requires forall f | f in early + late && f.symbol == e.symbol && f != e :: Earlier(f.publishedAt, e.publishedAt)
    requires forall row | Find(snapshot, e.symbol) == Some(row) :: Earlier(row.capturedAt, e.publishedAt)
    ensures var shown := Find(Session(early, snapshot, late).markets, e.symbol);
            var row := Find(snapshot, e.symbol);
            && shown.Some?
            && shown.value.symbol == e.symbol
            && shown.value.name == (if row.Some? then row.value.name else e.symbol)
            && shown.value.quote.priceUsd == e.quote.priceUsd
            && shown.value.quote.marketCap == e.quote.marketCap
            && shown.value.quote.volume24h == e.quote.volume24h
            && shown.value.quote.change24h == e.quote.change24h
            && shown.value.quote.provider == e.quote.provider
            && shown.value.capturedAt == (if e.observedAt == "" then e.publishedAt else e.observedAt)
  {
    var es, row := early + late, Find(snapshot, e.symbol);
    hide Session;
    hide Find;
    OnlyLatest(es, e);
    if row.Some? {
      EarlierIsLess(row.value.capturedAt, e.publishedAt);
    }
    assert Newer(row, e);
    SessionIsMerge(early, snapshot, late);
    MergeShows(snapshot, es, e.symbol);
    LatestIsMentioned(es, e);
    hide IsLatest;
    var v := Session(early, snapshot, late);
    var b: PriceEvent :| b.symbol == e.symbol && IsLatest(es, b) && ShowsEvent(v, row, b);
    assert b == e;
  }

  /** A snapshot row that no event of its symbol is later than stays as it is. */
  lemma SnapshotRowStays(early: seq<PriceEvent>, snapshot: seq<Row>, late: seq<PriceEvent>, row: Row)
    requires OneRowPerSymbol(snapshot) && Find(snapshot, row.symbol) == Some(row) && row.capturedAt != ""
    requires forall f | f in early + late && f.symbol == row.symbol ::
               f.publishedAt == row.capturedAt || Earlier(f.publishedAt, row.capturedAt)
    ensures Find(Session(early, snapshot, late).markets, row.symbol) == Some(row)
  {
    var es, v := early + late, Session(early, snapshot, late);
    hide Session;
    hide Find;
    SessionIsMerge(early, snapshot, late);
    MergeShows(snapshot, es, row.symbol);
    if Mentions(es, row.symbol) {
      var b: PriceEvent :| b.symbol == row.symbol && IsLatest(es, b) && ShowsEvent(v, Some(row), b);
      if b.publishedAt == row.capturedAt {
        AtMostTotal(b.publishedAt, b.publishedAt);
      } else {
        EarlierIsLess(b.publishedAt, row.capturedAt);
      }
    }
  }

  lemma OnlyLatest(es: seq<PriceEvent>, e: PriceEvent)
    requires e in es
    requires forall f | f in es && f.symbol == e.symbol && f != e :: Earlier(f.publishedAt, e.publishedAt)
    ensures IsLatest(es, e) && forall b | IsLatest(es, b) && b.symbol == e.symbol :: b == e
  {
    hide Earlier;
    AtMostTotal(e.publishedAt, e.publishedAt);
    forall f | f in es && f.symbol == e.symbol && f != e
      ensures AtMost(f.publishedAt, e.publishedAt) && !AtMost(e.publishedAt, f.publishedAt)
    {
      EarlierIsLess(f.publishedAt, e.publishedAt);
    }
  }

  /** Of two events whose timestamps first differ in one character, the greater one is shown in either order. */
  lemma GreaterDigitShows(a: PriceEvent, b: PriceEvent, prefix: string, c: char, d: char, x: string, y: string)
    requires a.symbol == b.symbol && c < d
    requires a.publishedAt == prefix + [c] + x && b.publishedAt == prefix + [d] + y
    ensures Find(Session([], [], [a, b]).markets, a.symbol) == Find(Session([], [], [b, a]).markets, a.symbol)
    ensures var shown := Find(Session([], [], [a, b]).markets, a.symbol); shown.Some? && shown.value.quote == b.quote
  {
    hide Session;
    hide Find;
    assert SmallerAt(a.publishedAt, b.publishedAt, |prefix|);
    assert [] + [a, b] == [a, b] && [] + [b, a] == [b, a];
    FindNothing(a.symbol);
    GreatestStampShows([], [], [a, b], b);
    GreatestStampShows([], [], [b, a], b);
  }

  lemma FindNothing(symbol: string)
    ensures Find([], symbol) == None
  {
  }

  // ------------------------------------------------------------------
  // The order of the rows.
  // ------------------------------------------------------------------

  function SymbolsOf(rows: seq<Row>): (symbols: seq<string>)
    ensures |symbols| == |rows| && forall i | 0 <= i < |rows| :: symbols[i] == rows[i].symbol
  {
    seq(|rows|, i requires 0 <= i < |rows| => rows[i].symbol)
  }

  /** The symbols known so far, then each new one where it is first mentioned. */
  function InOrderOfMention(known: seq<string>, es: seq<PriceEvent>): seq<string>
    decreases |es|
  {
    if es == [] then known
    else InOrderOfMention(if es[0].symbol in known then known else known + [es[0].symbol], es[1..])
  }

  lemma UpsertSymbols(rows: seq<Row>, e: PriceEvent)
    ensures SymbolsOf(Upsert(rows, e)) ==
              if e.symbol in SymbolsOf(rows) then SymbolsOf(rows) else SymbolsOf(rows) + [e.symbol]
  {
    var i := IndexOf(rows, e.symbol);
    if i < |rows| {
      assert SymbolsOf(rows)[i] == e.symbol;
      assert SymbolsOf(Upsert(rows, e)) == SymbolsOf(rows);
    } else {
      assert e.symbol !in SymbolsOf(rows);
    }
  }

  /** Every timestamp on record belongs to a row. */
  ghost predicate Rowed(v: View) {
    forall symbol <- v.latest :: symbol in SymbolsOf(v.markets)
  }

  lemma MergedSymbols(v: View, e: PriceEvent)
    requires Rowed(v)
    ensures Rowed(Merged(v, e))
    ensures SymbolsOf(Merged(v, e).markets) ==
              if e.symbol in SymbolsOf(v.markets) then SymbolsOf(v.markets) else SymbolsOf(v.markets) + [e.symbol]
  {
    UpsertSymbols(v.markets, e);
    hide Upsert;
    hide SymbolsOf;
  }

  lemma {:induction false} StampsRowed(snapshot: seq<Row>)
    ensures Rowed(Based(EMPTY, snapshot))
  {
    if snapshot != [] {
      var init := snapshot[..|snapshot|-1];
      StampsRowed(init);
      assert SymbolsOf(snapshot) == SymbolsOf(init) + [snapshot[|snapshot|-1].symbol];
    }
  }

  lemma {:induction false} MergeKeepsOrder(v: View, es: seq<PriceEvent>)
    requires Rowed(v)
    ensures SymbolsOf(MergeAll(v, es).markets) == InOrderOfMention(SymbolsOf(v.markets), es)
    decreases |es|
  {
    if es != [] {
      hide Merged;
      hide SymbolsOf;
      assert es == [es[0]] + es[1..];
      MergeFirst(v, es[0], es[1..]);
      hide MergeAll;
      MergedSymbols(v, es[0]);
      MergeKeepsOrder(Merged(v, es[0]), es[1..]);
    }
  }

  /** Rows never move: those of the snapshot keep their places, new symbols follow as they are first mentioned. */
  lemma RowsKeepTheirPlaces(early: seq<PriceEvent>, snapshot: seq<Row>, late: seq<PriceEvent>)
    ensures SymbolsOf(Session(early, snapshot, late).markets) == InOrderOfMention(SymbolsOf(snapshot), early + late)
  {
    SessionIsMerge(early, snapshot, late);
    StampsRowed(snapshot);
    MergeKeepsOrder(Based(EMPTY, snapshot), early + late);
  }

  // ------------------------------------------------------------------
  // Confluence.
  // ------------------------------------------------------------------

  /**
   `fewer` holds only events of `es`, and for every symbol of `es` it holds a latest
   event: enough for the same table.
   */
  ghost predicate KeepsLatest(fewer: seq<PriceEvent>, es: seq<PriceEvent>) {
    && (forall e | e in fewer :: e in es)
    && (forall symbol | Mentions(es, symbol) :: HasLatest(fewer, es, symbol))
  }

  ghost predicate HasLatest(fewer: seq<PriceEvent>, es: seq<PriceEvent>, symbol: string) {
    exists e :: e in fewer && e.symbol == symbol && IsLatest(es, e)
  }

  lemma MentionsMember(es: seq<PriceEvent>, e: PriceEvent)
    requires e in es
    ensures Mentions(es, e.symbol)
  {
    var i :| 0 <= i < |es| && es[i] == e;
  }

  lemma LatestOfFewer(fewer: seq<PriceEvent>, es: seq<PriceEvent>, symbol: string)
    requires KeepsLatest(fewer, es)
    ensures Mentions(fewer, symbol) == Mentions(es, symbol)
  {
    if Mentions(fewer, symbol) {
      var i :| 0 <= i < |fewer| && fewer[i].symbol == symbol;
      MentionsMember(es, fewer[i]);
    }
    if Mentions(es, symbol) {
      assert HasLatest(fewer, es, symbol);
      var e :| e in fewer && e.symbol == symbol && IsLatest(es, e);
      MentionsMember(fewer, e);
    }
  }

  /** A table fed with less shows the same, as long as the latest events are kept and look alike. */
  lemma LatestSuffices(snapshot: seq<Row>, es: seq<PriceEvent>, fewer: seq<PriceEvent>, symbol: string)
    requires OneRowPerSymbol(snapshot) && LatestAlike(snapshot, es) && KeepsLatest(fewer, es)
    ensures Find(MergeAll(Based(EMPTY, snapshot), fewer).markets, symbol) ==
            Find(MergeAll(Based(EMPTY, snapshot), es).markets, symbol)
  {
    hide IsLatest;
    hide MergeAll;
    hide Based;
    hide Find;
    hide Expected;
    hide LatestAlike;
    hide KeepsLatest;
    MergeShows(snapshot, es, symbol);
    MergeShows(snapshot, fewer, symbol);
    LatestOfFewer(fewer, es, symbol);
    if Mentions(es, symbol) {
      var row := Find(snapshot, symbol);
      var v, v' := MergeAll(Based(EMPTY, snapshot), es), MergeAll(Based(EMPTY, snapshot), fewer);
      var b: PriceEvent :| b.symbol == symbol && IsLatest(es, b) && ShowsEvent(v, row, b);
      var b': PriceEvent :| b'.symbol == symbol && IsLatest(fewer, b') && ShowsEvent(v', row, b');
      LatestOfAll(fewer, es, b');
      SameExpected(snapshot, es, b, b');
    }
  }

  /** A latest event of the fewer is a latest event of all. */
  lemma LatestOfAll(fewer: seq<PriceEvent>, es: seq<PriceEvent>, e: PriceEvent)
    requires KeepsLatest(fewer, es) && IsLatest(fewer, e)
    ensures IsLatest(es, e)
  {
    MentionsMember(es, e);
    assert HasLatest(fewer, es, e.symbol);
    var b: PriceEvent :| b in fewer && b.symbol == e.symbol && IsLatest(es, b);
    forall f | f in es && f.symbol == e.symbol ensures AtMost(f.publishedAt, e.publishedAt) {
      AtMostTransitive(f.publishedAt, b.publishedAt, e.publishedAt);
    }
  }

  lemma SessionLatestSuffices(snapshot: seq<Row>, es: seq<PriceEvent>, fewer: seq<PriceEvent>, symbol: string)
    requires OneRowPerSymbol(snapshot) && LatestAlike(snapshot, es) && KeepsLatest(fewer, es)
    ensures Find(Session([], snapshot, fewer).markets, symbol) == Find(Session([], snapshot, es).markets, symbol)
  {
    SessionIsMerge([], snapshot, fewer);
    SessionIsMerge([], snapshot, es);
    assert [] + fewer == fewer && [] + es == es;
    LatestSuffices(snapshot, es, fewer, symbol);
  }

  /** The same events, in whatever order and however often. */
  ghost predicate SameEvents(es: seq<PriceEvent>, es': seq<PriceEvent>) {
    forall e :: e in es <==> e in es'
  }

  lemma SameKeepsLatest(es: seq<PriceEvent>, es': seq<PriceEvent>)
    requires SameEvents(es, es')
    ensures KeepsLatest(es', es)
  {
    forall s | Mentions(es, s) ensures HasLatest(es', es, s) {
      var l := LatestExists(es, s);
      assert l in es';
    }
  }

  /** Two sessions over the same events, however ordered, repeated and split, end with the same rows. */
  lemma SessionsConfluent(early: seq<PriceEvent>, late: seq<PriceEvent>, early': seq<PriceEvent>,
      late': seq<PriceEvent>, snapshot: seq<Row>, symbol: string)
    requires OneRowPerSymbol(snapshot) && LatestAlike(snapshot, early + late)
    requires SameEvents(early + late, early' + late')
    ensures Find(Session(early, snapshot, late).markets, symbol) ==
              Find(Session(early', snapshot, late').markets, symbol)
  {
    hide LatestAlike;
    hide SameEvents;
    hide KeepsLatest;
    SameKeepsLatest(early + late, early' + late');
    SessionIsMerge(early, snapshot, late);
    SessionIsMerge(early', snapshot, late');
    LatestSuffices(snapshot, early + late, early' + late', symbol);
  }

  // ------------------------------------------------------------------
  // The condition for confluence is exact.
  // ------------------------------------------------------------------

  /** The rows do not depend on the order of the events or on repeats. */
  ghost predicate Confluent(snapshot: seq<Row>, es: seq<PriceEvent>) {
    forall es' | SameEvents(es, es') :: SameRows(snapshot, es, es')
  }

  ghost predicate SameRows(snapshot: seq<Row>, es: seq<PriceEvent>, es': seq<PriceEvent>) {
    forall symbol ::
      Find(Session([], snapshot, es).markets, symbol) == Find(Session([], snapshot, es').markets, symbol)
  }

  lemma {:induction false} MergeFirst(v: View, e: PriceEvent, es: seq<PriceEvent>)
    ensures MergeAll(v, [e] + es) == MergeAll(Merged(v, e), es)
  {
    hide Merged;
    var all := [e] + es;
    if es == [] {
      assert all == [e] && [e][..0] == [] && MergeAll(v, []) == v;
    } else {
      MergeFirst(v, e, es[..|es|-1]);
      assert all[..|all|-1] == [e] + es[..|es|-1];
    }
  }

  /** Once a latest event with a timestamp is shown, none of the others changes that. */
  lemma {:induction false} StaysShown(v: View, row: Option<Row>, e: PriceEvent, es: seq<PriceEvent>)
    requires OneRowPerSymbol(v.markets) && ShowsEvent(v, row, e) && Newer(row, e) && e.publishedAt != ""
    requires forall f | f in es && f.symbol == e.symbol :: AtMost(f.publishedAt, e.publishedAt)
    ensures OneRowPerSymbol(MergeAll(v, es).markets) && ShowsEvent(MergeAll(v, es), row, e)
  {
    if es != [] {
      var init, f := es[..|es|-1], es[|es|-1];
      StaysShown(v, row, e, init);
      var v1 := MergeAll(v, init);
      UpsertFinds(v1.markets, f, e.symbol);
      if f.symbol != e.symbol {
        MergeElsewhere(v1, f, e.symbol);
      }
    }
  }

  /** An order that shows `e`: first, or last when there is no timestamp to reject the others. */
  function Showing(es: seq<PriceEvent>, e: PriceEvent): seq<PriceEvent> {
    if e.publishedAt == "" then es + [e] else [e] + es
  }

  lemma ShowingSame(es: seq<PriceEvent>, e: PriceEvent)
    requires e in es
    ensures SameEvents(es, Showing(es, e))
  {
  }

  /** Any latest event can be the one shown. */
  lemma AnyLatestCanShow(snapshot: seq<Row>, es: seq<PriceEvent>, e: PriceEvent)
    requires OneRowPerSymbol(snapshot) && IsLatest(es, e) && Newer(Find(snapshot, e.symbol), e)
    ensures Find(MergeAll(Based(EMPTY, snapshot), Showing(es, e)).markets, e.symbol) ==
              Expected(Find(snapshot, e.symbol), e)
  {
    var v, row := Based(EMPTY, snapshot), Find(snapshot, e.symbol);
    FindHasSymbol(snapshot, e.symbol);
    if e.publishedAt == "" {
      ShowsLastUntimed(snapshot, es, e);
    } else {
      MergeFirst(v, e, es);
      StampsOfSnapshot(snapshot, e.symbol);
      MergeOntoSnapshot(v, row, e);
      UpsertFinds(v.markets, e, e.symbol);
      StaysShown(Merged(v, e), row, e, es);
    }
  }

  lemma ShowsLastUntimed(snapshot: seq<Row>, es: seq<PriceEvent>, e: PriceEvent)
    requires OneRowPerSymbol(snapshot) && IsLatest(es, e) && Newer(Find(snapshot, e.symbol), e) && e.publishedAt == ""
    ensures Find(MergeAll(Based(EMPTY, snapshot), es + [e]).markets, e.symbol) == Expected(Find(snapshot, e.symbol), e)
  {
    var row := Find(snapshot, e.symbol);
    MergeShows(snapshot, es, e.symbol);
    LatestIsMentioned(es, e);
    FindHasSymbol(snapshot, e.symbol);
    var v := MergeAll(Based(EMPTY, snapshot), es);
    var b: PriceEvent :| b.symbol == e.symbol && IsLatest(es, b) && ShowsEvent(v, row, b);
    LatestTie(es, e, b);
    assert (es + [e])[..|es|] == es;
    UpsertFinds(v.markets, e, e.symbol);
  }

  lemma SessionMerges(snapshot: seq<Row>, es: seq<PriceEvent>)
    ensures Session([], snapshot, es) == MergeAll(Based(EMPTY, snapshot), es)
  {
    SessionIsMerge([], snapshot, es);
    assert [] + es == es;
  }

  /** The rows can show either of two latest events, so confluence makes them look alike. */
  lemma ConfluentAlike(snapshot: seq<Row>, es: seq<PriceEvent>, e: PriceEvent, f: PriceEvent)
    requires OneRowPerSymbol(snapshot) && Confluent(snapshot, es)
    requires IsLatest(es, e) && IsLatest(es, f) && e.symbol == f.symbol
    ensures Alike(Find(snapshot, e.symbol), e, f)
  {
    var row := Find(snapshot, e.symbol);
    if Newer(row, e) {
      LatestTie(es, e, f);
      AnyLatestCanShow(snapshot, es, e);
      AnyLatestCanShow(snapshot, es, f);
      ShowingSame(es, e);
      ShowingSame(es, f);
      hide Session;
      hide MergeAll;
      hide Showing;
      hide Find;
      SessionMerges(snapshot, Showing(es, e));
      SessionMerges(snapshot, Showing(es, f));
      assert SameRows(snapshot, es, Showing(es, e)) && SameRows(snapshot, es, Showing(es, f));
      AlikeExpected(row, e, f);
    }
  }

  /**
   For every snapshot and every events: all orders and repeats show the same rows if and only if,
   for each symbol, the latest events that are newer than the snapshot look alike.
   */
  lemma ConfluentIffLatestAlike(snapshot: seq<Row>, es: seq<PriceEvent>)
    requires OneRowPerSymbol(snapshot)
    ensures Confluent(snapshot, es) <==> LatestAlike(snapshot, es)
  {
    hide Alike;
    hide Find;
    hide Session;
    hide IsLatest;
    if Confluent(snapshot, es) {
      hide Confluent;
      forall e, f | IsLatest(es, e) && IsLatest(es, f) && e.symbol == f.symbol
        ensures Alike(Find(snapshot, e.symbol), e, f)
      {
        ConfluentAlike(snapshot, es, e, f);
      }
    }
    if LatestAlike(snapshot, es) {
      hide LatestAlike;
      forall es' | SameEvents(es, es') ensures SameRows(snapshot, es, es') {
        AlikeSameRows(snapshot, es, es');
      }
    }
  }

  lemma AlikeSameRows(snapshot: seq<Row>, es: seq<PriceEvent>, es': seq<PriceEvent>)
    requires OneRowPerSymbol(snapshot) && LatestAlike(snapshot, es) && SameEvents(es, es')
    ensures SameRows(snapshot, es, es')
  {
    hide LatestAlike;
    hide Session;
    hide Find;
    assert [] + es == es && [] + es' == es';
    forall symbol
      ensures Find(Session([], snapshot, es).markets, symbol) == Find(Session([], snapshot, es').markets, symbol)
    {
      SessionsConfluent([], es, [], es', snapshot, symbol);
    }
  }

  /** Agreement of ties is necessary: two events commute if and only if they do not tie with different contents. */
  lemma PairCommutesIffTiesAgree(a: PriceEvent, b: PriceEvent)
    ensures TiesAgree([a, b]) <==>
              forall symbol ::
                Find(Session([], [], [a, b]).markets, symbol) == Find(Session([], [], [b, a]).markets, symbol)
  {
    if TiesAgree([a, b]) {
      assert [] + [a, b] == [a, b] && [] + [b, a] == [b, a];
      TiesAreAlike([], [a, b]);
      forall symbol
        ensures Find(Session([], [], [a, b]).markets, symbol) == Find(Session([], [], [b, a]).markets, symbol)
      {
        SessionsConfluent([], [a, b], [], [b, a], [], symbol);
      }
    } else {
      TieLosesOne(a, b);
      TieLosesOne(b, a);
      assert Find(Session([], [], [a, b]).markets, a.symbol) != Find(Session([], [], [b, a]).markets, a.symbol);
    }
  }

  /** Of two tying events the first is kept, or the second when the timestamp is empty. */
  lemma TieLosesOne(a: PriceEvent, b: PriceEvent)
    requires a.symbol == b.symbol && a.publishedAt == b.publishedAt
    ensures Find(Session([], [], [a, b]).markets, a.symbol) ==
              Some(RowOf(if a.publishedAt == "" then b else a, a.symbol))
  {
    SessionIsMerge([], [], [a, b]);
    assert [] + [a, b] == [a, b];
    var v0 := Based(EMPTY, []);
    assert [a, b][..1] == [a] && [a][..0] == [];
    var v1 := Merged(v0, a);
    assert MergeAll(v0, [a]) == v1;
    UpsertFinds(v0.markets, a, a.symbol);
    UpsertFinds(v1.markets, b, a.symbol);
    AtMostTotal(a.publishedAt, a.publishedAt);
  }

  // ------------------------------------------------------------------
  // A second load.
  // ------------------------------------------------------------------

  /**
   A later snapshot replaces the rows but keeps the timestamps of symbols it lacks. If
   the latest event of a symbol is then delivered again, the symbol is shown if and only
   if the new snapshot carries it.
   */
  lemma RefetchThenRedelivery(v: View, snapshot: seq<Row>, e: PriceEvent)
    requires v.initialized && v.buffer == [] && OneRowPerSymbol(snapshot)
    requires Stamp(v, e.symbol) == Some(e.publishedAt) && e.publishedAt != ""
    ensures Find(Handled(Loaded(v, snapshot), e).markets, e.symbol).Some? <==> Find(snapshot, e.symbol).Some?
  {
    var v' := Based(v, snapshot);
    assert Loaded(v, snapshot) == v';
    StampsKept(v.latest, snapshot, e.symbol);
    UpsertFinds(snapshot, e, e.symbol);
    AtMostTotal(e.publishedAt, e.publishedAt);
  }

  /**
   A load, an event, a refetch without its symbol and the same event again: the row was shown, and
   is gone for as long as nothing newer comes.
   */
  lemma RefetchLosesRow(first: seq<Row>, second: seq<Row>, e: PriceEvent)
    requires OneRowPerSymbol(first) && OneRowPerSymbol(second) && e.publishedAt != ""
    requires Newer(Find(first, e.symbol), e) && Find(second, e.symbol).None?
    ensures var shown := Handled(Loaded(EMPTY, first), e);
            var again := Handled(Loaded(shown, second), e);
            && Find(shown.markets, e.symbol) == Expected(Find(first, e.symbol), e)
            && Find(again.markets, e.symbol).None?
  {
    var v, row := Loaded(EMPTY, first), Find(first, e.symbol);
    assert v == Based(EMPTY, first);
    StampsOfSnapshot(first, e.symbol);
    FindHasSymbol(first, e.symbol);
    MergeOntoSnapshot(v, row, e);
    MergeKeepsInitialized(v, e);
    RefetchThenRedelivery(Handled(v, e), second, e);
  }

  lemma {:induction false} StampsKept(latest: map<string, string>, snapshot: seq<Row>, symbol: string)
    requires OneRowPerSymbol(snapshot)
    ensures Find(snapshot, symbol).None? && symbol in latest ==>
              symbol in Stamps(latest, snapshot) && Stamps(latest, snapshot)[symbol] == latest[symbol]
  {
    if snapshot != [] {
      var init, last := snapshot[..|snapshot|-1], snapshot[|snapshot|-1];
      assert snapshot == init + [last];
      FindLast(init, last, symbol);
      StampsKept(latest, init, symbol);
    }
  }
}
