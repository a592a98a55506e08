/**
 Delivery with the reader running beside compaction.

 ServeSSE evaluates `c.events` and receives from it without the client's mutex, so it
 may take events off the closed old channel while `send` drains it, and off the new one
 while `send` refills it. One step here is one channel operation.
 */
module DeliveryRace {
  import opened Basics
  import opened PriceEvents
  import opened Clients
  import opened MarketViews

  datatype Phase =
    | Idle
    | Draining(latest: map<string, PriceEvent>, event: PriceEvent)
    | Refilling(todo: map<string, PriceEvent>)

  /** `chan` is the channel in `c.events`; `accepted` and `delivered` are history. */
  datatype State = State(
    chan: seq<PriceEvent>, phase: Phase,
    accepted: seq<PriceEvent>, delivered: seq<PriceEvent>, ended: bool)

  const START := State([], Idle, [], [], false)

  datatype Step =
    | SendFast(e: PriceEvent)
    | SendFull(e: PriceEvent)
    | Replay(e: PriceEvent)
    | DrainOne
    | Swap
    | RefillOne(symbol: string)
    | RefillDone
    | Read
    | End

  predicate Enabled(cap: nat, s: State, step: Step) {
    match step
    case SendFast(_) => s.phase.Idle? && |s.chan| < cap
    case SendFull(_) => s.phase.Idle? && |s.chan| >= cap
    case Replay(_) => s.phase.Idle?
    case DrainOne => s.phase.Draining? && s.chan != []
    case Swap => s.phase.Draining? && s.chan == []
    case RefillOne(k) => s.phase.Refilling? && k in s.phase.todo && |s.chan| < cap
    case RefillDone => s.phase.Refilling? && s.phase.todo == map[]
    case Read => !s.ended && s.chan != []
    case End => true
  }

  function Next(cap: nat, s: State, step: Step): State
    requires Enabled(cap, s, step)
  {
    match step
    case SendFast(e) => s.(chan := s.chan + [e], accepted := s.accepted + [e])
    case SendFull(e) => s.(phase := Draining(map[], e), accepted := s.accepted + [e])
    case Replay(e) => if |s.chan| < cap then s.(chan := s.chan + [e], accepted := s.accepted + [e]) else s
    case DrainOne => s.(chan := s.chan[1..], phase := s.phase.(latest := s.phase.latest[s.chan[0].symbol := s.chan[0]]))
    case Swap => s.(chan := [], phase := Refilling(s.phase.latest[s.phase.event.symbol := s.phase.event]))
    case RefillOne(k) => s.(chan := s.chan + [s.phase.todo[k]], phase := Refilling(s.phase.todo - {k}))
    case RefillDone => s.(phase := Idle)
    case Read => s.(chan := s.chan[1..], delivered := s.delivered + [s.chan[0]])
    case End => s.(ended := true)
  }

  /** `steps` can be taken from the start, in this order. */
  predicate IsRun(cap: nat, steps: seq<Step>)
    decreases |steps|, 0
  {
    steps == [] || (
      && IsRun(cap, steps[..|steps|-1])
      && Enabled(cap, Run(cap, steps[..|steps|-1]), steps[|steps|-1]))
  }

  function Run(cap: nat, steps: seq<Step>): State
    requires IsRun(cap, steps)
    decreases |steps|, 1
  {
    if steps == [] then START else Next(cap, Run(cap, steps[..|steps|-1]), steps[|steps|-1])
  }

  // ------------------------------------------------------------------
  // Nothing that matters is lost.
  // ------------------------------------------------------------------

  /** The last event of the symbol that is still to be delivered, in the order it will be decided. */
  function LastWaiting(s: State, symbol: string): Option<PriceEvent> {
    var queued := Of(s.chan, symbol);
    match s.phase
    case Idle => if queued != [] then Some(queued[|queued|-1]) else None
    case Draining(latest, e) =>
      if e.symbol == symbol then Some(e)
      else if queued != [] then Some(queued[|queued|-1])
      else if symbol in latest then Some(latest[symbol])
      else None
    case Refilling(todo) =>
      if symbol in todo then Some(todo[symbol])
      else if queued != [] then Some(queued[|queued|-1])
      else None
  }

  /** The last accepted event of the symbol was delivered, or is the last one waiting. */
  ghost predicate Safe(s: State, symbol: string) {
    var all := Of(s.accepted, symbol);
    all != [] ==> all[|all|-1] in s.delivered || LastWaiting(s, symbol) == Some(all[|all|-1])
  }

  /** Everything waiting or delivered was accepted, under its own symbol. */
  ghost predicate Genuine(s: State) {
    && (forall e <- s.chan :: e in s.accepted)
    && (forall e <- s.delivered :: e in s.accepted)
    && (s.phase.Draining? ==>
          && s.phase.event in s.accepted
          && forall k <- s.phase.latest :: s.phase.latest[k] in s.accepted && s.phase.latest[k].symbol == k)
    && (s.phase.Refilling? ==>
          && (forall k <- s.phase.todo :: s.phase.todo[k] in s.accepted && s.phase.todo[k].symbol == k)
          && (forall e <- s.chan :: e.symbol !in s.phase.todo))
  }

  lemma GenuineNext(cap: nat, s: State, step: Step)
    requires Genuine(s) && Enabled(cap, s, step)
    ensures !step.RefillOne? ==> Genuine(Next(cap, s, step))
  {
    assert s.chan != [] ==> forall e <- s.chan[1..] :: e in s.chan;
  }

  lemma GenuineRefill(cap: nat, s: State, k: string)
    requires Genuine(s) && Enabled(cap, s, RefillOne(k))
    ensures Genuine(Next(cap, s, RefillOne(k)))
  {
    var s' := Next(cap, s, RefillOne(k));
    forall e <- s'.chan ensures e in s'.accepted && e.symbol !in s'.phase.todo {
      assert e in s.chan || e == s.phase.todo[k];
    }
  }

  /** Taking the head off the channel. */
  lemma OfTail(es: seq<PriceEvent>, symbol: string)
    requires es != []
    ensures Of(es, symbol) == (if es[0].symbol == symbol then [es[0]] else []) + Of(es[1..], symbol)
  {
    assert es == [es[0]] + es[1..];
    OfConcat([es[0]], es[1..], symbol);
    OfAppend([], es[0], symbol);
    assert [] + [es[0]] == [es[0]];
  }

  lemma SafeNext(cap: nat, s: State, step: Step, symbol: string)
    requires Genuine(s) && Safe(s, symbol) && Enabled(cap, s, step)
    ensures Safe(Next(cap, s, step), symbol)
  {
    hide Of;
    match step
    case SendFast(e) =>
      OfAppend(s.accepted, e, symbol);
      OfAppend(s.chan, e, symbol);
    case SendFull(e) =>
      OfAppend(s.accepted, e, symbol);
    case Replay(e) =>
      OfAppend(s.accepted, e, symbol);
      OfAppend(s.chan, e, symbol);
    case DrainOne =>
      OfTail(s.chan, symbol);
    case Swap =>
      OfNothing(symbol);
    case RefillOne(k) =>
      OfAppend(s.chan, s.phase.todo[k], symbol);
    case RefillDone =>
    case Read =>
      OfTail(s.chan, symbol);
      SafeRead(s, symbol);
    case End =>
  }

  lemma OfNothing(symbol: string)
    ensures Of([], symbol) == []
  {
  }

  lemma SafeRead(s: State, symbol: string)
    requires Genuine(s) && Safe(s, symbol) && s.chan != []
    ensures Safe(s.(chan := s.chan[1..], delivered := s.delivered + [s.chan[0]]), symbol)
  {
    hide Of;
    OfTail(s.chan, symbol);
    var s' := s.(chan := s.chan[1..], delivered := s.delivered + [s.chan[0]]);
    assert forall e | e in s.delivered :: e in s'.delivered;
    assert s.chan[0] in s'.delivered;
  }

  /** In every run of every length: no event is invented, and no symbol loses its last event. */
  lemma {:induction false} NothingLost(cap: nat, steps: seq<Step>)
    requires IsRun(cap, steps)
    ensures Genuine(Run(cap, steps))
    ensures forall symbol :: Safe(Run(cap, steps), symbol)
  {
    if steps != [] {
      var init, last := steps[..|steps|-1], steps[|steps|-1];
      NothingLost(cap, init);
      var s := Run(cap, init);
      if last.RefillOne? {
        GenuineRefill(cap, s, last.symbol);
      } else {
        GenuineNext(cap, s, last);
      }
      forall symbol ensures Safe(Run(cap, steps), symbol) {
        SafeNext(cap, s, last, symbol);
      }
    }
  }

  // ------------------------------------------------------------------
  // Refilling never waits while the symbols fit.
  // ------------------------------------------------------------------

  predicate Queues(step: Step) {
    step.SendFast? || step.SendFull? || step.Replay?
  }

  ghost predicate Within(steps: seq<Step>, symbols: set<string>) {
    forall i | 0 <= i < |steps| :: Queues(steps[i]) ==> steps[i].e.symbol in symbols
  }

  /** What is left to refill and what was refilled are together no more than the symbols. */
  ghost predicate Roomy(s: State, symbols: set<string>) {
    && (forall e <- s.accepted :: e.symbol in symbols)
    && (s.phase.Refilling? ==> |s.chan| + |s.phase.todo| <= |symbols|)
  }

  lemma RoomyNext(cap: nat, s: State, step: Step, symbols: set<string>)
    requires Genuine(s) && Roomy(s, symbols) && Enabled(cap, s, step)
    requires Queues(step) ==> step.e.symbol in symbols
    ensures Roomy(Next(cap, s, step), symbols)
  {
    if step.Swap? {
      var todo := Next(cap, s, step).phase.todo;
      assert todo.Keys <= symbols;
      SubsetSize(todo.Keys, symbols);
    } else if step.RefillOne? {
      var todo := s.phase.todo;
      assert (todo - {step.symbol}).Keys == todo.Keys - {step.symbol};
    }
  }

  lemma {:induction false} RoomyRun(cap: nat, steps: seq<Step>, symbols: set<string>)
    requires IsRun(cap, steps) && Within(steps, symbols)
    ensures Roomy(Run(cap, steps), symbols)
  {
    if steps != [] {
      var init := steps[..|steps|-1];
      RoomyRun(cap, init, symbols);
      NothingLost(cap, init);
      RoomyNext(cap, Run(cap, init), steps[|steps|-1], symbols);
    }
  }

  /** While the symbols fit in the buffer, every refill can go on at once, whatever the reader does. */
  lemma RefillNeverWaits(cap: nat, steps: seq<Step>, symbols: set<string>, k: string)
    requires IsRun(cap, steps) && Within(steps, symbols) && |symbols| <= cap
    requires Run(cap, steps).phase.Refilling? && k in Run(cap, steps).phase.todo
    ensures Enabled(cap, Run(cap, steps), RefillOne(k))
  {
    RoomyRun(cap, steps, symbols);
    assert {k} <= Run(cap, steps).phase.todo.Keys;
    SubsetSize({k}, Run(cap, steps).phase.todo.Keys);
  }

  /**
   With more symbols a refill may find no room. It then waits for the reader and for nothing
   else: a read lets it go on, and once the reader has ended it waits for ever, with the mutex.
   */
  lemma WaitingRefill(cap: nat, s: State, k: string, step: Step)
    requires 0 < cap && s.phase.Refilling? && k in s.phase.todo && |s.chan| >= cap
    ensures step != End ==> (Enabled(cap, s, step) <==> step == Read && !s.ended)
    ensures !s.ended && |s.chan| == cap ==> Enabled(cap, Next(cap, s, Read), RefillOne(k))
  {
  }

  // ------------------------------------------------------------------
  // A drained slow client shows what an unbounded queue would show.
  // ------------------------------------------------------------------

  /** Later events of a symbol carry no smaller timestamp. */
  ghost predicate InTimeOrder(es: seq<PriceEvent>) {
    forall i, j | 0 <= i <= j < |es| && es[i].symbol == es[j].symbol :: AtMost(es[i].publishedAt, es[j].publishedAt)
  }

  lemma {:induction false} LastOf(es: seq<PriceEvent>, symbol: string) returns (j: nat)
    requires Mentions(es, symbol)
    ensures Of(es, symbol) != [] && j < |es| && es[j] == Of(es, symbol)[|Of(es, symbol)|-1]
    ensures forall i | j < i < |es| :: es[i].symbol != symbol
    ensures es[j].symbol == symbol
  {
    var n := |es|;
    if es[n-1].symbol == symbol {
      j := n - 1;
    } else {
      var i :| 0 <= i < n && es[i].symbol == symbol;
      assert es[..n-1][i] == es[i];
      j := LastOf(es[..n-1], symbol);
      assert forall i | j < i < n - 1 :: es[i] == es[..n-1][i];
    }
  }

  lemma LastIsLatest(es: seq<PriceEvent>, symbol: string)
    requires InTimeOrder(es) && Mentions(es, symbol)
    ensures Of(es, symbol) != []
    ensures var e := Of(es, symbol)[|Of(es, symbol)|-1];
            e.symbol == symbol && IsLatest(es, e)
  {
    var j := LastOf(es, symbol);
    forall f | f in es && f.symbol == symbol ensures AtMost(f.publishedAt, es[j].publishedAt) {
      var i :| 0 <= i < |es| && es[i] == f;
      assert i <= j;
    }
  }

  /** Delivered events that hold every symbol's last accepted event are enough for the table. */
  lemma DeliveredKeepsLatest(delivered: seq<PriceEvent>, accepted: seq<PriceEvent>)
    requires InTimeOrder(accepted)
    requires forall e <- delivered :: e in accepted
    requires forall symbol :: Of(accepted, symbol) != [] ==> Of(accepted, symbol)[|Of(accepted, symbol)|-1] in delivered
    ensures KeepsLatest(delivered, accepted)
  {
    hide Of;
    forall symbol | Mentions(accepted, symbol) ensures HasLatest(delivered, accepted, symbol) {
      LastIsLatest(accepted, symbol);
    }
  }

  /**
   Once a slow client has caught up, its table shows for every symbol what a client with
   an unbounded queue would show, in every run, also when the reader took events from
   under a compaction.
   */
  lemma CaughtUpShowsTheSame(cap: nat, steps: seq<Step>, snapshot: seq<Row>, symbol: string)
    requires IsRun(cap, steps) && Run(cap, steps).phase.Idle? && Run(cap, steps).chan == []
    requires InTimeOrder(Run(cap, steps).accepted) && OneRowPerSymbol(snapshot)
    requires LatestAlike(snapshot, Run(cap, steps).accepted)
    ensures var s := Run(cap, steps);
            Find(Session([], snapshot, s.delivered).markets, symbol) ==
            Find(Session([], snapshot, s.accepted).markets, symbol)
  {
    hide Run;
    hide IsRun;
    hide Of;
    hide Safe;
    hide KeepsLatest;
    hide Session;
    hide Find;
    hide LatestAlike;
    hide InTimeOrder;
    var s := Run(cap, steps);
    NothingLost(cap, steps);
    forall k ensures Of(s.accepted, k) != [] ==> Of(s.accepted, k)[|Of(s.accepted, k)|-1] in s.delivered {
      LastIsDelivered(s, k);
    }
    DeliveredKeepsLatest(s.delivered, s.accepted);
    SessionLatestSuffices(snapshot, s.accepted, s.delivered, symbol);
  }

  lemma LastIsDelivered(s: State, symbol: string)
    requires Safe(s, symbol) && s.phase.Idle? && s.chan == []
    ensures var all := Of(s.accepted, symbol); all != [] ==> all[|all|-1] in s.delivered
  {
    OfNothing(symbol);
    hide Of;
  }

  // ------------------------------------------------------------------
  // The order of a symbol's events is not kept by the race.
  // ------------------------------------------------------------------

  /** The events of the symbol still to be delivered, in the order they will be. */
  function Waiting(s: State, symbol: string): seq<PriceEvent> {
    match s.phase
    case Idle => Of(s.chan, symbol)
    case Draining(latest, e) =>
      (if symbol in latest then [latest[symbol]] else []) + Of(s.chan, symbol) + if e.symbol == symbol then [e] else []
    case Refilling(todo) => Of(s.chan, symbol) + if symbol in todo then [todo[symbol]] else []
  }

  /** Delivered and waiting events of the symbol stand for those accepted. */
  ghost predicate InOrder(s: State, symbol: string) {
    Faithful(Of(s.delivered, symbol) + Waiting(s, symbol), Of(s.accepted, symbol))
  }

  /** The reader takes an event while an older one of its symbol is already in the compaction map. */
  predicate Overtakes(s: State, step: Step) {
    step.Read? && s.phase.Draining? && s.chan != [] && s.chan[0].symbol in s.phase.latest
  }

  predicate NeverOvertakes(cap: nat, steps: seq<Step>)
    requires IsRun(cap, steps)
  {
    steps == [] || (
      && NeverOvertakes(cap, steps[..|steps|-1])
      && !Overtakes(Run(cap, steps[..|steps|-1]), steps[|steps|-1]))
  }

  lemma NothingIsFaithful()
    ensures Faithful([] + [], [])
  {
  }

  /** An accepted event goes to the end of what is waiting. */
  lemma FaithfulAppend(d: seq<PriceEvent>, w: seq<PriceEvent>, all: seq<PriceEvent>, e: PriceEvent)
    requires Faithful(d + w, all)
    ensures Faithful(d + (w + [e]), all + [e])
  {
    SubAppend(d + w, all, e);
    assert d + w + [e] == d + (w + [e]);
  }

  /** An event that is not the last one waiting may be left out. */
  lemma FaithfulDrop(d: seq<PriceEvent>, x: PriceEvent, w: seq<PriceEvent>, all: seq<PriceEvent>)
    requires Faithful(d + ([x] + w), all) && w != []
    ensures Faithful(d + w, all)
  {
    hide Sub;
    var out := d + ([x] + w);
    SubDrop(out, all, |d|);
    assert out[..|d|] + out[|d|+1..] == d + w;
  }

  lemma OrderSend(cap: nat, s: State, step: Step, symbol: string)
    requires InOrder(s, symbol) && Enabled(cap, s, step) && (step.SendFast? || step.SendFull?)
    ensures InOrder(Next(cap, s, step), symbol)
  {
    hide Of;
    hide Faithful;
    var s', w := Next(cap, s, step), Of(s.chan, symbol);
    OfAppend(s.accepted, step.e, symbol);
    WaitingSend(cap, s, step, symbol);
    assert s'.accepted == s.accepted + [step.e] && s'.delivered == s.delivered;
    assert Waiting(s, symbol) == w;
    hide Next;
    hide Waiting;
    if step.e.symbol == symbol {
      FaithfulAppend(Of(s.delivered, symbol), w, Of(s.accepted, symbol), step.e);
    } else {
      assert w + [] == w;
    }
  }

  lemma WaitingSend(cap: nat, s: State, step: Step, symbol: string)
    requires Enabled(cap, s, step) && (step.SendFast? || step.SendFull?)
    ensures Waiting(Next(cap, s, step), symbol) == Of(s.chan, symbol) + if step.e.symbol == symbol then [step.e] else []
  {
    hide Of;
    OfAppend(s.chan, step.e, symbol);
  }

  /** Draining moves a symbol's event into the map, in place of an older one. */
  lemma OrderDrain(cap: nat, s: State, symbol: string)
    requires InOrder(s, symbol) && Enabled(cap, s, DrainOne)
    ensures InOrder(Next(cap, s, DrainOne), symbol)
  {
    hide Of;
    hide Faithful;
    OfTail(s.chan, symbol);
    var w, w' := Waiting(s, symbol), Waiting(Next(cap, s, DrainOne), symbol);
    if s.chan[0].symbol == symbol && symbol in s.phase.latest {
      assert w == [s.phase.latest[symbol]] + w';
      FaithfulDrop(Of(s.delivered, symbol), s.phase.latest[symbol], w', Of(s.accepted, symbol));
    } else {
      assert w == w';
    }
  }

  lemma OrderSwap(cap: nat, s: State, symbol: string)
    requires InOrder(s, symbol) && Enabled(cap, s, Swap)
    ensures InOrder(Next(cap, s, Swap), symbol)
  {
    hide Of;
    hide Faithful;
    OfNothing(symbol);
    var w, w' := Waiting(s, symbol), Waiting(Next(cap, s, Swap), symbol);
    if s.phase.event.symbol == symbol && symbol in s.phase.latest {
      assert w == [s.phase.latest[symbol]] + w';
      FaithfulDrop(Of(s.delivered, symbol), s.phase.latest[symbol], w', Of(s.accepted, symbol));
    } else {
      assert w == w';
    }
  }

  lemma OrderRefill(cap: nat, s: State, k: string, symbol: string)
    requires Genuine(s) && InOrder(s, symbol) && Enabled(cap, s, RefillOne(k))
    ensures InOrder(Next(cap, s, RefillOne(k)), symbol)
  {
    hide Of;
    hide Faithful;
    OfAppend(s.chan, s.phase.todo[k], symbol);
    assert Waiting(Next(cap, s, RefillOne(k)), symbol) == Waiting(s, symbol);
  }

  lemma OrderRead(s: State, cap: nat, symbol: string)
    requires InOrder(s, symbol) && Enabled(cap, s, Read) && !Overtakes(s, Read)
    ensures InOrder(Next(cap, s, Read), symbol)
  {
    hide Of;
    hide Faithful;
    var s', h := Next(cap, s, Read), s.chan[0];
    var head := if h.symbol == symbol then [h] else [];
    OfAppend(s.delivered, h, symbol);
    WaitingRead(s, cap, symbol);
    hide Waiting;
    hide Next;
    assert Of(s'.delivered, symbol) == Of(s.delivered, symbol) + head;
    assert Of(s'.delivered, symbol) + Waiting(s', symbol) == Of(s.delivered, symbol) + Waiting(s, symbol);
  }

  /** A read that overtakes nothing takes the first event waiting, if it is one of the symbol. */
  lemma WaitingRead(s: State, cap: nat, symbol: string)
    requires Enabled(cap, s, Read) && !Overtakes(s, Read)
    ensures Waiting(s, symbol) ==
              (if s.chan[0].symbol == symbol then [s.chan[0]] else []) + Waiting(Next(cap, s, Read), symbol)
  {
    hide Of;
    OfTail(s.chan, symbol);
  }

  /**
   As long as the reader overtakes no drained event, a symbol's events are delivered in
   the order they were accepted, some left out, the last one included.
   */
  lemma {:induction false} OrderKeptUnlessOvertaken(cap: nat, steps: seq<Step>, symbol: string)
    requires IsRun(cap, steps) && NeverOvertakes(cap, steps)
    ensures InOrder(Run(cap, steps), symbol)
  {
    hide Of;
    hide Faithful;
    hide Sub;
    if steps == [] {
      OfNothing(symbol);
      NothingIsFaithful();
    } else {
      var init, last := steps[..|steps|-1], steps[|steps|-1];
      OrderKeptUnlessOvertaken(cap, init, symbol);
      var s := Run(cap, init);
      match last
      case SendFast(_) => OrderSend(cap, s, last, symbol);
      case SendFull(_) => OrderSend(cap, s, last, symbol);
      case Replay(e) =>
        if |s.chan| < cap {
          OrderSend(cap, s, SendFast(e), symbol);
        }
      case DrainOne => OrderDrain(cap, s, symbol);
      case Swap => OrderSwap(cap, s, symbol);
      case RefillOne(k) =>
        NothingLost(cap, init);
        OrderRefill(cap, s, k, symbol);
      case RefillDone =>
        assert Waiting(Run(cap, steps), symbol) == Waiting(s, symbol);
      case Read => OrderRead(s, cap, symbol);
      case End =>
    }
  }

  // ------------------------------------------------------------------
  // The condition is exact.
  // ------------------------------------------------------------------

  /** The event is there at most once. */
  predicate Single(es: seq<PriceEvent>, e: PriceEvent) {
    forall i, j | 0 <= i < j < |es| :: es[i] == e ==> es[j] != e
  }

  /** Two unrepeated events are not swapped between two subsequences. */
  lemma NeverSwapped(a: seq<PriceEvent>, a': seq<PriceEvent>, b: seq<PriceEvent>, i: nat)
    requires i + 1 < |a| && i + 1 < |a'| && a[i] == a'[i+1] && a[i+1] == a'[i]
    requires Single(b, a[i]) && Single(b, a[i+1]) && Sub(a, b)
    ensures !Sub(a', b)
  {
    hide Sub;
    var p, q := SubPair(a, b, i, i + 1);
    if Sub(a', b) {
      var p', q' := SubPair(a', b, i, i + 1);
      SamePlace(b, p, q');
      SamePlace(b, q, p');
    }
  }

  lemma SamePlace(b: seq<PriceEvent>, i: nat, j: nat)
    requires i < |b| && j < |b| && b[i] == b[j] && Single(b, b[i])
    ensures i == j
  {
  }

  lemma {:induction false} OfSingle(es: seq<PriceEvent>, symbol: string, e: PriceEvent)
    requires Single(es, e)
    ensures Single(Of(es, symbol), e) && (e in Of(es, symbol) ==> e in es)
  {
    if es != [] {
      var init := es[..|es|-1];
      OfSingle(init, symbol, e);
      assert e in init ==> e in es;
      assert es[|es|-1] == e ==> e !in init;
    }
  }

  /** A read that overtakes delivers two events of the symbol in the wrong order. */
  lemma OvertakingReorders(cap: nat, s: State, step: Step)
    requires Enabled(cap, s, step) && Overtakes(s, step) && UnrepeatedPair(s)
    requires InOrder(s, s.chan[0].symbol)
    ensures !InOrder(Next(cap, s, step), s.chan[0].symbol)
  {
    hide Of;
    hide Sub;
    var h := s.chan[0];
    var symbol := h.symbol;
    var l, s' := s.phase.latest[symbol], Next(cap, s, step);
    OfTail(s.chan, symbol);
    OfAppend(s.delivered, h, symbol);
    OfSingle(s.accepted, symbol, l);
    OfSingle(s.accepted, symbol, h);
    hide Single;
    var d := Of(s.delivered, symbol);
    var out, out' := d + Waiting(s, symbol), Of(s'.delivered, symbol) + Waiting(s', symbol);
    assert out[|d|] == l && out[|d|+1] == h;
    assert out'[|d|] == h && out'[|d|+1] == l;
    NeverSwapped(out, out', Of(s.accepted, symbol), |d|);
  }

  /** Neither the event next in the drained channel nor the one of its symbol in the map was accepted twice. */
  predicate UnrepeatedPair(s: State) {
    s.phase.Draining? && s.chan != [] && s.chan[0].symbol in s.phase.latest ==>
      Single(s.accepted, s.chan[0]) && Single(s.accepted, s.phase.latest[s.chan[0].symbol])
  }

  /** No read overtakes an event, or is overtaken by one, that was accepted twice. */
  ghost predicate OvertakesUnrepeated(cap: nat, steps: seq<Step>)
    requires IsRun(cap, steps)
  {
    steps == [] || (
      && OvertakesUnrepeated(cap, steps[..|steps|-1])
      && (Overtakes(Run(cap, steps[..|steps|-1]), steps[|steps|-1]) ==> UnrepeatedPair(Run(cap, steps[..|steps|-1]))))
  }

  /** Every symbol's events are in order at this moment. */
  ghost predicate AllInOrder(s: State) {
    forall symbol :: InOrder(s, symbol)
  }

  /** Every symbol's events have been in order at every moment of the run. */
  ghost predicate AlwaysInOrder(cap: nat, steps: seq<Step>)
    requires IsRun(cap, steps)
  {
    AllInOrder(Run(cap, steps)) && (steps == [] || AlwaysInOrder(cap, steps[..|steps|-1]))
  }

  /**
   For every run whose overtaken events are unrepeated: the events of every symbol are in order
   at every moment of the run if and only if the reader never overtakes a drained event.
   */
  lemma {:induction false} OrderKeptIffNeverOvertaken(cap: nat, steps: seq<Step>)
    requires IsRun(cap, steps) && OvertakesUnrepeated(cap, steps)
    ensures AlwaysInOrder(cap, steps) <==> NeverOvertakes(cap, steps)
  {
    hide InOrder;
    hide UnrepeatedPair;
    if NeverOvertakes(cap, steps) {
      forall symbol ensures InOrder(Run(cap, steps), symbol) {
        OrderKeptUnlessOvertaken(cap, steps, symbol);
      }
    }
    if steps != [] {
      var init, last := steps[..|steps|-1], steps[|steps|-1];
      OrderKeptIffNeverOvertaken(cap, init);
      var s := Run(cap, init);
      if AlwaysInOrder(cap, steps) && Overtakes(s, last) {
        OvertakingReorders(cap, s, last);
      }
    }
  }

  lemma Snoc(cap: nat, steps: seq<Step>, step: Step) returns (more: seq<Step>)
    requires IsRun(cap, steps) && Enabled(cap, Run(cap, steps), step)
    ensures more == steps + [step] && IsRun(cap, more) && Run(cap, more) == Next(cap, Run(cap, steps), step)
  {
    more := steps + [step];
    assert more[..|more|-1] == steps;
  }

  lemma NoSteps(cap: nat)
    ensures IsRun(cap, []) && Run(cap, []) == START
  {
  }

  lemma OvertakingCompaction(a1: PriceEvent, a2: PriceEvent, b: PriceEvent) returns (steps: seq<Step>)
    requires a1.symbol == a2.symbol != b.symbol
    ensures IsRun(2, steps)
    ensures Run(2, steps) == State([], Refilling(map[a1.symbol := a1, b.symbol := b]), [a1, a2, b], [a2], false)
  {
    hide IsRun;
    hide Run;
    NoSteps(2);
    steps := Snoc(2, [], SendFast(a1));
    steps := Snoc(2, steps, SendFast(a2));
    steps := Snoc(2, steps, SendFull(b));
    assert Run(2, steps) == State([a1, a2], Draining(map[], b), [a1, a2, b], [], false);
    steps := Snoc(2, steps, DrainOne);
    assert Run(2, steps) == State([a2], Draining(map[a1.symbol := a1], b), [a1, a2, b], [], false);
    steps := Snoc(2, steps, Read);
    steps := Snoc(2, steps, Swap);
    assert map[a1.symbol := a1][b.symbol := b] == map[a1.symbol := a1, b.symbol := b];
  }

  /**
   The reader takes the newer of two events of one symbol while the older one is already
   in the compaction map: the older one is then delivered last.
   */
  lemma ReaderCanReorder(a1: PriceEvent, a2: PriceEvent, b: PriceEvent) returns (steps: seq<Step>)
    requires a1.symbol == a2.symbol != b.symbol
    ensures IsRun(2, steps)
    ensures Run(2, steps).accepted == [a1, a2, b] && Run(2, steps).delivered == [a2, a1, b]
  {
    hide IsRun;
    hide Run;
    steps := OvertakingCompaction(a1, a2, b);
    var todo := map[a1.symbol := a1, b.symbol := b];
    assert todo - {a1.symbol} == map[b.symbol := b] && map[b.symbol := b] - {b.symbol} == map[];
    steps := Snoc(2, steps, RefillOne(a1.symbol));
    steps := Snoc(2, steps, RefillOne(b.symbol));
    steps := Snoc(2, steps, RefillDone);
    steps := Snoc(2, steps, Read);
    steps := Snoc(2, steps, Read);
  }
}
