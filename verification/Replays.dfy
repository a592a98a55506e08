/**
 Delivery with replays. SendReplay queues old events behind what waits, and compaction goes
 by queue position, so a symbol's latest event can be displaced by an older one.
 */
module ReplayRuns {
  import opened Basics
  import opened PriceEvents
  import opened MarketViews
  import opened DeliveryRace

  /** The event is in line for delivery. */
  predicate Waits(s: State, e: PriceEvent) {
    || e in s.chan
    || (s.phase.Draining? && (e == s.phase.event || (e.symbol in s.phase.latest && s.phase.latest[e.symbol] == e)))
    || (s.phase.Refilling? && e.symbol in s.phase.todo && s.phase.todo[e.symbol] == e)
  }

  predicate Held(s: State, e: PriceEvent) {
    e in s.delivered || Waits(s, e)
  }

  /** An event of the symbol with the greatest accepted timestamp was delivered or is in line. */
  ghost predicate Current(s: State, symbol: string) {
    Mentions(s.accepted, symbol) ==> exists e: PriceEvent :: e.symbol == symbol && IsLatest(s.accepted, e) && Held(s, e)
  }

  /** The step puts an event in the place of another one in the compaction map. */
  predicate Overwrites(s: State, step: Step) {
    && s.phase.Draining?
    && ((step.DrainOne? && s.chan != [] && s.chan[0].symbol in s.phase.latest)
        || (step.Swap? && s.phase.event.symbol in s.phase.latest))
  }

  function Incoming(s: State, step: Step): PriceEvent
    requires Overwrites(s, step)
  {
    if step.DrainOne? then s.chan[0] else s.phase.event
  }

  function Outgoing(s: State, step: Step): PriceEvent
    requires Overwrites(s, step)
  {
    s.phase.latest[Incoming(s, step).symbol]
  }

  /** A latest event gives its place to one that is not. */
  ghost predicate Displaces(s: State, step: Step) {
    && Overwrites(s, step)
    && IsLatest(s.accepted, Outgoing(s, step)) && !IsLatest(s.accepted, Incoming(s, step))
  }

  /** The event is delivered, or in line in a place that the overwriting step does not touch. */
  predicate Elsewhere(s: State, step: Step, e: PriceEvent)
    requires Overwrites(s, step)
  {
    e in s.delivered || (step.DrainOne? && (e in s.chan[1..] || e == s.phase.event))
  }

  /** A latest event gives its place to one that is not, and no latest event of the symbol is elsewhere. */
  ghost predicate Loses(s: State, step: Step) {
    && Displaces(s, step)
    && forall e: PriceEvent | e.symbol == Incoming(s, step).symbol && IsLatest(s.accepted, e) :: !Elsewhere(s, step, e)
  }

  ghost predicate NeverLoses(cap: nat, steps: seq<Step>)
    requires IsRun(cap, steps)
  {
    steps == [] || (
      && NeverLoses(cap, steps[..|steps|-1])
      && !Loses(Run(cap, steps[..|steps|-1]), steps[|steps|-1]))
  }

  // ------------------------------------------------------------------
  // While no latest event is lost, every symbol stays current.
  // ------------------------------------------------------------------

  lemma HeldNext(cap: nat, s: State, step: Step, e: PriceEvent)
    requires Genuine(s) && Enabled(cap, s, step) && Held(s, e)
    requires Overwrites(s, step) ==> e != Outgoing(s, step)
    ensures Held(Next(cap, s, step), e)
  {
    if (step.DrainOne? || step.Read?) && e in s.chan {
      assert s.chan == [s.chan[0]] + s.chan[1..];
    }
  }

  lemma IncomingHeld(cap: nat, s: State, step: Step)
    requires Enabled(cap, s, step) && Overwrites(s, step)
    ensures Held(Next(cap, s, step), Incoming(s, step))
  {
  }

  lemma ElsewhereHeld(cap: nat, s: State, step: Step, e: PriceEvent)
    requires Enabled(cap, s, step) && Overwrites(s, step) && Elsewhere(s, step, e)
    ensures Held(Next(cap, s, step), e)
  {
  }

  lemma CurrentQueue(cap: nat, s: State, step: Step, symbol: string)
    requires Genuine(s) && Current(s, symbol) && Enabled(cap, s, step) && Queues(step)
    ensures Current(Next(cap, s, step), symbol)
  {
    hide IsLatest;
    var s' := Next(cap, s, step);
    if s'.accepted == s.accepted + [step.e] {
      assert Held(s', step.e);
      if Mentions(s.accepted, symbol) {
        var f: PriceEvent :| f.symbol == symbol && IsLatest(s.accepted, f) && Held(s, f);
        HeldNext(cap, s, step, f);
        if step.e.symbol == symbol {
          FurtherOfSymbol(s.accepted, f, step.e);
        } else {
          OtherSymbol(s.accepted, step.e, symbol);
        }
      } else if step.e.symbol == symbol {
        FirstOfSymbol(s.accepted, step.e);
      } else {
        OtherSymbol(s.accepted, step.e, symbol);
      }
    } else {
      assert s' == s;
    }
  }

  /** What takes the place of a latest event, or stands in for it, is held afterwards. */
  lemma CurrentOverwrite(cap: nat, s: State, step: Step)
    requires Enabled(cap, s, step) && Overwrites(s, step) && !Loses(s, step)
    requires IsLatest(s.accepted, Outgoing(s, step)) && Outgoing(s, step).symbol == Incoming(s, step).symbol
    ensures Current(Next(cap, s, step), Incoming(s, step).symbol)
  {
    hide IsLatest;
    hide Held;
    if Displaces(s, step) {
      var g: PriceEvent :|
        g.symbol == Incoming(s, step).symbol && IsLatest(s.accepted, g) && Elsewhere(s, step, g);
      ElsewhereHeld(cap, s, step, g);
    } else {
      IncomingHeld(cap, s, step);
    }
  }

  lemma CurrentNext(cap: nat, s: State, step: Step, symbol: string)
    requires Genuine(s) && Current(s, symbol) && Enabled(cap, s, step) && !Loses(s, step)
    ensures Current(Next(cap, s, step), symbol)
  {
    hide IsLatest;
    hide Held;
    hide Loses;
    if Queues(step) {
      CurrentQueue(cap, s, step, symbol);
    } else if Mentions(s.accepted, symbol) {
      var f: PriceEvent :| f.symbol == symbol && IsLatest(s.accepted, f) && Held(s, f);
      if Overwrites(s, step) && f == Outgoing(s, step) {
        CurrentOverwrite(cap, s, step);
      } else {
        HeldNext(cap, s, step, f);
      }
    }
  }

  /** In every run in which no latest event is lost, replays or not, every symbol is current. */
  lemma {:induction false} UnlostIsCurrent(cap: nat, steps: seq<Step>, symbol: string)
    requires IsRun(cap, steps) && NeverLoses(cap, steps)
    ensures Current(Run(cap, steps), symbol)
  {
    hide Current;
    hide Loses;
    if steps == [] {
      NothingAccepted(symbol);
    } else {
      var init := steps[..|steps|-1];
      UnlostIsCurrent(cap, init, symbol);
      NothingLost(cap, init);
      hide Genuine;
      CurrentNext(cap, Run(cap, init), steps[|steps|-1], symbol);
    }
  }

  lemma NothingAccepted(symbol: string)
    ensures Current(START, symbol)
  {
  }

  lemma UnlostKeepsLatest(cap: nat, steps: seq<Step>)
    requires IsRun(cap, steps) && Run(cap, steps).phase.Idle? && Run(cap, steps).chan == []
    requires NeverLoses(cap, steps)
    ensures KeepsLatest(Run(cap, steps).delivered, Run(cap, steps).accepted)
  {
    hide IsLatest;
    hide Run;
    hide NeverLoses;
    var s := Run(cap, steps);
    NothingLost(cap, steps);
    forall k | Mentions(s.accepted, k) ensures HasLatest(s.delivered, s.accepted, k) {
      UnlostIsCurrent(cap, steps, k);
    }
  }

  /**
   Once caught up after such a run, the table shows what an unbounded queue would show,
   in whatever order events came.
   */
  lemma UnlostShowsTheSame(cap: nat, steps: seq<Step>, snapshot: seq<Row>, symbol: string)
    requires IsRun(cap, steps) && Run(cap, steps).phase.Idle? && Run(cap, steps).chan == []
    requires NeverLoses(cap, steps) && LatestAlike(snapshot, Run(cap, steps).accepted) && OneRowPerSymbol(snapshot)
    ensures var s := Run(cap, steps);
            Find(Session([], snapshot, s.delivered).markets, symbol) ==
            Find(Session([], snapshot, s.accepted).markets, symbol)
  {
    hide KeepsLatest;
    hide Session;
    hide NeverLoses;
    UnlostKeepsLatest(cap, steps);
    SessionLatestSuffices(snapshot, Run(cap, steps).accepted, Run(cap, steps).delivered, symbol);
  }

  // ------------------------------------------------------------------
  // The condition is exact.
  // ------------------------------------------------------------------

  /** After a losing step no latest event of the symbol is left. */
  lemma LosingLeavesNone(cap: nat, s: State, step: Step)
    requires Genuine(s) && Enabled(cap, s, step) && Loses(s, step)
    ensures !Current(Next(cap, s, step), Incoming(s, step).symbol)
  {
    var x, s' := Incoming(s, step), Next(cap, s, step);
    OnlyIncomingOrElsewhere(cap, s, step);
    MentionsMember(s.accepted, Outgoing(s, step));
    hide IsLatest;
    hide Held;
    forall e: PriceEvent | e.symbol == x.symbol && IsLatest(s'.accepted, e) ensures !Held(s', e) {
      assert e != x && !Elsewhere(s, step, e);
    }
  }

  /** After an overwriting step the events of the symbol are the incoming one and those elsewhere. */
  lemma OnlyIncomingOrElsewhere(cap: nat, s: State, step: Step)
    requires Genuine(s) && Enabled(cap, s, step) && Overwrites(s, step)
    ensures Outgoing(s, step).symbol == Incoming(s, step).symbol
    ensures forall e: PriceEvent | e.symbol == Incoming(s, step).symbol && Held(Next(cap, s, step), e) ::
              e == Incoming(s, step) || Elsewhere(s, step, e)
  {
  }

  ghost predicate AllCurrent(s: State) {
    forall symbol :: Current(s, symbol)
  }

  /** Every symbol has been current at every moment of the run. */
  ghost predicate AlwaysCurrent(cap: nat, steps: seq<Step>)
    requires IsRun(cap, steps)
  {
    AllCurrent(Run(cap, steps)) && (steps == [] || AlwaysCurrent(cap, steps[..|steps|-1]))
  }

  /**
   For every run, live and replayed events mixed and repeated at will: every symbol is current
   at every moment if and only if no compaction step loses a symbol's latest event.
   */
  lemma {:induction false} CurrentIffNeverLost(cap: nat, steps: seq<Step>)
    requires IsRun(cap, steps)
    ensures AlwaysCurrent(cap, steps) <==> NeverLoses(cap, steps)
  {
    hide Current;
    hide Loses;
    if NeverLoses(cap, steps) {
      forall symbol ensures Current(Run(cap, steps), symbol) {
        UnlostIsCurrent(cap, steps, symbol);
      }
    }
    if steps != [] {
      var init, last := steps[..|steps|-1], steps[|steps|-1];
      CurrentIffNeverLost(cap, init);
      var s := Run(cap, init);
      if AlwaysCurrent(cap, steps) && Loses(s, last) {
        NothingLost(cap, init);
        LosingLeavesNone(cap, s, last);
      }
    }
  }

  // ------------------------------------------------------------------
  // A replay can leave a stale row.
  // ------------------------------------------------------------------

  lemma StaleQueue(live: PriceEvent, old_: PriceEvent, e: PriceEvent) returns (steps: seq<Step>)
    ensures IsRun(2, steps)
    ensures Run(2, steps) == State([live, old_], Draining(map[], e), [live, old_, e], [], false)
  {
    hide IsRun;
    hide Run;
    NoSteps(2);
    steps := Snoc(2, [], SendFast(live));
    steps := Snoc(2, steps, Replay(old_));
    steps := Snoc(2, steps, SendFull(e));
  }

  lemma StaleCompaction(live: PriceEvent, old_: PriceEvent, e: PriceEvent) returns (steps: seq<Step>)
    requires live.symbol == old_.symbol != e.symbol
    ensures IsRun(2, steps)
    ensures Run(2, steps) == State([], Refilling(map[live.symbol := old_, e.symbol := e]), [live, old_, e], [], false)
  {
    hide IsRun;
    hide Run;
    steps := StaleQueue(live, old_, e);
    steps := Snoc(2, steps, DrainOne);
    assert Run(2, steps) == State([old_], Draining(map[live.symbol := live], e), [live, old_, e], [], false);
    steps := Snoc(2, steps, DrainOne);
    steps := Snoc(2, steps, Swap);
    assert map[live.symbol := live][live.symbol := old_][e.symbol := e] == map[live.symbol := old_, e.symbol := e];
    assert [live] + [old_] + [e] == [live, old_, e];
  }

  lemma StaleRun(live: PriceEvent, old_: PriceEvent, e: PriceEvent) returns (steps: seq<Step>)
    requires live.symbol == old_.symbol != e.symbol
    ensures IsRun(2, steps) && Run(2, steps) == State([], Idle, [live, old_, e], [old_, e], false)
  {
    hide IsRun;
    hide Run;
    steps := StaleCompaction(live, old_, e);
    var todo := map[live.symbol := old_, e.symbol := e];
    assert todo - {live.symbol} == map[e.symbol := e] && map[e.symbol := e] - {e.symbol} == map[];
    steps := Snoc(2, steps, RefillOne(live.symbol));
    steps := Snoc(2, steps, RefillOne(e.symbol));
    steps := Snoc(2, steps, RefillDone);
    steps := Snoc(2, steps, Read);
    steps := Snoc(2, steps, Read);
  }

  /** On an empty snapshot the table shows a symbol's latest event. */
  lemma ShowsOnly(es: seq<PriceEvent>, e: PriceEvent)
    requires TiesAgree(es) && IsLatest(es, e)
    ensures Find(Session([], [], es).markets, e.symbol) == Some(RowOf(e, e.symbol))
  {
    hide IsLatest;
    hide Session;
    TiesAreAlike([], es);
    hide TiesAgree;
    hide LatestAlike;
    assert [] + es == es;
    SessionShowsLatest([], [], es, e.symbol);
  }

  /**
   A buffer of two takes a live event, a replayed older one of its symbol and one more event.
   The reader then catches up, and the table shows the old row where an unbounded queue would
   show the live one.
   */
  lemma ReplayLeavesStaleRow(live: PriceEvent, old_: PriceEvent, e: PriceEvent) returns (steps: seq<Step>)
    requires live.symbol == old_.symbol != e.symbol
    requires AtMost(old_.publishedAt, live.publishedAt) && old_.publishedAt != live.publishedAt
    ensures IsRun(2, steps)
    ensures var s := Run(2, steps);
            && s.phase.Idle? && s.chan == [] && !s.ended
            && Find(Session([], [], s.delivered).markets, live.symbol) == Some(RowOf(old_, live.symbol))
            && Find(Session([], [], s.accepted).markets, live.symbol) == Some(RowOf(live, live.symbol))
  {
    hide IsRun;
    hide Run;
    hide Session;
    hide Find;
    hide IsLatest;
    hide TiesAgree;
    steps := StaleRun(live, old_, e);
    LiveIsLatest(live, old_, e);
    ShowsOnly([live, old_, e], live);
    ShowsOnly([old_, e], old_);
  }

  lemma LiveIsLatest(live: PriceEvent, old_: PriceEvent, e: PriceEvent)
    requires live.symbol == old_.symbol != e.symbol
    requires AtMost(old_.publishedAt, live.publishedAt) && old_.publishedAt != live.publishedAt
    ensures IsLatest([live, old_, e], live) && TiesAgree([live, old_, e])
    ensures IsLatest([old_, e], old_) && TiesAgree([old_, e])
  {
    AtMostTotal(live.publishedAt, live.publishedAt);
    AtMostTotal(old_.publishedAt, old_.publishedAt);
    hide AtMost;
  }
}
