/**
 One SSE client's bounded event buffer with latest-state-wins compaction
 (internal/subscriber/client.go).

 Every method is one critical section of the client's mutex, and taking an event for
 the wire is one atomic step. DeliveryRace.dfy drops the last simplification.
 */
module Clients {
  import opened PriceEvents

  /** The events of one symbol, in order. */
  function Of(es: seq<PriceEvent>, symbol: string): seq<PriceEvent> {
    if es == [] then []
    else Of(es[..|es|-1], symbol) + if es[|es|-1].symbol == symbol then [es[|es|-1]] else []
  }

  /** The last event of every symbol: the map that compaction builds. */
  function LatestMap(es: seq<PriceEvent>): (m: map<string, PriceEvent>)
    ensures forall k <- m :: m[k].symbol == k
  {
    if es == [] then map[]
    else LatestMap(es[..|es|-1])[es[|es|-1].symbol := es[|es|-1]]
  }

  /** `es` lists the values of `m`, in any order, once each. */
  ghost predicate Arranges(m: map<string, PriceEvent>, es: seq<PriceEvent>) {
    && (forall i | 0 <= i < |es| :: es[i].symbol in m && m[es[i].symbol] == es[i])
    && (forall i, j | 0 <= i < j < |es| :: es[i].symbol != es[j].symbol)
    && (forall k <- m :: exists i :: 0 <= i < |es| && es[i].symbol == k)
  }

  /** `a` is a subsequence of `b`. */
  predicate Sub(a: seq<PriceEvent>, b: seq<PriceEvent>) {
    a == [] || (
      b != [] && (
        || (a[|a|-1] == b[|b|-1] && Sub(a[..|a|-1], b[..|b|-1]))
        || Sub(a, b[..|b|-1])))
  }

  /** `out` is a subsequence of `all`, with the same last event. */
  predicate Faithful(out: seq<PriceEvent>, all: seq<PriceEvent>) {
    Sub(out, all) && (all != [] ==> out != [] && out[|out|-1] == all[|all|-1])
  }

  /**
   `out` stands for `all` as far as `symbol` goes: nothing new, nothing out of order,
   and the last event is there, last.
   */
  ghost predicate StandsFor(out: seq<PriceEvent>, all: seq<PriceEvent>, symbol: string) {
    Faithful(Of(out, symbol), Of(all, symbol))
  }

  /** The bounded queue refines an unbounded one. */
  ghost predicate Refines(out: seq<PriceEvent>, all: seq<PriceEvent>) {
    forall symbol :: StandsFor(out, all, symbol)
  }

  datatype SendResult = Refused | Accepted | Blocked

  class Client {
    const id: string
    const bufferSize: nat
    /** The contents of the channel. */
    var events: seq<PriceEvent>
    var closed: bool
    /** A send waits for room while it holds the mutex: no other method can proceed. */
    var stuck: bool
    /** History: events put on the channel, events taken for the wire, closes of `done`. */
    ghost var accepted: seq<PriceEvent>
    ghost var delivered: seq<PriceEvent>
    ghost var doneCloses: nat

    ghost predicate Valid()
      reads this
    {
      && |events| <= bufferSize
      && Refines(delivered + events, accepted)
      && doneCloses == if closed then 1 else 0
    }

    constructor (id: string, bufferSize: nat)
      ensures this.id == id && this.bufferSize == bufferSize
      ensures Valid() && !closed && !stuck
      ensures events == [] && accepted == [] && delivered == []
    {
      this.id := id;
      this.bufferSize := bufferSize;
      events, closed, stuck := [], false, false;
      accepted, delivered, doneCloses := [], [], 0;
    }

    method Send(e: PriceEvent) returns (r: SendResult)
      requires Valid() && !stuck
      modifies this
      ensures closed == old(closed) && delivered == old(delivered) && doneCloses == old(doneCloses)
      ensures r == Refused <==> old(closed)
      ensures r == Blocked <==> stuck
      ensures r == Blocked <==>
                !old(closed) && |old(events)| == bufferSize && |LatestMap(old(events) + [e])| > bufferSize
      ensures r != Blocked ==> Valid()
      ensures r == Refused ==> events == old(events) && accepted == old(accepted)
      ensures r == Accepted ==> accepted == old(accepted) + [e]
      ensures r == Accepted && |old(events)| < bufferSize ==> events == old(events) + [e]
      ensures r == Accepted && |old(events)| == bufferSize ==> Arranges(LatestMap(old(events) + [e]), events)
    {
      if closed {
        return Refused;
      }
      RefinesAppend(delivered + events, accepted, e);
      assert delivered + events + [e] == delivered + (events + [e]);
      if |events| < bufferSize {
        events := events + [e];
        accepted := accepted + [e];
        return Accepted;
      }
      var latest := Drain();
      latest := latest[e.symbol := e];
      assert (old(events) + [e])[..|old(events)|] == old(events);
      assert latest == LatestMap(old(events) + [e]);
      var full := Refill(latest);
      if full {
        stuck := true;
        return Blocked;
      }
      accepted := accepted + [e];
      RefinesCompact(delivered, old(events) + [e], events, accepted);
      return Accepted;
    }

    /** Closing the channel and ranging over what is left in it. */
    method Drain() returns (latest: map<string, PriceEvent>)
      modifies this`events
      ensures latest == LatestMap(old(events)) && events == []
    {
      latest := map[];
      ghost var taken := [];
      assert LatestMap(taken) == map[];
      hide LatestMap;
      while events != []
        invariant taken + events == old(events)
        invariant latest == LatestMap(taken)
        decreases |events|
      {
        var ev := events[0];
        LatestMapAppend(taken, ev);
        assert taken + [ev] + events[1..] == taken + events;
        latest := latest[ev.symbol := ev];
        taken := taken + [ev];
        events := events[1..];
      }
      assert taken == old(events);
    }

    /** Refilling the new channel in map order; `full` means that a put found no room. */
    method Refill(latest: map<string, PriceEvent>) returns (full: bool)
      requires events == [] && forall k <- latest :: latest[k].symbol == k
      modifies this`events
      ensures full <==> |latest| > bufferSize
      ensures !full ==> Arranges(latest, events) && |events| == |latest|
    {
      var todo := latest.Keys;
      NoneArranged(latest);
      hide PartArranged;
      hide Arranges;
      while todo != {}
        invariant todo <= latest.Keys
        invariant |events| + |todo| == |latest.Keys|
        invariant |events| <= bufferSize
        invariant PartArranged(latest, todo, events)
        decreases todo
      {
        if |events| == bufferSize {
          assert |latest.Keys| > bufferSize;
          return true;
        }
        var k :| k in todo;
        ArrangeOne(latest, todo, events, k);
        events := events + [latest[k]];
        todo := todo - {k};
      }
      AllArranged(latest, events);
      return false;
    }

    /** An old event, put behind what is queued; dropped when the buffer is full. */
    method SendReplay(e: PriceEvent)
      requires Valid() && !stuck
      modifies this
      ensures Valid() && !stuck && closed == old(closed) && delivered == old(delivered)
      ensures if closed || |old(events)| == bufferSize
              then events == old(events) && accepted == old(accepted)
              else events == old(events) + [e] && accepted == old(accepted) + [e]
    {
      if closed {
        return;
      }
      if |events| < bufferSize {
        RefinesAppend(delivered + events, accepted, e);
        assert delivered + events + [e] == delivered + (events + [e]);
        events := events + [e];
        accepted := accepted + [e];
      }
    }

    /** ServeSSE takes the next event for the wire. */
    method Deliver() returns (e: PriceEvent)
      requires Valid() && events != []
      modifies this
      ensures Valid() && closed == old(closed) && stuck == old(stuck) && accepted == old(accepted)
      ensures e == old(events)[0] && events == old(events)[1..] && delivered == old(delivered) + [e]
    {
      e := events[0];
      assert delivered + events == (delivered + [e]) + events[1..];
      events := events[1..];
      delivered := delivered + [e];
    }

    method Close()
      requires Valid() && !stuck
      modifies this
      ensures Valid() && closed && !stuck
      ensures events == old(events) && accepted == old(accepted) && delivered == old(delivered)
    {
      if !closed {
        closed := true;
        doneCloses := doneCloses + 1;
      }
    }
  }

  // ------------------------------------------------------------------
  // Subsequences and projections.
  // ------------------------------------------------------------------

  /** `es` lists the values of `m` outside `todo`, in any order, once each. */
  ghost predicate PartArranged(m: map<string, PriceEvent>, todo: set<string>, es: seq<PriceEvent>) {
    && (forall i | 0 <= i < |es| :: es[i].symbol in m && es[i].symbol !in todo && m[es[i].symbol] == es[i])
    && (forall i, j | 0 <= i < j < |es| :: es[i].symbol != es[j].symbol)
    && (forall k <- m :: k in todo || exists i :: 0 <= i < |es| && es[i].symbol == k)
  }

  lemma NoneArranged(m: map<string, PriceEvent>)
    ensures PartArranged(m, m.Keys, [])
  {
  }

  lemma AllArranged(m: map<string, PriceEvent>, es: seq<PriceEvent>)
    requires PartArranged(m, {}, es)
    ensures Arranges(m, es)
  {
  }

  lemma ArrangeOne(m: map<string, PriceEvent>, todo: set<string>, es: seq<PriceEvent>, k: string)
    requires PartArranged(m, todo, es) && k in todo && k in m && m[k].symbol == k
    ensures PartArranged(m, todo - {k}, es + [m[k]])
  {
    var more := es + [m[k]];
    assert more[|es|].symbol == k && forall i | 0 <= i < |es| :: more[i] == es[i];
  }

  lemma {:induction false} OfConcat(a: seq<PriceEvent>, b: seq<PriceEvent>, symbol: string)
    ensures Of(a + b, symbol) == Of(a, symbol) + Of(b, symbol)
  {
    if b == [] {
      assert a + b == a;
    } else {
      OfConcat(a, b[..|b|-1], symbol);
      assert (a + b)[..|a + b|-1] == a + b[..|b|-1];
    }
  }

  lemma {:induction false} SubDrop(a: seq<PriceEvent>, b: seq<PriceEvent>, k: nat)
    requires Sub(a, b) && k < |a|
    ensures Sub(a[..k] + a[k+1..], b)
    decreases |b|
  {
    var a' := a[..k] + a[k+1..];
    var b0 := b[..|b|-1];
    if Sub(a, b0) {
      SubDrop(a, b0, k);
    } else if k == |a| - 1 {
      assert a' == a[..|a|-1];
    } else {
      var a0 := a[..|a|-1];
      SubDrop(a0, b0, k);
      assert a'[..|a'|-1] == a0[..k] + a0[k+1..];
    }
  }

  /** A stretch of a subsequence may shrink to its last element. */
  lemma {:induction false} SubKeepLast(p: seq<PriceEvent>, q: seq<PriceEvent>, b: seq<PriceEvent>)
    requires Sub(p + q, b) && q != []
    ensures Sub(p + [q[|q|-1]], b)
    decreases |q|
  {
    hide Sub;
    if |q| == 1 {
      assert q == [q[0]];
    } else {
      SubDrop(p + q, b, |p|);
      assert (p + q)[..|p|] + (p + q)[|p|+1..] == p + q[1..];
      SubKeepLast(p, q[1..], b);
    }
  }

  /** A subsequence keeps the order of any two of its elements. */
  lemma {:induction false} SubPair(a: seq<PriceEvent>, b: seq<PriceEvent>, i: nat, j: nat) returns (p: nat, q: nat)
    requires Sub(a, b) && i < j < |a|
    ensures p < q < |b| && b[p] == a[i] && b[q] == a[j]
    decreases |b|
  {
    var b0 := b[..|b|-1];
    if Sub(a, b0) {
      p, q := SubPair(a, b0, i, j);
    } else if j < |a| - 1 {
      p, q := SubPair(a[..|a|-1], b0, i, j);
    } else {
      p := SubOne(a[..|a|-1], b0, i);
      q := |b| - 1;
    }
  }

  lemma {:induction false} SubOne(a: seq<PriceEvent>, b: seq<PriceEvent>, i: nat) returns (p: nat)
    requires Sub(a, b) && i < |a|
    ensures p < |b| && b[p] == a[i]
    decreases |b|
  {
    var b0 := b[..|b|-1];
    if Sub(a, b0) {
      p := SubOne(a, b0, i);
    } else if i < |a| - 1 {
      p := SubOne(a[..|a|-1], b0, i);
    } else {
      p := |b| - 1;
    }
  }

  lemma SubAppend(a: seq<PriceEvent>, b: seq<PriceEvent>, e: PriceEvent)
    requires Sub(a, b)
    ensures Sub(a + [e], b + [e])
  {
    assert (a + [e])[..|a|] == a && (b + [e])[..|b|] == b;
  }

  lemma OfAppend(es: seq<PriceEvent>, e: PriceEvent, symbol: string)
    ensures Of(es + [e], symbol) == if e.symbol == symbol then Of(es, symbol) + [e] else Of(es, symbol)
  {
    assert (es + [e])[..|es|] == es;
  }

  lemma LatestMapAppend(es: seq<PriceEvent>, e: PriceEvent)
    ensures LatestMap(es + [e]) == LatestMap(es)[e.symbol := e]
  {
    assert (es + [e])[..|es|] == es;
  }

  lemma RefinesAppend(out: seq<PriceEvent>, all: seq<PriceEvent>, e: PriceEvent)
    requires Refines(out, all)
    ensures Refines(out + [e], all + [e])
  {
    hide Of;
    hide Sub;
    forall symbol ensures StandsFor(out + [e], all + [e], symbol) {
      assert StandsFor(out, all, symbol);
      OfAppend(out, e, symbol);
      OfAppend(all, e, symbol);
      SubAppend(Of(out, symbol), Of(all, symbol), e);
    }
  }

  lemma {:induction false} LatestMapIsLast(es: seq<PriceEvent>, symbol: string)
    ensures symbol in LatestMap(es) <==> Of(es, symbol) != []
    ensures symbol in LatestMap(es) ==> LatestMap(es)[symbol] == Of(es, symbol)[|Of(es, symbol)|-1]
  {
    if es != [] {
      LatestMapIsLast(es[..|es|-1], symbol);
    }
  }

  lemma {:induction false} NoneOf(es: seq<PriceEvent>, symbol: string)
    requires forall i | 0 <= i < |es| :: es[i].symbol != symbol
    ensures Of(es, symbol) == []
  {
    if es != [] {
      NoneOf(es[..|es|-1], symbol);
    }
  }

  /** An arrangement holds each symbol's event and nothing else. */
  lemma ArrangedOf(m: map<string, PriceEvent>, es: seq<PriceEvent>, symbol: string)
    requires Arranges(m, es)
    ensures Of(es, symbol) == if symbol in m then [m[symbol]] else []
  {
    if symbol in m {
      var i :| 0 <= i < |es| && es[i].symbol == symbol;
      OnlyAt(es, i);
    } else {
      NoneOf(es, symbol);
    }
  }

  lemma OnlyAt(es: seq<PriceEvent>, i: nat)
    requires i < |es|
    requires forall j | 0 <= j < |es| && j != i :: es[j].symbol != es[i].symbol
    ensures Of(es, es[i].symbol) == [es[i]]
  {
    hide Of;
    var symbol := es[i].symbol;
    var a, b := es[..i], es[i+1..];
    assert es == (a + [es[i]]) + b;
    OfConcat(a + [es[i]], b, symbol);
    OfAppend(a, es[i], symbol);
    NoneOf(a, symbol);
    NoneOf(b, symbol);
  }

  /** Compacting the queued part keeps the refinement. */
  lemma RefinesCompact(done: seq<PriceEvent>, queued: seq<PriceEvent>, compacted: seq<PriceEvent>, all: seq<PriceEvent>)
    requires Refines(done + queued, all)
    requires Arranges(LatestMap(queued), compacted)
    ensures Refines(done + compacted, all)
  {
    hide Of;
    hide Sub;
    hide LatestMap;
    hide Arranges;
    forall symbol ensures StandsFor(done + compacted, all, symbol) {
      assert StandsFor(done + queued, all, symbol);
      OfConcat(done, queued, symbol);
      OfConcat(done, compacted, symbol);
      ArrangedOf(LatestMap(queued), compacted, symbol);
      LatestMapIsLast(queued, symbol);
      var q := Of(queued, symbol);
      if q != [] {
        SubKeepLast(Of(done, symbol), q, Of(all, symbol));
      }
    }
  }

  // ------------------------------------------------------------------
  // When a send blocks, and what a replay can displace.
  // ------------------------------------------------------------------

  lemma {:induction false} LatestMapWithin(es: seq<PriceEvent>, symbols: set<string>)
    requires forall e <- es :: e.symbol in symbols
    ensures LatestMap(es).Keys <= symbols
  {
    if es != [] {
      LatestMapWithin(es[..|es|-1], symbols);
    }
  }

  lemma {:induction false} SubsetSize(a: set<string>, b: set<string>)
    requires a <= b
    ensures |a| <= |b|
    decreases a
  {
    if a != {} {
      var x :| x in a;
      SubsetSize(a - {x}, b - {x});
    }
  }

  /** No send blocks while the symbols fit in the buffer. */
  lemma FewSymbolsNeverBlock(es: seq<PriceEvent>, symbols: set<string>, bufferSize: nat)
    requires forall e <- es :: e.symbol in symbols
    requires |symbols| <= bufferSize
    ensures |LatestMap(es)| <= bufferSize
  {
    LatestMapWithin(es, symbols);
    SubsetSize(LatestMap(es).Keys, symbols);
  }

  /** No event of its symbol is queued behind the event at `j`. */
  predicate LastAt(q: seq<PriceEvent>, j: nat) {
    j < |q| && forall l | j < l < |q| :: q[l].symbol != q[j].symbol
  }

  /** The map holds, for each symbol queued, the event queued last. */
  lemma {:induction false} LatestMapHolds(q: seq<PriceEvent>, j: nat)
    requires LastAt(q, j)
    ensures q[j].symbol in LatestMap(q) && LatestMap(q)[q[j].symbol] == q[j]
  {
    var n := |q| - 1;
    if j < n {
      assert q[n].symbol != q[j].symbol;
      LatestMapHolds(q[..n], j);
    }
  }

  lemma {:induction false} LatestMapFrom(q: seq<PriceEvent>, symbol: string) returns (j: nat)
    requires symbol in LatestMap(q)
    ensures LastAt(q, j) && q[j] == LatestMap(q)[symbol] && q[j].symbol == symbol
  {
    var n := |q| - 1;
    if q[n].symbol == symbol {
      j := n;
    } else {
      j := LatestMapFrom(q[..n], symbol);
    }
  }

  /**
   Compaction goes by queue position: an event survives if and only if it is queued somewhere
   with no event of its symbol behind it, the new event included. Which is newer plays no part.
   */
  lemma SurvivesIffLastOfSymbol(q: seq<PriceEvent>, compacted: seq<PriceEvent>, e: PriceEvent)
    requires Arranges(LatestMap(q), compacted)
    ensures e in compacted <==> exists j: nat :: LastAt(q, j) && q[j] == e
  {
    hide LatestMap;
    if e in compacted {
      var _ := LatestMapFrom(q, e.symbol);
    }
    if j: nat :| LastAt(q, j) && q[j] == e {
      LatestMapHolds(q, j);
      var k :| 0 <= k < |compacted| && compacted[k].symbol == e.symbol;
    }
  }

  /**
   A live event, an older one replayed behind it, and a third one to a full buffer: the live
   event is gone, undelivered.
   */
  method ReplayDisplacesLive(live: PriceEvent, replayed: PriceEvent, e: PriceEvent) returns (c: Client)
    requires live.symbol == replayed.symbol != e.symbol && live != replayed
    ensures fresh(c) && c.Valid() && c.accepted == [live, replayed, e]
    ensures live !in c.events && live !in c.delivered && replayed in c.events
  {
    c := new Client("c", 2);
    var _ := c.Send(live);
    c.SendReplay(replayed);
    var q := [live, replayed, e];
    assert c.events + [e] == q;
    FewSymbolsNeverBlock(q, {live.symbol, e.symbol}, 2);
    hide LatestMap;
    hide Refines;
    hide Arranges;
    var _ := c.Send(e);
    LiveIsDisplaced(live, replayed, e, c.events);
  }

  lemma LiveIsDisplaced(live: PriceEvent, replayed: PriceEvent, e: PriceEvent, compacted: seq<PriceEvent>)
    requires live.symbol == replayed.symbol != e.symbol && live != replayed
    requires Arranges(LatestMap([live, replayed, e]), compacted)
    ensures live !in compacted && replayed in compacted
  {
    hide LatestMap;
    hide Arranges;
    var q := [live, replayed, e];
    SurvivesIffLastOfSymbol(q, compacted, live);
    SurvivesIffLastOfSymbol(q, compacted, replayed);
    assert LastAt(q, 1);
  }

  lemma TwoSymbols(a: PriceEvent, b: PriceEvent)
    requires a.symbol != b.symbol
    ensures |LatestMap([a] + [b])| == 2
  {
    var q := [a] + [b];
    assert q[..1] == [a] && [a][..0] == [] && LatestMap([]) == map[];
    assert LatestMap([a]) == map[a.symbol := a];
    assert LatestMap(q) == LatestMap([a])[b.symbol := b];
    assert LatestMap(q).Keys == {a.symbol, b.symbol};
  }

  /** A client with one place that reads nothing keeps the sender of a second symbol waiting. */
  method SlowClientBlocks(a: PriceEvent, b: PriceEvent) returns (r: SendResult)
    requires a.symbol != b.symbol
    ensures r == Blocked
  {
    var c := new Client("c", 1);
    r := c.Send(a);
    TwoSymbols(a, b);
    r := c.Send(b);
  }
}
