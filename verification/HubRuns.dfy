/** Whole runs of the hub: subscriptions, broadcasts, reads, replays and shutdowns in any order. */
module HubRuns {
  import opened PriceEvents
  import opened Clients
  import opened Hubs

  /** Operations of a hub; clients are numbered in the order they joined. */
  datatype Operation =
    | Join
    | Leave(n: nat)
    | Publish(e: PriceEvent)
    | Read(n: nat)
    | Replay(n: nat, e: PriceEvent)
    | Shut

  /** Every client has only accepted events of these symbols. */
  ghost predicate Within(hub: Hub, symbols: set<string>)
    reads hub, hub.issued
  {
    forall c <- hub.issued :: AcceptedWithin(c, symbols)
  }

  ghost predicate AcceptedWithin(c: Client, symbols: set<string>)
    reads c
  {
    forall e <- c.accepted :: e.symbol in symbols
  }

  lemma {:induction false} InProjection(es: seq<PriceEvent>, e: PriceEvent, symbol: string)
    ensures e in Of(es, symbol) <==> e in es && e.symbol == symbol
  {
    if es != [] {
      var init, last := es[..|es|-1], es[|es|-1];
      InProjection(init, e, symbol);
      assert es == init + [last];
    }
  }

  /** What is queued was accepted. */
  lemma QueuedWasAccepted(c: Client, e: PriceEvent)
    requires c.Valid() && e in c.events
    ensures e in c.accepted
  {
    hide Of;
    hide Sub;
    var out := c.delivered + c.events;
    assert e in out;
    assert StandsFor(out, c.accepted, e.symbol);
    InProjection(out, e, e.symbol);
    InProjection(c.accepted, e, e.symbol);
    var o := Of(out, e.symbol);
    var i :| 0 <= i < |o| && o[i] == e;
    var _ := SubOne(o, Of(c.accepted, e.symbol), i);
  }

  /** While the symbols fit in the buffer, no send to the client waits. */
  lemma NeverWaits(c: Client, e: PriceEvent, symbols: set<string>)
    requires c.Valid() && AcceptedWithin(c, symbols) && e.symbol in symbols && |symbols| <= c.bufferSize
    ensures !WouldBlock(c, e)
  {
    hide Refines;
    forall f <- c.events + [e] ensures f.symbol in symbols {
      if f in c.events {
        QueuedWasAccepted(c, f);
      }
    }
    FewSymbolsNeverBlock(c.events + [e], symbols, c.bufferSize);
  }

  method PublishTo(hub: Hub, e: PriceEvent, ghost symbols: set<string>)
    requires hub.Valid() && !hub.hung && Within(hub, symbols)
    requires e.symbol in symbols && |symbols| <= hub.clientBuffer
    modifies hub`hung, hub.clients.Values
    ensures hub.Valid() && !hub.hung && Within(hub, symbols)
  {
    hide Refines;
    hide IssuedBy;
    forall k | k in hub.clients ensures !WouldBlock(hub.clients[k], e) {
      var c := hub.clients[k];
      assert c in hub.issued && Sound(c, c in hub.removed, hub.clientBuffer, hub.nextId);
      NeverWaits(c, e, symbols);
    }
    hide LatestMap;
    var _ := hub.Broadcast(e);
    forall c <- hub.issued ensures AcceptedWithin(c, symbols) {
      if c in hub.removed {
        assert c.accepted == old(c.accepted);
      } else {
        assert hub.clients[c.id] == c;
      }
      assert old(AcceptedWithin(c, symbols));
    }
  }

  method ReadFrom(hub: Hub, c: Client, ghost symbols: set<string>)
    requires hub.Valid() && !hub.hung && Within(hub, symbols) && c in hub.issued
    modifies c
    ensures hub.Valid() && Within(hub, symbols)
  {
    hide Refines;
    hide IssuedBy;
    hide Registered;
    assert Sound(c, c in hub.removed, hub.clientBuffer, hub.nextId);
    assert AcceptedWithin(c, symbols);
    if c.events != [] {
      var _ := c.Deliver();
    }
    assert Sound(c, c in hub.removed, hub.clientBuffer, hub.nextId);
  }

  method ReplayTo(hub: Hub, c: Client, e: PriceEvent, ghost symbols: set<string>)
    requires hub.Valid() && !hub.hung && Within(hub, symbols) && c in hub.issued && e.symbol in symbols
    modifies c
    ensures hub.Valid() && Within(hub, symbols)
  {
    hide Refines;
    hide IssuedBy;
    hide Registered;
    assert Sound(c, c in hub.removed, hub.clientBuffer, hub.nextId);
    assert AcceptedWithin(c, symbols);
    c.SendReplay(e);
    assert Sound(c, c in hub.removed, hub.clientBuffer, hub.nextId);
  }

  method JoinHub(hub: Hub, ghost symbols: set<string>) returns (c: Client?)
    requires hub.Valid() && !hub.hung && Within(hub, symbols)
    modifies hub
    ensures hub.Valid() && !hub.hung && Within(hub, symbols)
    ensures hub.issued == old(hub.issued) + (if c == null then {} else {c}) && (c != null ==> fresh(c))
  {
    assert forall d <- hub.issued :: AcceptedWithin(d, symbols);
    c := hub.Subscribe();
    if c != null {
      assert AcceptedWithin(c, symbols);
    }
    forall d <- hub.issued ensures AcceptedWithin(d, symbols) {
      if d != c {
        assert d in old(hub.issued) && old(AcceptedWithin(d, symbols));
      }
    }
  }

  method LeaveHub(hub: Hub, c: Client, ghost symbols: set<string>)
    requires hub.Valid() && !hub.hung && Within(hub, symbols) && c in hub.issued
    modifies hub, c
    ensures hub.Valid() && !hub.hung && Within(hub, symbols) && hub.issued == old(hub.issued)
  {
    hub.Unsubscribe(c);
    forall d <- hub.issued ensures AcceptedWithin(d, symbols) {
      assert old(AcceptedWithin(d, symbols)) && d.accepted == old(d.accepted);
    }
  }

  method ShutHub(hub: Hub, ghost symbols: set<string>)
    requires hub.Valid() && !hub.hung && Within(hub, symbols)
    modifies hub, hub.clients.Values
    ensures hub.Valid() && !hub.hung && Within(hub, symbols) && hub.issued == old(hub.issued)
  {
    hub.CloseAll();
    forall d <- hub.issued ensures AcceptedWithin(d, symbols) {
      assert old(AcceptedWithin(d, symbols)) && d.accepted == old(d.accepted);
    }
  }

  /** The operation only brings events of these symbols. */
  predicate Fits(op: Operation, symbols: set<string>) {
    op.Publish? || op.Replay? ==> op.e.symbol in symbols
  }

  lemma RegisteredAreIssued(hub: Hub)
    requires hub.Valid()
    ensures hub.clients.Values <= hub.issued
  {
  }

  /** One operation of a run. An operation on a client that never joined is none. */
  method Perform(hub: Hub, joined: seq<Client>, op: Operation, ghost symbols: set<string>) returns (now: seq<Client>)
    requires hub.Valid() && !hub.hung && Within(hub, symbols) && |symbols| <= hub.clientBuffer && Fits(op, symbols)
    requires forall c <- joined :: c in hub.issued
    modifies hub, hub.issued
    ensures hub.Valid() && !hub.hung && Within(hub, symbols)
    ensures fresh(hub.issued - old(hub.issued)) && forall c <- now :: c in hub.issued
  {
    RegisteredAreIssued(hub);
    hide Hub.Valid;
    hide Within;
    now := joined;
    match op
    case Join =>
      var c := JoinHub(hub, symbols);
      if c != null {
        now := joined + [c];
      }
    case Leave(n) =>
      if n < |joined| {
        LeaveHub(hub, joined[n], symbols);
      }
    case Publish(e) =>
      PublishTo(hub, e, symbols);
    case Read(n) =>
      if n < |joined| {
        ReadFrom(hub, joined[n], symbols);
      }
    case Replay(n, e) =>
      if n < |joined| {
        ReplayTo(hub, joined[n], e, symbols);
      }
    case Shut =>
      ShutHub(hub, symbols);
  }

  /**
   A hub in any run: clients come, go, read and get replays in any order. As long as the symbols
   fit in the buffer, no broadcast of the run hangs.
   */
  method Serve(maxClients: int, clientBuffer: nat, ops: seq<Operation>, ghost symbols: set<string>) returns (hub: Hub)
    requires |symbols| <= clientBuffer && forall i | 0 <= i < |ops| :: Fits(ops[i], symbols)
    ensures fresh(hub) && hub.Valid() && !hub.hung && Within(hub, symbols)
  {
    hub := new Hub(maxClients, clientBuffer);
    assert Within(hub, symbols);
    hide Hub.Valid;
    hide Within;
    var joined: seq<Client> := [];
    for i := 0 to |ops|
      invariant hub.Valid() && !hub.hung && Within(hub, symbols) && hub.clientBuffer == clientBuffer
      invariant fresh(hub.issued) && forall c <- joined :: c in hub.issued
    {
      joined := Perform(hub, joined, ops[i], symbols);
    }
  }
}
