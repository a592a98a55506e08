/** The subscriber hub (internal/subscriber/hub.go). */
module Hubs {
  import opened Basics
  import opened PriceEvents
  import opened Clients

  // ------------------------------------------------------------------
  // Client ids.
  // ------------------------------------------------------------------

  function Digit(d: nat): char
    requires d < 10
  {
    '0' + d as char
  }

  /** The decimal digits of a positive number, none for 0. */
  function Digits(n: nat): string {
    if n == 0 then "" else Digits(n / 10) + [Digit(n % 10)]
  }

  function Decimal(n: nat): string {
    if n == 0 then "0" else Digits(n)
  }

  lemma {:induction false} DigitsParse(n: nat)
    ensures Parse(Digits(n)) == n
  {
    if n > 0 {
      DigitsParse(n / 10);
      assert Digits(n)[..|Digits(n)|-1] == Digits(n / 10);
    }
  }

  /** itoa is read back exactly, so it is injective. */
  lemma DecimalParses(n: nat)
    ensures Parse(Decimal(n)) == n
  {
    DigitsParse(n);
    assert "0"[..0] == "";
  }

  function ClientId(n: nat): string {
    "client-" + Decimal(n)
  }

  /** A client id is the word and the number in decimal. */
  lemma ClientIdReads(n: nat)
    ensures var id := ClientId(n); |id| > 7 && id[..7] == "client-" && Parse(id[7..]) == n
  {
    DecimalParses(n);
    assert ClientId(n)[7..] == Decimal(n);
  }

  lemma ClientIdInjective(m: nat, n: nat)
    requires ClientId(m) == ClientId(n)
    ensures m == n
  {
    DecimalParses(m);
    DecimalParses(n);
    assert ClientId(m)[7..] == Decimal(m) && ClientId(n)[7..] == Decimal(n);
  }

  function Reversed(s: string): (r: string)
    ensures |r| == |s|
    ensures forall i | 0 <= i < |s| :: r[i] == s[|s| - 1 - i]
  {
    if s == "" then "" else Reversed(s[1..]) + [s[0]]
  }

  lemma ReversedAppend(s: string, c: char)
    ensures Reversed(s + [c]) == [c] + Reversed(s)
  {
  }

  /** Position `k` after the outer pairs up to `i` and `j` have been swapped. */
  ghost function Swapped(s: string, i: nat, j: int, k: nat): char
    requires k < |s|
  {
    if k < i || j < k then s[|s| - 1 - k] else s[k]
  }

  /** A negative number has no digits here: the source formats it as an empty string. */
  method Itoa(n: int) returns (s: string)
    ensures s == if n < 0 then "" else Decimal(n)
  {
    if n == 0 {
      return "0";
    }
    var buf: string := "";
    var m := n;
    while m > 0
      invariant n < 0 ==> m == n && buf == ""
      invariant n > 0 ==> m >= 0 && Digits(n) == Digits(m) + Reversed(buf)
      decreases m
    {
      ReversedAppend(buf, Digit(m % 10));
      buf := buf + [Digit(m % 10)];
      m := m / 10;
    }
    ghost var digits := buf;
    var i, j := 0, |buf| - 1;
    while i < j
      invariant 0 <= i && j == |buf| - 1 - i && i <= j + 1 && |buf| == |digits|
      invariant forall k | 0 <= k < |buf| :: buf[k] == Swapped(digits, i, j, k)
    {
      assert buf[i] == Swapped(digits, i, j, i) && buf[j] == Swapped(digits, i, j, j);
      buf := buf[i := buf[j]][j := buf[i]];
      i, j := i + 1, j - 1;
    }
    assert buf == Reversed(digits);
    return buf;
  }

  // ------------------------------------------------------------------
  // The hub.
  // ------------------------------------------------------------------

  /** A send of `e` to this client would wait for room. */
  ghost predicate WouldBlock(c: Client, e: PriceEvent)
    reads c
  {
    !c.closed && |c.events| == c.bufferSize && |LatestMap(c.events + [e])| > c.bufferSize
  }

  class Hub {
    const maxClients: int
    const clientBuffer: nat
    var clients: map<string, Client>
    var nextId: nat
    /** A broadcast waits in a blocked send and holds the lock: nothing else can proceed. */
    var hung: bool
    /** History: every client handed out, and those of them taken off again. */
    ghost var issued: set<Client>
    ghost var removed: set<Client>

    ghost predicate Valid()
      reads this, issued
    {
      && |clients| <= Max(0, maxClients)
      && Registered(clients, issued, removed)
      && forall c <- issued :: Sound(c, c in removed, clientBuffer, nextId)
    }

    constructor (maxClients: int, clientBuffer: nat)
      ensures this.maxClients == maxClients && this.clientBuffer == clientBuffer
      ensures Valid() && !hung && clients == map[] && issued == {}
    {
      this.maxClients := maxClients;
      this.clientBuffer := clientBuffer;
      clients, nextId, hung, issued, removed := map[], 0, false, {}, {};
    }

    method Subscribe() returns (c: Client?)
      requires Valid() && !hung
      modifies this
      ensures Valid() && !hung && removed == old(removed)
      ensures c == null <==> |old(clients)| >= maxClients
      ensures c == null ==> clients == old(clients) && nextId == old(nextId) && issued == old(issued)
      ensures c != null ==>
                && fresh(c) && c.id == ClientId(old(nextId) + 1) && nextId == old(nextId) + 1
                && c.id !in old(clients) && clients == old(clients)[c.id := c] && issued == old(issued) + {c}
                && c.bufferSize == clientBuffer && c.events == [] && c.accepted == [] && c.delivered == []
    {
      hide Refines;
      hide IssuedBy;
      hide Decimal;
      hide Registered;
      if |clients| >= maxClients {
        return null;
      }
      nextId := nextId + 1;
      var number := Itoa(nextId);
      var clientId := "client-" + number;
      assert clientId == ClientId(nextId);
      NotIssuedYet(clientId, nextId - 1);
      JustIssued(nextId);
      c := new Client(clientId, clientBuffer);
      forall d <- issued
        ensures d.id != c.id && Sound(d, d in removed, clientBuffer, nextId)
      {
        assert Sound(d, d in removed, clientBuffer, nextId - 1) && IssuedBy(d.id, nextId - 1);
        IssuedLater(d.id, nextId - 1, nextId);
      }
      RegisteredAdd(clients, issued, removed, c);
      clients := clients[clientId := c];
      issued := issued + {c};
    }

    /**
     A client of this hub is taken off the map and closed, once. One that carries the id of a
     registered client without being it takes that one's place on the way out: the registered
     client is off the map and still open.
     */
    method Unsubscribe(client: Client)
      requires Valid() && !hung
      requires client in issued || (client.Valid() && !client.stuck)
      modifies this, client
      ensures !hung && nextId == old(nextId) && issued == old(issued)
      ensures clients == old(clients) - {client.id} && client.accepted == old(client.accepted)
      ensures client in issued ==>
                Valid() && removed == old(removed) + {client} && client.closed && client.doneCloses == 1
      ensures client !in issued && client.id !in old(clients) ==>
                Valid() && removed == old(removed) && client.closed == old(client.closed)
      ensures client !in issued && client.id in old(clients) ==>
                !Valid() && client.closed && !old(clients)[client.id].closed
    {
      hide Refines;
      hide IssuedBy;
      hide Registered;
      if client in issued {
        RemovedIsOff(clients, issued, removed, client);
        assert Sound(client, client in removed, clientBuffer, nextId);
      }
      if client.id in clients {
        IsRegistered(this, client.id);
        ghost var registered := clients[client.id];
        assert Sound(registered, false, clientBuffer, nextId);
        Retire(client);
        if client !in issued {
          OffButNotRemoved(this, registered);
        }
      }
      assert clients == old(clients) - {client.id};
    }

    /** Closing a client and deleting its id from the map. */
    method Retire(client: Client)
      requires Valid() && !hung && client.id in clients
      requires client in issued || (client.Valid() && !client.stuck)
      modifies this`clients, this`removed, client
      ensures clients == old(clients) - {client.id} && client.closed && client.doneCloses == 1
      ensures client.accepted == old(client.accepted)
      ensures client in issued ==>
                Valid() && removed == old(removed) + {client} && |clients| == |old(clients)| - 1
      ensures client !in issued ==> removed == old(removed)
    {
      hide Refines;
      hide IssuedBy;
      hide Registered;
      if client in issued {
        RemovedIsOff(clients, issued, removed, client);
        RegisteredRemove(clients, issued, removed, client);
        assert Sound(client, false, clientBuffer, nextId);
      }
      client.Close();
      clients := clients - {client.id};
      if client in issued {
        removed := removed + {client};
      }
    }

    /** The send of a broadcast to one client. */
    method SendTo(key: string, e: PriceEvent) returns (r: SendResult)
      requires Valid() && key in clients
      modifies clients[key]
      ensures r == Blocked <==> old(WouldBlock(clients[key], e))
      ensures r != Blocked ==>
                && Valid() && r == Accepted
                && clients[key].accepted == old(clients[key].accepted) + [e]
                && clients[key].delivered == old(clients[key].delivered)
    {
      hide Refines;
      hide IssuedBy;
      hide LatestMap;
      assert clients[key] in issued && Sound(clients[key], false, clientBuffer, nextId);
      r := clients[key].Send(e);
      if r != Blocked {
        assert Sound(clients[key], false, clientBuffer, nextId);
      }
    }

    /** Broadcast; `dropped` counts the sends that report a drop. */
    method Broadcast(e: PriceEvent) returns (dropped: nat)
      requires Valid() && !hung
      modifies this`hung, clients.Values
      ensures hung <==> exists k :: k in clients && old(WouldBlock(clients[k], e))
      ensures !hung ==> Valid() && dropped == 0
      ensures !hung ==> forall k <- clients ::
                && clients[k].accepted == old(clients[k].accepted) + [e]
                && clients[k].delivered == old(clients[k].delivered)
    {
      hide Refines;
      hide IssuedBy;
      hide LatestMap;
      hide Sound;
      hide Registered;
      hide WouldBlock;
      dropped := 0;
      ghost var blocked := set k | k in clients && WouldBlock(clients[k], e);
      var todo := clients.Keys;
      SeparateClients(clients, issued, removed);
      hide Hub.Valid;
      while todo != {}
        invariant todo <= clients.Keys && Valid() && dropped == 0 && !hung
        invariant forall k | k in clients && k in todo :: Untouched(clients[k])
        invariant forall k | k in clients && k in todo :: k in blocked <==> WouldBlock(clients[k], e)
        invariant forall k | k in clients && k !in todo :: k !in blocked && Took(clients[k], e)
        decreases todo
      {
        var k :| k in todo;
        var r := SendTo(k, e);
        if r == Blocked {
          hung := true;
          return;
        }
        dropped := dropped + if r == Refused then 1 else 0;
        todo := todo - {k};
      }
    }

    method CloseAll()
      requires Valid() && !hung
      modifies this, clients.Values
      ensures Valid() && !hung && clients == map[] && nextId == old(nextId)
      ensures issued == removed == old(issued) && forall c <- issued :: c.accepted == old(c.accepted)
    {
      hide Hub.Valid;
      while clients != map[]
        invariant Valid() && !hung && nextId == old(nextId) && issued == old(issued)
        invariant forall k <- clients :: clients[k] in old(clients.Values)
        invariant forall c <- issued :: c.accepted == old(c.accepted)
        decreases |clients|
      {
        var k :| k in clients;
        IsRegistered(this, k);
        Retire(clients[k]);
      }
      NoneRegistered(this);
    }
  }

  /**
   The map holds exactly the clients that were handed out and not taken off, each under
   its own id, and ids are never reused.
   */
  ghost predicate Registered(clients: map<string, Client>, issued: set<Client>, removed: set<Client>) {
    && removed <= issued
    && (forall k <- clients :: clients[k] in issued && clients[k] !in removed && clients[k].id == k)
    && (forall c <- issued :: if c in removed then c.id !in clients else c.id in clients && clients[c.id] == c)
  }

  /** A client in the map is open, a client taken off it is closed. */
  ghost predicate Sound(c: Client, removed: bool, bufferSize: nat, n: nat)
    reads c
  {
    c.closed == removed && c.bufferSize == bufferSize && !c.stuck && c.Valid() && IssuedBy(c.id, n)
  }

  lemma IsRegistered(hub: Hub, k: string)
    requires hub.Valid() && k in hub.clients
    ensures hub.clients[k] in hub.issued && hub.clients[k] !in hub.removed && hub.clients[k].id == k
  {
  }

  lemma OffButNotRemoved(hub: Hub, c: Client)
    requires c in hub.issued && c !in hub.removed && c.id !in hub.clients
    ensures !hub.Valid()
  {
  }

  lemma NoneRegistered(hub: Hub)
    requires hub.Valid() && hub.clients == map[]
    ensures hub.issued == hub.removed
  {
  }

  lemma RegisteredAdd(clients: map<string, Client>, issued: set<Client>, removed: set<Client>, c: Client)
    requires Registered(clients, issued, removed)
    requires c !in issued && forall d <- issued :: d.id != c.id
    ensures c.id !in clients && c !in removed
    ensures Registered(clients[c.id := c], issued + {c}, removed)
    ensures |clients[c.id := c]| == |clients| + 1
  {
    SizeWith(clients, c.id, c);
  }

  lemma SeparateClients(clients: map<string, Client>, issued: set<Client>, removed: set<Client>)
    requires Registered(clients, issued, removed)
    ensures forall j, k | j in clients && k in clients && j != k :: clients[j] != clients[k]
  {
  }

  lemma RemovedIsOff(clients: map<string, Client>, issued: set<Client>, removed: set<Client>, c: Client)
    requires Registered(clients, issued, removed) && c in issued
    ensures c in removed <==> c.id !in clients
  {
  }

  lemma RegisteredRemove(clients: map<string, Client>, issued: set<Client>, removed: set<Client>, c: Client)
    requires Registered(clients, issued, removed) && c in issued && c !in removed
    ensures c.id in clients && clients[c.id] == c
    ensures Registered(clients - {c.id}, issued, removed + {c})
    ensures |clients - {c.id}| == |clients| - 1
  {
    SizeWithout(clients, c.id);
  }

  lemma SizeWithout<V>(m: map<string, V>, k: string)
    requires k in m
    ensures |m - {k}| == |m| - 1
  {
    assert (m - {k}).Keys == m.Keys - {k};
  }

  lemma SizeWith<V>(m: map<string, V>, k: string, v: V)
    requires k !in m
    ensures |m[k := v]| == |m| + 1
  {
    assert m[k := v].Keys == m.Keys + {k};
  }

  /** Nothing about the client has changed. */
  twostate predicate Untouched(c: Client)
    reads c
  {
    && c.events == old(c.events) && c.accepted == old(c.accepted)
    && c.closed == old(c.closed) && c.delivered == old(c.delivered)
  }

  /** The client has accepted `e` and delivered nothing. */
  twostate predicate Took(c: Client, e: PriceEvent)
    reads c
  {
    c.accepted == old(c.accepted) + [e] && c.delivered == old(c.delivered)
  }

  /** The id was handed out when the counter stood at some number up to `n`. */
  ghost predicate IssuedBy(id: string, n: nat) {
    exists i: nat :: i <= n && id == ClientId(i)
  }

  lemma NotIssuedYet(id: string, n: nat)
    requires id == ClientId(n + 1)
    ensures !IssuedBy(id, n)
  {
    forall i: nat | i <= n ensures id != ClientId(i) {
      if id == ClientId(i) {
        ClientIdInjective(i, n + 1);
      }
    }
  }

  lemma JustIssued(n: nat)
    ensures IssuedBy(ClientId(n), n)
  {
  }

  lemma IssuedLater(id: string, m: nat, n: nat)
    requires IssuedBy(id, m) && m <= n
    ensures IssuedBy(id, n)
  {
  }

  /** A client that reads nothing and has one place hangs the hub with the second symbol. */
  method SlowClientHangsHub(a: PriceEvent, b: PriceEvent) returns (hub: Hub)
    requires a.symbol != b.symbol
    ensures fresh(hub) && hub.hung
  {
    hub := new Hub(1, 1);
    var c := hub.Subscribe();
    var _ := hub.Broadcast(a);
    OneQueued(c, a);
    TwoSymbols(a, b);
    assert WouldBlock(c, b) && hub.clients[c.id] == c;
    var _ := hub.Broadcast(b);
  }

  /** With one place and nothing delivered, the one accepted event is the one queued. */
  lemma OneQueued(c: Client, e: PriceEvent)
    requires c.Valid() && c.bufferSize == 1 && c.delivered == [] && c.accepted == [e]
    ensures c.events == [e]
  {
    hide Of;
    hide Sub;
    assert StandsFor(c.delivered + c.events, c.accepted, e.symbol);
    assert c.delivered + c.events == c.events;
    OfOne(e, e.symbol);
    if c.events == [] {
      NoneOf([], e.symbol);
    } else {
      assert c.events == [c.events[0]];
      OfOne(c.events[0], e.symbol);
    }
  }

  lemma OfOne(e: PriceEvent, symbol: string)
    ensures Of([e], symbol) == if e.symbol == symbol then [e] else []
  {
    assert [e][..0] == [];
  }
}
