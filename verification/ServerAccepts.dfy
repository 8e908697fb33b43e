/**
 Clients get in: the TCP server asks for one again and again, and each one it accepts has a connection of its own
 three rounds later, under every schedule.
 */
module ServerAccepts {
  import opened Wrappers
  import F = RequestFraming
  import opened ServerPipeline
  import opened ServerRounds

  /** The world a run has come to. */
  function At(p: F.Parsers, w: World, events: seq<Event>): World
    requires RunFrom(p, w, events).Some?
  {
    RunFrom(p, w, events).value
  }

  // ---------------------------------------------------------------- the TCP server stops only for a failed accept

  /** Event `k` is the TCP server's turn in which `accept` reports `accept`. */
  predicate Asks(p: F.Parsers, w: World, events: seq<Event>, k: nat, accept: Accept)
    requires k < |events|
  {
    events[k] == TcpTurns(accept) && RunFrom(p, w, events[..k]).Some? && At(p, w, events[..k]).servers.tcp == Listening
  }

  lemma AsksInit(p: F.Parsers, w: World, events: seq<Event>, k: nat, accept: Accept)
    requires k < |events| - 1
    ensures Asks(p, w, events, k, accept) <==> Asks(p, w, events[..|events| - 1], k, accept)
  {
    assert events[..|events| - 1][..k] == events[..k];
  }

  lemma AsksLast(p: F.Parsers, w: World, events: seq<Event>, x: World, accept: Accept)
    requires events != [] && RunFrom(p, w, events[..|events| - 1]) == Some(x)
    ensures Asks(p, w, events, |events| - 1, accept) <==>
            events[|events| - 1] == TcpTurns(accept) && x.servers.tcp == Listening
  {
  }

  /** What an event does to the three servers. */
  function ServersAfter(x: World, e: Event): Servers {
    match e
    case TcpTurns(accept) => TcpTurn(x.servers, accept, x.round)
    case HttpTurns => HttpTurn(x.servers, x.nextId)
    case OptiTurns => OptiTurn(x.servers)
    case ConnTurns(_, _) => x.servers
    case InstTurns(_, _) => x.servers
    case RoundEnds => NewRound(x.servers)
  }

  lemma ConnKeepsServers(p: F.Parsers, x: World, id: Id, chunk: F.Chunk)
    requires id in x.sessions
    ensures OnConn(p, x, id, chunk).servers == x.servers && OnConn(p, x, id, chunk).nextId == x.nextId
  {
  }

  lemma NextServers(p: F.Parsers, x: World, e: Event)
    requires Enabled(x, e)
    ensures Next(p, x, e).servers == ServersAfter(x, e)
    ensures Next(p, x, e).nextId == x.nextId + (if e.HttpTurns? && InHttpSlot(x.servers) then 1 else 0)
  {
    match e
    case ConnTurns(id, chunk) => ConnKeepsServers(p, x, id, chunk);
    case _ =>
  }

  predicate InHttpSlot(v: Servers) {
    v.http == HttpConnecting && v.httpFd >= 0
  }

  lemma TcpAfter(p: F.Parsers, x: World, e: Event)
    requires WorldInv(p, x) && Enabled(x, e)
    ensures var v, n := x.servers, Next(p, x, e).servers;
      n.tcp ==
        if !e.TcpTurns? then v.tcp
        else if v.tcp == Listening then
          (match e.accept case Accepted(_) => Connecting case WouldBlock => Listening case Failed => TcpError)
        else if v.tcp == Connecting then Connected
        else if v.tcp == Connected then Listening
        else TcpError
    ensures Next(p, x, e).servers.tcpStepped == (e.TcpTurns? || (x.servers.tcpStepped && !e.RoundEnds?))
  {
    NextServers(p, x, e);
  }

  predicate SomeFailed(p: F.Parsers, w: World, events: seq<Event>) {
    exists k :: 0 <= k < |events| && Asks(p, w, events, k, Failed)
  }

  lemma {:induction false} SomeFailedNext(p: F.Parsers, w: World, events: seq<Event>, x: World)
    requires events != [] && RunFrom(p, w, events[..|events| - 1]) == Some(x)
    ensures SomeFailed(p, w, events) <==>
      || SomeFailed(p, w, events[..|events| - 1])
      || (events[|events| - 1] == TcpTurns(Failed) && x.servers.tcp == Listening)
  {
    var n := |events| - 1;
    var init := events[..n];
    AsksLast(p, w, events, x, Failed);
    if k :| 0 <= k < |events| && Asks(p, w, events, k, Failed) {
      if k < n {
        AsksInit(p, w, events, k, Failed);
        assert Asks(p, w, init, k, Failed);
      }
    }
    if k :| 0 <= k < |init| && Asks(p, w, init, k, Failed) {
      AsksInit(p, w, events, k, Failed);
      assert Asks(p, w, events, k, Failed);
    }
    if events[n] == TcpTurns(Failed) && x.servers.tcp == Listening {
      assert Asks(p, w, events, n, Failed);
    }
  }

  lemma StopsAfter(p: F.Parsers, x: World, e: Event)
    requires WorldInv(p, x) && Enabled(x, e)
    ensures Next(p, x, e).servers.tcp == TcpError <==>
            x.servers.tcp == TcpError || (e == TcpTurns(Failed) && x.servers.tcp == Listening)
  {
    TcpAfter(p, x, e);
  }

  /** The TCP server has stopped exactly if `accept` has failed: a client that is not there yet does not stop it. */
  lemma {:induction false} TcpStopsIff(p: F.Parsers, events: seq<Event>)
    requires RunFrom(p, INITIAL, events).Some?
    ensures At(p, INITIAL, events).servers.tcp == TcpError <==> SomeFailed(p, INITIAL, events)
  {
    if events != [] {
      var x, init, e := RunSplits(p, INITIAL, events);
      TcpStopsIff(p, init);
      RunInv(p, INITIAL, init);
      StopsAfter(p, x, e);
      SomeFailedNext(p, INITIAL, events, x);
    }
  }

  // ---------------------------------------------------------------- and asks again in time

  /** Rounds that still have to end before the TCP server's next turn is one in which it asks. */
  function Wait(v: Servers): nat {
    match v.tcp
    case Listening => if v.tcpStepped then 1 else 0
    case Connected => if v.tcpStepped then 2 else 1
    case Connecting => if v.tcpStepped then 3 else 2
    case TcpError => 0
  }

  /** Neither a turn that asks nor a failure: the wait gets shorter by the rounds that end. */
  lemma WaitNext(p: F.Parsers, x: World, e: Event)
    requires WorldInv(p, x) && Enabled(x, e) && x.servers.tcp != TcpError
    requires !(e.TcpTurns? && x.servers.tcp == Listening)
    ensures var n := Next(p, x, e);
      n.servers.tcp != TcpError && Wait(n.servers) + (if e.RoundEnds? then 1 else 0) == Wait(x.servers)
  {
    TcpAfter(p, x, e);
  }

  predicate SomeAsks(p: F.Parsers, w: World, events: seq<Event>) {
    exists k :: 0 <= k < |events| && events[k].TcpTurns? && Asks(p, w, events, k, events[k].accept)
  }

  lemma {:induction false} SomeAsksInit(p: F.Parsers, w: World, events: seq<Event>, x: World)
    requires events != [] && RunFrom(p, w, events[..|events| - 1]) == Some(x) && !SomeAsks(p, w, events)
    ensures !SomeAsks(p, w, events[..|events| - 1])
    ensures !(events[|events| - 1].TcpTurns? && x.servers.tcp == Listening)
  {
    var n := |events| - 1;
    if events[n].TcpTurns? {
      AsksLast(p, w, events, x, events[n].accept);
    }
    forall k: nat | k < n && events[k].TcpTurns?
      ensures Asks(p, w, events, k, events[k].accept) <==> Asks(p, w, events[..n], k, events[..n][k].accept)
    {
      AsksInit(p, w, events, k, events[k].accept);
    }
  }

  lemma {:induction false} WaitShrinks(p: F.Parsers, w: World, events: seq<Event>)
    requires WorldInv(p, w) && RunFrom(p, w, events).Some? && w.servers.tcp != TcpError && !SomeAsks(p, w, events)
    ensures var n := At(p, w, events);
      n.servers.tcp != TcpError && Wait(n.servers) + Rounds(events) == Wait(w.servers)
  {
    if events != [] {
      var x, init, e := RunSplits(p, w, events);
      SomeAsksInit(p, w, events, x);
      WaitShrinks(p, w, init);
      RunInv(p, w, init);
      WaitNext(p, x, e);
    }
  }

  /**
   Unless it has stopped, the TCP server asks for a client in any run that sees four rounds end, wherever the run
   begins: at most three rounds go by without it.
   */
  lemma {:induction false} ClientsAreAskedFor(p: F.Parsers, w: World, events: seq<Event>)
    requires Reachable(p, w) && w.servers.tcp != TcpError
    requires RunFrom(p, w, events).Some? && Rounds(events) >= 4
    ensures SomeAsks(p, w, events)
  {
    ReachableInv(p, w);
    if !SomeAsks(p, w, events) {
      WaitShrinks(p, w, events);
    }
  }

  /** The world after a client was accepted. */
  predicate JustAccepted(w: World, fd: nat) {
    w.servers.tcp == Connecting && w.servers.tcpStepped && w.servers.tcpFd == fd && w.servers.tcpSince == w.round
  }

  lemma AcceptedIs(w: World, fd: nat)
    requires Enabled(w, TcpTurns(Accepted(fd))) && w.servers.tcp == Listening
    ensures JustAccepted(OnTcp(w, Accepted(fd)), fd)
  {
  }

  /** Where the TCP server is a number of rounds after it has accepted a client. */
  predicate OnTime(v: Servers, rounds: nat) {
    && (rounds == 0 ==> v.tcp == Connecting && v.tcpStepped)
    && (rounds == 1 ==> v.tcp == if v.tcpStepped then Connected else Connecting)
    && (rounds == 2 ==> v.tcp == if v.tcpStepped then Listening else Connected)
    && (rounds == 3 && !v.tcpStepped ==> v.tcp == Listening)
  }

  lemma OnTimeNext(p: F.Parsers, x: World, e: Event, rounds: nat)
    requires WorldInv(p, x) && Enabled(x, e) && OnTime(x.servers, rounds)
    ensures OnTime(Next(p, x, e).servers, rounds + (if e.RoundEnds? then 1 else 0))
  {
    TcpAfter(p, x, e);
  }

  lemma {:induction false} StaysOnTime(p: F.Parsers, w: World, fd: nat, events: seq<Event>)
    requires WorldInv(p, w) && JustAccepted(w, fd) && RunFrom(p, w, events).Some?
    ensures OnTime(At(p, w, events).servers, Rounds(events))
  {
    if events != [] {
      var x, init, e := RunSplits(p, w, events);
      StaysOnTime(p, w, fd, init);
      RunInv(p, w, init);
      OnTimeNext(p, x, e, Rounds(init));
    }
  }

  /**
   After an acceptance the TCP server hands over in the next round, turns to listening in the one after that, and
   asks again in the third.
   */
  lemma {:induction false} TcpIsOnTime(p: F.Parsers, w: World, fd: nat, events: seq<Event>)
    requires Reachable(p, w) && w.servers.tcp == Listening && Enabled(w, TcpTurns(Accepted(fd)))
    requires RunFrom(p, OnTcp(w, Accepted(fd)), events).Some?
    ensures OnTime(At(p, OnTcp(w, Accepted(fd)), events).servers, Rounds(events))
  {
    ReachableInv(p, w);
    NextInv(p, w, TcpTurns(Accepted(fd)));
    AcceptedIs(w, fd);
    StaysOnTime(p, OnTcp(w, Accepted(fd)), fd, events);
  }

  // ---------------------------------------------------------------- an accepted client gets a connection

  /** The socket is in the TCP server's slot or in the HTTP server's. */
  predicate InSlot(v: Servers, fd: nat, since: int) {
    || (v.tcp == Connecting && v.tcpFd == fd && v.tcpSince == since)
    || (v.http == HttpConnecting && v.httpFd == fd && v.httpSince == since)
  }

  predicate HasConnection(w: World, fd: nat, since: int, id: Id) {
    id in w.sessions && w.sessions[id].fd == fd && w.sessions[id].since == since
  }

  lemma SlotTurn(v: Servers, accept: Accept, round: int, fd: nat, since: int)
    requires ServersInv(v, round) && !v.tcpStepped && InSlot(v, fd, since)
    ensures InSlot(TcpTurn(v, accept, round), fd, since)
  {
  }

  lemma HttpConnects(x: World, fd: nat, since: int)
    requires ServersInv(x.servers, x.round) && InSlot(x.servers, fd, since)
    ensures InSlot(OnHttp(x).servers, fd, since) || HasConnection(OnHttp(x), fd, since, x.nextId)
  {
  }

  /** A turn leaves the socket in a slot, or makes the connection for it. */
  lemma SlotNext(p: F.Parsers, x: World, e: Event, fd: nat, since: int)
    requires WorldInv(p, x) && Enabled(x, e) && InSlot(x.servers, fd, since)
    ensures InSlot(Next(p, x, e).servers, fd, since) || HasConnection(Next(p, x, e), fd, since, x.nextId)
  {
    NextServers(p, x, e);
    if e.TcpTurns? {
      SlotTurn(x.servers, e.accept, x.round, fd, since);
    } else if e.HttpTurns? {
      HttpConnects(x, fd, since);
    }
  }

  /** After some of the events there is a connection for the socket, made since `first`. */
  ghost predicate Connects(p: F.Parsers, w: World, events: seq<Event>, fd: nat, first: Id) {
    exists k, id :: 0 <= k <= |events| && id >= first && ConnectsAt(p, w, events, k, fd, id)
  }

  predicate ConnectsAt(p: F.Parsers, w: World, events: seq<Event>, k: nat, fd: nat, id: Id)
    requires k <= |events|
  {
    RunFrom(p, w, events[..k]).Some? && HasConnection(At(p, w, events[..k]), fd, w.round, id)
  }

  lemma ConnectsInit(p: F.Parsers, w: World, events: seq<Event>, fd: nat, first: Id)
    requires events != [] && Connects(p, w, events[..|events| - 1], fd, first)
    ensures Connects(p, w, events, fd, first)
  {
    var init := events[..|events| - 1];
    var k, id :| 0 <= k <= |init| && id >= first && ConnectsAt(p, w, init, k, fd, id);
    assert init[..k] == events[..k];
    assert ConnectsAt(p, w, events, k, fd, id);
  }

  lemma {:induction false} InSlotOrConnected(p: F.Parsers, w: World, events: seq<Event>, fd: nat)
    requires WorldInv(p, w) && InSlot(w.servers, fd, w.round) && RunFrom(p, w, events).Some?
    ensures w.nextId <= At(p, w, events).nextId
    ensures InSlot(At(p, w, events).servers, fd, w.round) || Connects(p, w, events, fd, w.nextId)
  {
    if events != [] {
      var x, init, e := RunSplits(p, w, events);
      InSlotOrConnected(p, w, init, fd);
      RunInv(p, w, init);
      NextServers(p, x, e);
      if InSlot(x.servers, fd, w.round) {
        SlotNext(p, x, e, fd, w.round);
        assert events[..|events|] == events;
        if HasConnection(Next(p, x, e), fd, w.round, x.nextId) {
          assert ConnectsAt(p, w, events, |events|, fd, x.nextId);
        }
      } else {
        ConnectsInit(p, w, events, fd, w.nextId);
      }
    }
  }

  lemma ConnectionSteps(p: F.Parsers, x: World, k: Id, chunk: F.Chunk, fd: nat, since: int, id: Id)
    requires k in x.sessions && SessionOk(p, x, k)
    requires HasConnection(x, fd, since, id) || id in x.disposed
    ensures HasConnection(OnConn(p, x, k, chunk), fd, since, id) || id in OnConn(p, x, k, chunk).disposed
  {
    if x.sessions[k].conn.state == F.Disposing {
      SessionDisposing(p, x.sessions[k], InstanceOf(x, k), x.servers.slot == Some(k), x.servers.optiStepped, x.round);
      assert OnConn(p, x, k, chunk) == Dispose(x, k);
    }
  }

  lemma OthersKeepConnections(p: F.Parsers, x: World, e: Event, fd: nat, since: int, id: Id)
    requires Enabled(x, e) && !e.ConnTurns? && x.nextId !in x.sessions
    requires HasConnection(x, fd, since, id) || id in x.disposed
    ensures HasConnection(Next(p, x, e), fd, since, id) || id in Next(p, x, e).disposed
  {
  }

  /** A connection stays, with its socket, until it is disposed of. */
  lemma ConnectionStays(p: F.Parsers, x: World, e: Event, fd: nat, since: int, id: Id)
    requires WorldInv(p, x) && Enabled(x, e)
    requires HasConnection(x, fd, since, id) || id in x.disposed
    ensures HasConnection(Next(p, x, e), fd, since, id) || id in Next(p, x, e).disposed
  {
    if e.ConnTurns? {
      assert SessionOk(p, x, e.id);
      ConnectionSteps(p, x, e.id, e.chunk, fd, since, id);
    } else {
      assert x.nextId !in x.sessions.Keys + x.disposed && x.nextId !in x.sessions.Keys;
      OthersKeepConnections(p, x, e, fd, since, id);
    }
  }

  lemma {:induction false} ConnectionLasts(p: F.Parsers, w: World, events: seq<Event>, k: nat, fd: nat, id: Id)
    requires WorldInv(p, w) && RunFrom(p, w, events).Some? && k <= |events| && ConnectsAt(p, w, events, k, fd, id)
    ensures HasConnection(At(p, w, events), fd, w.round, id) || id in At(p, w, events).disposed
  {
    if k == |events| {
      assert events[..k] == events;
    } else {
      var x, init, e := RunSplits(p, w, events);
      assert init[..k] == events[..k];
      ConnectionLasts(p, w, init, k, fd, id);
      RunInv(p, w, init);
      ConnectionStays(p, x, e, fd, w.round, id);
    }
  }

  /**
   A client that is accepted gets in: when three rounds have ended a new connection has been made for its socket,
   which it keeps until it is disposed of.
   */
  lemma AcceptedGetsConnection(p: F.Parsers, w: World, fd: nat, events: seq<Event>) returns (id: Id)
    requires Reachable(p, w) && w.servers.tcp == Listening && Enabled(w, TcpTurns(Accepted(fd)))
    requires RunFrom(p, OnTcp(w, Accepted(fd)), events).Some? && Rounds(events) >= 3
    ensures var x := OnTcp(w, Accepted(fd));
      var n := At(p, x, events);
      && id >= w.nextId
      && (exists k :: 0 <= k <= |events| && ConnectsAt(p, x, events, k, fd, id))
      && (HasConnection(n, fd, w.round, id) || id in n.disposed)
  {
    var x := OnTcp(w, Accepted(fd));
    ReachableInv(p, w);
    NextInv(p, w, TcpTurns(Accepted(fd)));
    InSlotOrConnected(p, x, events, fd);
    RunInv(p, x, events);
    RoundsCount(p, x, events);
    NotInSlotAnyMore(At(p, x, events).servers, At(p, x, events).round, fd, x.round);
    var k;
    k, id :| 0 <= k <= |events| && id >= x.nextId && ConnectsAt(p, x, events, k, fd, id);
    ConnectionLasts(p, x, events, k, fd, id);
  }

  lemma NotInSlotAnyMore(v: Servers, round: int, fd: nat, since: int)
    requires ServersInv(v, round) && round - since >= 3
    ensures !InSlot(v, fd, since)
  {
  }
}
