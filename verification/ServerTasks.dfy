/**
 The server object: the TCP server lies inside the HTTP server, and that inside the Opti server. The tasks and
 callbacks update its fields and the connection objects it has made; connections and instances are found by
 handle. Each task is proved to do what `ServerPipeline` says of its turn, and `Execute` that every run of the
 object is a run of the pipeline.
 */
module ServerTasks {
  import opened Wrappers
  import F = RequestFraming
  import opened HttpConnection
  import opened ServerPipeline

  /** What a connection has beside its protocol state: its socket, and whether its callbacks are installed. */
  datatype Link = Link(fd: int, callbacks: bool)

  /** The connection objects that live, by handle. */
  class Pool {
    const parsers: F.Parsers
    var connections: map<Id, Connection>
    var links: map<Id, Link>
    ghost var sessions: map<Id, Session>
    ghost var repr: set<object>
    ghost var owner: map<object, Id>

    /** The connection under a handle, with its buffer and its link, stands for a session and is of no other. */
    ghost predicate Held(id: Id)
      reads this, repr
    {
      && id in connections && id in links && id in sessions
      && var c := connections[id];
      && c in repr && c.addr in repr && c in owner && c.addr in owner && owner[c] == owner[c.addr] == id
      && c.Valid() && c.parsers == parsers
      && sessions[id].conn == c.Abs() && links[id] == Link(sessions[id].fd, sessions[id].callbacks)
    }

    ghost predicate Valid()
      reads this, repr
    {
      && this !in repr && connections.Keys == links.Keys == sessions.Keys
      && forall id {:trigger Held(id)} :: id in connections ==> Held(id)
    }

    constructor (p: F.Parsers)
      ensures Valid() && parsers == p && sessions == map[] && repr == {}
    {
      parsers := p;
      connections, links, sessions, repr, owner := map[], map[], map[], {}, map[];
    }

    /** A connection that is left alone stays as it is. */
    twostate lemma HeldStays(id: Id)
      requires old(Held(id)) && id in connections && connections[id] == old(connections[id])
      requires id in links && links[id] == old(links[id])
      requires id in sessions && sessions[id].conn == old(sessions[id].conn)
      requires links[id] == Link(sessions[id].fd, sessions[id].callbacks)
      requires unchanged(old(connections[id]), old(connections[id].addr)) && old(repr) <= repr
      requires connections[id] in owner && owner[connections[id]] == id
      requires connections[id].addr in owner && owner[connections[id].addr] == id
      ensures Held(id)
    {
    }

    /** All connections but one are as they should be. */
    ghost predicate OthersHeld(id: Id)
      reads this, repr
    {
      && this !in repr && connections.Keys == links.Keys == sessions.Keys + {id}
      && forall k {:trigger Held(k)} :: k in connections && k != id ==> Held(k)
    }

    /** The one connection and its buffer are its own from now on. */
    ghost method Claim(id: Id)
      requires OthersHeld(id) && id in connections
      requires var c := connections[id]; (c in owner ==> owner[c] == id) && (c.addr in owner ==> owner[c.addr] == id)
      modifies `repr, `owner
      ensures OthersHeld(id) && repr == old(repr) + {connections[id], connections[id].addr}
      ensures var c := connections[id]; c in owner && c.addr in owner && owner[c] == owner[c.addr] == id
    {
      var c := connections[id];
      repr := repr + {c, c.addr};
      owner := owner[c := id][c.addr := id];
      forall k | k in connections && k != id
        ensures Held(k)
      {
        assert old(Held(k));
        HeldStays(k);
      }
    }

    /** And it stands for session `s`. */
    ghost method Settle(id: Id, s: Session)
      requires OthersHeld(id) && id in connections && links[id] == Link(s.fd, s.callbacks)
      requires var c := connections[id];
        && c.Valid() && c.parsers == parsers && s.conn == c.Abs()
        && (c in owner ==> owner[c] == id) && (c.addr in owner ==> owner[c.addr] == id)
      modifies `sessions, `repr, `owner
      ensures Valid() && sessions == old(sessions)[id := s]
      ensures repr == old(repr) + {connections[id], connections[id].addr}
    {
      Claim(id);
      label claimed:
      sessions := sessions[id := s];
      forall k | k in connections && k != id
        ensures Held(k)
      {
        assert old@claimed(Held(k));
      }
      assert Held(id);
    }

    /** Allocates a connection for the socket. */
    method Add(id: Id, fd: int, ghost since: int)
      requires Valid() && id !in connections
      modifies this
      ensures Valid() && fresh(repr - old(repr))
      ensures sessions == old(sessions)[id := Session(F.INITIAL, fd, since, false, false, true)]
    {
      var c := new Connection(parsers);
      connections, links := connections[id := c], links[id := Link(fd, false)];
      forall k | k in connections && k != id
        ensures Held(k)
      {
        assert old(Held(k));
        HeldStays(k);
      }
      Settle(id, Session(F.INITIAL, fd, since, false, false, true));
    }

    method InstallCallbacks(id: Id)
      requires Valid() && id in connections
      modifies `links, `sessions
      ensures Valid() && sessions == old(sessions)[id := old(sessions)[id].(callbacks := true)]
    {
      links := links[id := links[id].(callbacks := true)];
      sessions := sessions[id := sessions[id].(callbacks := true)];
      forall k | k in connections
        ensures Held(k)
      {
        assert old(Held(k));
      }
    }

    method Remove(id: Id)
      requires Valid()
      modifies `connections, `links, `sessions
      ensures Valid() && sessions == old(sessions) - {id}
    {
      connections := connections - {id};
      links := links - {id};
      sessions := sessions - {id};
      forall k | k in connections
        ensures Held(k)
      {
        assert old(Held(k));
      }
    }

    /** The connection object does its own turn, and no other notices. */
    method StepAlone(id: Id, chunk: F.Chunk)
      requires Valid() && id in connections
      modifies repr
      ensures unchanged(this) && OthersHeld(id) && connections[id].Valid()
      ensures connections[id].addr in old(repr) ==> connections[id].addr == old(connections[id].addr)
      ensures connections[id].addr !in old(repr) ==> fresh(connections[id].addr)
      ensures connections[id].Abs() == F.Step(parsers, sessions[id].conn, chunk)
    {
      var c := connections[id];
      assert Held(id);
      c.Taskwork(chunk);
      forall k | k in connections && k != id
        ensures Held(k)
      {
        assert old(Held(k));
        HeldStays(k);
      }
    }

    /** And its session makes that step. */
    method Step(id: Id, chunk: F.Chunk)
      requires Valid() && id in connections
      modifies this, repr
      ensures Valid() && fresh(repr - old(repr)) && connections == old(connections)
      ensures var s := old(sessions)[id];
        sessions == old(sessions)[id := s.(conn := F.Step(parsers, s.conn, chunk), stepped := true)]
    {
      assert Held(id);
      StepAlone(id, chunk);
      Settle(id, sessions[id].(conn := connections[id].Abs(), stepped := true));
    }

    /** The response of the endpoint goes to the connection. */
    method Respond(id: Id, status: int)
      requires Valid() && id in connections
      modifies this, repr
      ensures Valid() && repr == old(repr)
      ensures sessions == old(sessions)[id := old(sessions)[id].(conn := Answer(old(sessions)[id].conn, status))]
    {
      var c := connections[id];
      assert Held(id);
      c.Answer(status);
      forall k | k in connections && k != id
        ensures Held(k)
      {
        assert old(Held(k));
        HeldStays(k);
      }
      Settle(id, sessions[id].(conn := c.Abs()));
    }

    ghost method NewRound()
      requires Valid()
      modifies `sessions
      ensures Valid() && sessions == RestSessions(old(sessions))
    {
      sessions := RestSessions(sessions);
      forall k | k in connections
        ensures Held(k)
      {
        assert old(Held(k));
      }
    }
  }

  /** What the run has been so far, as far as `World` tells it and the server does not keep it. */
  datatype Past = Past(tcpSince: int, httpSince: int, tcpStepped: bool, httpStepped: bool, optiStepped: bool,
    round: int, open: map<int, int>, disposed: set<Id>, fault: bool)

  class Server {
    const parsers: F.Parsers
    const pool: Pool

    var tcp: TcpState
    var tcpFd: int
    var http: HttpState
    var httpFd: int
    var opti: OptiState
    var slot: Option<Id>
    var instances: map<Id, Instance>
    var nextId: nat
    ghost var past: Past

    ghost predicate Valid()
      reads pool, pool.repr
    {
      this !in pool.repr && pool.Valid() && pool.parsers == parsers
    }

    ghost function Front(): Servers
      reads this
    {
      Servers(tcp, tcpFd, past.tcpSince, past.tcpStepped, http, httpFd, past.httpSince, past.httpStepped,
              opti, slot, past.optiStepped)
    }

    ghost function Abs(): World
      reads this, pool
    {
      World(Front(), pool.sessions, instances, nextId, past.round, past.open, past.disposed, past.fault)
    }

    constructor (p: F.Parsers)
      ensures parsers == p && Valid() && fresh(pool) && fresh(pool.repr) && Abs() == INITIAL
    {
      parsers := p;
      pool := new Pool(p);
      tcp, tcpFd, http, httpFd, opti, slot := Listening, -1, HttpIdling, -1, OptiIdle, None;
      instances, nextId := map[], 0;
      past := Past(0, 0, false, false, false, 0, map[], {}, false);
    }

    // -------------------------------------------------------------- the TCP server

    /** Called back by the TCP server: the descriptor goes into the HTTP server's slot. */
    method OnAccept(fd: int) returns (ok: bool)
      modifies `http, `httpFd, `past
      ensures ok == (fd >= 0)
      ensures ok ==> http == HttpConnecting && httpFd == fd && past == old(past).(httpSince := old(past).tcpSince)
      ensures !ok ==> unchanged(this)
    {
      if fd < 0 {
        return false;
      }
      httpFd, http := fd, HttpConnecting;
      past := past.(httpSince := past.tcpSince);
      return true;
    }

    method TcpListen(accept: Accept)
      requires tcp == Listening
      modifies `tcp, `tcpFd, `past
      ensures accept.Accepted? ==>
                && tcp == Connecting && tcpFd == accept.fd
                && past == old(past).(tcpSince := old(past).round, open := old(past).open[accept.fd := old(past).round])
      ensures !accept.Accepted? ==> tcpFd == old(tcpFd) && past == old(past)
      ensures accept.WouldBlock? ==> tcp == Listening
      ensures accept.Failed? ==> tcp == TcpError
    {
      match accept {
      case Accepted(fd) =>
        tcpFd, tcp := fd, Connecting;
        past := past.(tcpSince := past.round, open := past.open[fd := past.round]);
      case WouldBlock =>
      case Failed => tcp := TcpError;
      }
    }

    /** Calls back with the accepted descriptor. */
    method TcpHandover() returns (next: TcpState)
      modifies `tcpFd, `http, `httpFd, `past
      ensures old(tcpFd) < 0 ==> next == TcpError && unchanged(this)
      ensures old(tcpFd) >= 0 ==>
                && next == Connected && tcpFd == -1 && http == HttpConnecting && httpFd == old(tcpFd)
                && past == old(past).(httpSince := old(past).tcpSince)
    {
      var ok := OnAccept(tcpFd);
      if !ok {
        return TcpError;
      }
      tcpFd := -1;
      return Connected;
    }

    method TcpTask(accept: Accept)
      requires !past.tcpStepped
      modifies `tcp, `tcpFd, `http, `httpFd, `past
      ensures Abs() == OnTcp(old(Abs()), accept)
    {
      match tcp {
      case Listening => TcpListen(accept);
      case Connecting =>
        var next := TcpHandover();
        tcp := next;
      case Connected => tcp := Listening;
      case TcpError =>
      }
      past := past.(tcpStepped := true);
    }

    // -------------------------------------------------------------- the HTTP server

    /** Called back by the HTTP server: the connection goes into the Opti server's slot. */
    method OnHttpConnection(id: Id)
      modifies `opti, `slot
      ensures opti == OptiConnecting && slot == Some(id)
    {
      slot, opti := Some(id), OptiConnecting;
    }

    /** Allocates the connection, under a new handle. */
    method HttpHandover() returns (next: HttpState)
      requires Valid() && nextId !in pool.connections
      modifies `opti, `slot, `nextId, pool
      ensures Valid() && fresh(pool.repr - old(pool.repr))
      ensures httpFd < 0 ==> next == HttpError && unchanged(this, pool)
      ensures httpFd >= 0 ==>
                && next == HttpConnected && opti == OptiConnecting && slot == Some(old(nextId))
                && nextId == old(nextId) + 1
                && pool.sessions == old(pool.sessions)[old(nextId) :=
                     Session(F.INITIAL, httpFd, past.httpSince, false, false, true)]
    {
      if httpFd < 0 {
        return HttpError;
      }
      var id := nextId;
      pool.Add(id, httpFd, past.httpSince);
      nextId := id + 1;
      OnHttpConnection(id);
      return HttpConnected;
    }

    /** The turn in which the socket is handed over. */
    method HttpConnect()
      requires Valid() && http == HttpConnecting && nextId !in pool.connections
      modifies `http, `opti, `slot, `nextId, `past, pool
      ensures Valid() && fresh(pool.repr - old(pool.repr)) && Abs() == OnHttp(old(Abs()))
    {
      http := HttpHandover();
      past := past.(httpStepped := true);
    }

    method HttpTask()
      requires Valid() && !past.httpStepped && nextId !in pool.connections
      modifies `http, `opti, `slot, `nextId, `past, pool
      ensures Valid() && fresh(pool.repr - old(pool.repr)) && Abs() == OnHttp(old(Abs()))
    {
      if http == HttpConnecting {
        HttpConnect();
        return;
      }
      match http {
      case HttpIdling =>
      case HttpConnected => http := HttpIdling;
      case HttpError => http := HttpIdling;
      }
      past := past.(httpStepped := true);
    }

    // -------------------------------------------------------------- the Opti server

    /** Makes the instance, which installs its callbacks on the connection. */
    method OptiHandover() returns (next: OptiState)
      requires Valid() && (slot.Some? ==> slot.value in pool.connections)
      modifies `slot, `instances, pool
      ensures Valid() && pool.repr == old(pool.repr)
      ensures old(slot).None? ==> next == OptiError && unchanged(this, pool)
      ensures old(slot).Some? ==>
                && next == OptiConnected && slot == None
                && pool.sessions == old(pool.sessions[slot.value := pool.sessions[slot.value].(callbacks := true)])
                && instances == old(instances[slot.value := Instance(Initializing, false, false, false)])
    {
      if slot.None? {
        return OptiError;
      }
      var id := slot.value;
      pool.InstallCallbacks(id);
      instances := instances[id := Instance(Initializing, false, false, false)];
      slot := None;
      return OptiConnected;
    }

    /** The turn in which the connection is taken over. */
    method OptiConnect()
      requires Valid() && opti == OptiConnecting && (slot.Some? ==> slot.value in pool.connections)
      modifies `opti, `slot, `instances, `past, pool
      ensures Valid() && pool.repr == old(pool.repr) && Abs() == OnOpti(old(Abs()))
    {
      opti := OptiHandover();
      past := past.(optiStepped := true);
    }

    method OptiTask()
      requires Valid() && !past.optiStepped && (slot.Some? ==> slot.value in pool.connections)
      modifies `opti, `slot, `instances, `past, pool
      ensures Valid() && pool.repr == old(pool.repr) && Abs() == OnOpti(old(Abs()))
    {
      if opti == OptiConnecting {
        OptiConnect();
        return;
      }
      match opti {
      case OptiIdle =>
      case OptiConnected => opti := OptiIdle;
      case OptiError => opti := OptiDisposing;
      case OptiDisposing =>
      }
      past := past.(optiStepped := true);
    }

    // -------------------------------------------------------------- connections and instances

    /** The instance gets its task. */
    method OnRequest(id: Id)
      modifies `instances
      ensures instances == old(instances)[id := Instance(Initializing, true, false, true)]
    {
      instances := instances[id := Instance(Initializing, true, false, true)];
    }

    /** The instance destroys its task and the connection, and has the server forget it. */
    method OnDispose(id: Id)
      requires Valid()
      modifies `instances, `past, pool
      ensures Valid() && pool.repr == old(pool.repr)
      ensures pool.sessions == old(pool.sessions) - {id} && instances == old(instances) - {id}
      ensures past == old(past).(disposed := old(past).disposed + {id})
    {
      pool.Remove(id);
      instances := instances - {id};
      past := past.(disposed := past.disposed + {id});
    }

    /** Closes the socket, and calls back. */
    method Disconnect(id: Id)
      requires Valid() && id in pool.connections && pool.sessions[id].callbacks
      modifies `instances, `past, pool
      ensures Valid() && pool.repr == old(pool.repr) && Abs() == Dispose(old(Abs()), id)
    {
      past := past.(open := past.open - {pool.sessions[id].fd});
      OnDispose(id);
    }

    method ConnTask(id: Id, chunk: F.Chunk)
      requires Valid() && id in pool.connections && !pool.sessions[id].stepped
      requires pool.sessions[id].conn.state == F.Validating || pool.sessions[id].conn.state == F.Disposing ==>
                 pool.sessions[id].callbacks
      modifies `instances, `past, pool, pool.repr
      ensures Valid() && fresh(pool.repr - old(pool.repr)) && Abs() == OnConn(parsers, old(Abs()), id, chunk)
    {
      var c := pool.connections[id];
      assert pool.Held(id);
      var state := c.state;
      if state == F.Disposing {
        Disconnect(id);
        return;
      }
      pool.Step(id, chunk);
      assert pool.Held(id);
      if state == F.Validating && c.state == F.Handover {
        OnRequest(id);
      }
    }

    method InstTask(id: Id, status: int)
      requires Valid() && id in instances && id in pool.connections && instances[id].task && !instances[id].stepped
      modifies `instances, pool, pool.repr
      ensures Valid() && pool.repr == old(pool.repr) && Abs() == OnInst(old(Abs()), id, status)
    {
      var i := instances[id];
      var next := i.state;
      match i.state {
      case Initializing => next := RequestParsing;
      case RequestParsing => next := ResponseBuilding;
      case ResponseBuilding =>
        pool.Respond(id, status);
        next := ResponseSending;
      case ResponseSending => next := Disposing;
      case Disposing =>
      }
      instances := instances[id := i.(state := next, stepped := true)];
    }

    // -------------------------------------------------------------- rounds and runs

    /** The scheduler has been through all its tasks and begins again. */
    method EndRound()
      requires Valid()
      modifies `instances, `past, pool
      ensures Valid() && pool.repr == old(pool.repr) && Abs() == OnRoundEnd(old(Abs()))
    {
      past := past.(tcpStepped := false, httpStepped := false, optiStepped := false, round := past.round + 1);
      instances := RestInstances(instances);
      pool.NewRound();
    }

    /** Steps the task that is due. */
    method Do(e: Event)
      requires Valid() && Reachable(parsers, Abs()) && Enabled(Abs(), e)
      modifies this, pool, pool.repr
      ensures Valid() && fresh(pool.repr - old(pool.repr)) && Abs() == Next(parsers, old(Abs()), e)
    {
      match e {
      case TcpTurns(accept) => TcpTask(accept);
      case HttpTurns =>
        TasksAreSafe(parsers, Abs(), nextId);
        HttpTask();
      case OptiTurns =>
        TasksAreSafe(parsers, Abs(), nextId);
        OptiTask();
      case ConnTurns(id, chunk) =>
        TasksAreSafe(parsers, Abs(), id);
        ConnTask(id, chunk);
      case InstTurns(id, status) =>
        TasksAreSafe(parsers, Abs(), id);
        InstTask(id, status);
      case RoundEnds => EndRound();
      }
    }

    /** Any schedule, one task after the other. */
    method Execute(events: seq<Event>)
      requires Valid() && Reachable(parsers, Abs()) && RunFrom(parsers, Abs(), events).Some?
      modifies this, pool, pool.repr
      ensures Valid() && fresh(pool.repr - old(pool.repr)) && RunFrom(parsers, old(Abs()), events) == Some(Abs())
    {
      ghost var start := Abs();
      var i := 0;
      assert events[..0] == [];
      while i < |events|
        invariant 0 <= i <= |events| && Valid() && RunFrom(parsers, start, events[..i]) == Some(Abs())
        invariant fresh(pool.repr - old(pool.repr))
      {
        StepOfRun(parsers, start, events, i);
        Do(events[i]);
        i := i + 1;
      }
      assert events[..i] == events;
    }
  }

  /** A server from its start on: it runs through one part of a schedule, and then through the rest. */
  method Serve(p: F.Parsers, events: seq<Event>, more: seq<Event>) returns (server: Server)
    requires RunFrom(p, INITIAL, events + more).Some?
    ensures fresh(server) && server.Valid() && RunFrom(p, INITIAL, events + more) == Some(server.Abs())
  {
    server := new Server(p);
    PrefixRuns(p, INITIAL, events + more, |events|);
    assert (events + more)[..|events|] == events;
    RunsJoin(p, INITIAL, events, more);
    assert RunFrom(p, INITIAL, []) == Some(INITIAL);
    server.Execute(events);
    server.Execute(more);
  }

  /** In every reachable world the object's tasks may be stepped: what they require holds. */
  lemma TasksAreSafe(p: F.Parsers, w: World, id: Id)
    requires Reachable(p, w)
    ensures w.servers.slot.Some? ==> w.servers.slot.value in w.sessions
    ensures id in w.instances ==> id in w.sessions
    ensures id in w.sessions && (w.sessions[id].conn.state == F.Validating || w.sessions[id].conn.state == F.Disposing)
            ==> w.sessions[id].callbacks
    ensures w.nextId !in w.sessions
  {
    ReachablePairs(p, w);
    PairedIds(w, id);
    if id in w.sessions {
      CallbacksAreThere(p, w, id);
    }
  }

  lemma PairedIds(w: World, id: Id)
    requires PairsInv(w)
    ensures w.servers.slot.Some? ==> w.servers.slot.value in w.sessions
    ensures id in w.instances ==> id in w.sessions
    ensures w.nextId !in w.sessions
  {
    assert w.servers.slot.Some? ==> w.servers.slot.value in w.sessions.Keys;
    assert id in w.instances ==> id in w.sessions.Keys;
    assert w.nextId !in w.sessions.Keys + w.disposed;
  }

  lemma CallbacksAreThere(p: F.Parsers, w: World, id: Id)
    requires Reachable(p, w) && id in w.sessions
    ensures w.sessions[id].conn.state == F.Validating || w.sessions[id].conn.state == F.Disposing ==>
              w.sessions[id].callbacks
  {
    ReachableInv(p, w);
    assert SessionOk(p, w, id);
  }

  lemma {:induction false} PrefixRuns(p: F.Parsers, w: World, events: seq<Event>, k: nat)
    requires k <= |events| && RunFrom(p, w, events).Some?
    ensures RunFrom(p, w, events[..k]).Some?
    decreases |events| - k
  {
    if k == |events| {
      assert events[..k] == events;
    } else {
      PrefixRuns(p, w, events, k + 1);
      assert events[..k + 1][..k] == events[..k];
    }
  }

  /** The next event of a run is enabled where the run has got to. */
  lemma {:induction false} StepOfRun(p: F.Parsers, w: World, events: seq<Event>, k: nat)
    requires k < |events| && Reachable(p, w) && RunFrom(p, w, events).Some?
    ensures RunFrom(p, w, events[..k]).Some?
    ensures var x := RunFrom(p, w, events[..k]).value;
      && Reachable(p, x) && Enabled(x, events[k])
      && RunFrom(p, w, events[..k + 1]) == Some(Next(p, x, events[k]))
  {
    PrefixRuns(p, w, events, k);
    PrefixRuns(p, w, events, k + 1);
    assert events[..k + 1][..k] == events[..k];
    RunFromReachable(p, w, events[..k]);
  }
}
