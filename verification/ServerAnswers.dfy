/**
 From the bytes of a connection to its answer: what the connection reads decides whether an instance answers it,
 and it is answered once or never, under every schedule.
 */
module ServerAnswers {
  import opened Wrappers
  import F = RequestFraming
  import opened RequestFate
  import opened ServerPipeline
  import opened ServerRounds

  // ---------------------------------------------------------------- what one connection does on its own

  /** The chunks that the turns of a connection had at hand, the first one's included, which reads nothing. */
  function Chunks(events: seq<Event>, id: Id): seq<F.Chunk> {
    if events == [] then []
    else
      var e := events[|events| - 1];
      Chunks(events[..|events| - 1], id) + (if e.ConnTurns? && e.id == id then [e.chunk] else [])
  }

  /** The turn in which an instance gives its connection the response. */
  predicate Answering(w: World, e: Event, id: Id) {
    e.InstTurns? && e.id == id && id in w.instances && w.instances[id].state == ResponseBuilding
  }

  /** The turn in which a connection sends its response. */
  predicate Sending(w: World, e: Event, id: Id) {
    e.ConnTurns? && e.id == id && id in w.sessions && w.sessions[id].conn.state == F.Responding
  }

  /** The statuses that instances have given a connection, and those it has sent. */
  datatype Account = Account(given: seq<int>, sent: seq<int>)

  const NOTHING: Account := Account([], [])

  function Noted(w: World, e: Event, id: Id, a: Account): Account {
    Account(a.given + (if Answering(w, e, id) then [e.status] else []),
            a.sent + (if Sending(w, e, id) then [w.sessions[id].conn.status] else []))
  }

  function AccountOf(p: F.Parsers, events: seq<Event>, id: Id): Account
    requires RunFrom(p, INITIAL, events).Some?
  {
    if events == [] then NOTHING
    else
      var init := events[..|events| - 1];
      Noted(RunFrom(p, INITIAL, init).value, events[|events| - 1], id, AccountOf(p, init, id))
  }

  lemma NotedNothing(w: World, e: Event, id: Id, a: Account)
    requires !Answering(w, e, id) && !Sending(w, e, id)
    ensures Noted(w, e, id, a) == a
  {
    assert a.given + [] == a.given && a.sent + [] == a.sent;
  }

  /** Alone, a connection with a request waits for ever. */
  predicate WaitsAlone(alone: F.Conn) {
    alone.state == F.Handover && !alone.ready
  }

  /**
   The connection `c` against what it would be without an instance. It has the status it was given, and has sent
   the status it has once it is to be disposed of.
   */
  predicate Mirrors(c: F.Conn, alone: F.Conn, a: Account) {
    && c.requested == alone.requested && c.input == alone.input
    && a.given == (if c.requested && c.ready then [c.status] else [])
    && a.sent == (if c.state == F.Disposing then [c.status] else [])
    && (c.requested ==> c.state == F.Handover || c.state == F.Responding || c.state == F.Disposing)
    && (if alone.requested then WaitsAlone(alone) else c == alone)
  }

  /** A connection that is gone has sent one response: the one it was given if it had a request, or its own. */
  predicate Settled(alone: F.Conn, a: Account) {
    if alone.requested then WaitsAlone(alone) && |a.given| == 1 && a.sent == a.given
    else alone.state == F.Disposing && a.given == [] && a.sent == [alone.status]
  }

  predicate Tells(w: World, id: Id, alone: F.Conn, a: Account) {
    && (id in w.sessions ==> Mirrors(w.sessions[id].conn, alone, a))
    && (id in w.disposed ==> Settled(alone, a))
    && (id >= w.nextId ==> alone == F.INITIAL && a == NOTHING)
  }

  /** What the connection alone does in an event. */
  function Alone(p: F.Parsers, alone: F.Conn, e: Event, id: Id): F.Conn {
    if e.ConnTurns? && e.id == id then F.Step(p, alone, e.chunk) else alone
  }

  /** A connection with a request only changes its state: it reads no more, and keeps its status. */
  lemma RequestedStep(p: F.Parsers, c: F.Conn, chunk: F.Chunk)
    requires F.Inv(p, c) && c.requested
    ensures var m := F.Step(p, c, chunk);
      && m.requested && m.input == c.input && m.ready == c.ready && (c.state == F.Handover && !c.ready ==> m == c)
      && (c.state == F.Handover && c.ready ==> m.status == c.status && m.state == F.Responding)
      && (c.state == F.Responding || c.state == F.Disposing ==> m.status == c.status && m.state == F.Disposing)
  {
  }

  /** What a turn of the connection itself sends. */
  function Sends(c: F.Conn, a: Account): Account {
    if c.state == F.Responding then a.(sent := a.sent + [c.status]) else a
  }

  lemma RequestedMirrors(p: F.Parsers, c: F.Conn, alone: F.Conn, a: Account, chunk: F.Chunk)
    requires F.Inv(p, c) && F.Inv(p, alone) && Mirrors(c, alone, a) && c.state != F.Disposing && c.requested
    ensures Mirrors(F.Step(p, c, chunk), F.Step(p, alone, chunk), Sends(c, a))
  {
    RequestedStep(p, c, chunk);
    RequestedStep(p, alone, chunk);
  }

  /** Only from Responding a connection comes to be disposed of, with its status. */
  lemma OnlyRespondingEnds(p: F.Parsers, c: F.Conn, chunk: F.Chunk)
    requires F.Inv(p, c) && c.state != F.Disposing
    ensures var m := F.Step(p, c, chunk);
      if c.state == F.Responding then m == c.(state := F.Disposing) else m.state != F.Disposing
  {
    if F.Reading(c.state) && c.retries <= F.MAX_RETRIES {
      var n := F.Take(c, chunk);
      if c.state == F.ReadingFirstLine {
        F.FirstLineEffect(p, n);
      } else if c.state == F.ReadingHeaders {
        F.HeadersEffect(p, n);
      }
    }
  }

  lemma AloneMirrors(p: F.Parsers, c: F.Conn, a: Account, chunk: F.Chunk)
    requires F.Inv(p, c) && Mirrors(c, c, a) && c.state != F.Disposing && !c.requested
    ensures Mirrors(F.Step(p, c, chunk), F.Step(p, c, chunk), Sends(c, a))
  {
    NewRequestWaits(p, c, chunk);
    OnlyRespondingEnds(p, c, chunk);
  }

  lemma NewRequestWaits(p: F.Parsers, c: F.Conn, chunk: F.Chunk)
    requires F.Inv(p, c) && !c.requested
    ensures var m := F.Step(p, c, chunk); m.requested ==> m.state == F.Handover && !m.ready
  {
    if c.state != F.Disposing {
      ConnStepEffect(p, c, chunk);
    }
  }

  lemma DisposedIsSettled(p: F.Parsers, s: Session, i: Option<Instance>, slotted: bool, optiStepped: bool, round: int,
      alone: F.Conn, a: Account, chunk: F.Chunk)
    requires SessionInv(p, s, i, slotted, optiStepped, round) && s.conn.state == F.Disposing
    requires F.Inv(p, alone) && Mirrors(s.conn, alone, a)
    ensures Settled(F.Step(p, alone, chunk), a)
  {
    if alone.requested {
      RequestedStep(p, alone, chunk);
    }
  }

  // ---------------------------------------------------------------- and along a run

  lemma ConnTells(p: F.Parsers, w: World, id: Id, chunk: F.Chunk, alone: F.Conn, a: Account)
    requires WorldInv(p, w) && Enabled(w, ConnTurns(id, chunk)) && F.Inv(p, alone) && Tells(w, id, alone, a)
    ensures Tells(OnConn(p, w, id, chunk), id, F.Step(p, alone, chunk), Sends(w.sessions[id].conn, a))
  {
    var s := w.sessions[id];
    assert SessionOk(p, w, id);
    LiveIsNotDisposed(w, id);
    if s.conn.state == F.Disposing {
      SessionDisposing(p, s, InstanceOf(w, id), w.servers.slot == Some(id), w.servers.optiStepped, w.round);
      DisposedIsSettled(p, s, InstanceOf(w, id), w.servers.slot == Some(id), w.servers.optiStepped, w.round,
                        alone, a, chunk);
      DisposeTells(w, id, F.Step(p, alone, chunk), a);
    } else {
      if s.conn.requested {
        RequestedMirrors(p, s.conn, alone, a, chunk);
      } else {
        AloneMirrors(p, s.conn, a, chunk);
      }
      ConnSession(p, w, id, chunk);
    }
  }

  lemma LiveIsNotDisposed(w: World, id: Id)
    requires PairsInv(w) && id in w.sessions
    ensures id !in w.disposed && id < w.nextId
  {
    assert id in w.sessions.Keys && id in w.sessions.Keys + w.disposed;
  }

  lemma DisposeTells(w: World, id: Id, alone: F.Conn, a: Account)
    requires id in w.sessions && w.sessions[id].callbacks && id < w.nextId && Settled(alone, a)
    ensures Tells(Dispose(w, id), id, alone, a)
  {
  }

  lemma OtherConnTells(p: F.Parsers, w: World, k: Id, chunk: F.Chunk, id: Id, alone: F.Conn, a: Account)
    requires Enabled(w, ConnTurns(k, chunk)) && k != id && Tells(w, id, alone, a)
    ensures Tells(OnConn(p, w, k, chunk), id, alone, a)
  {
  }

  /** The status that an instance gives is the one its connection has from then on. */
  lemma AnswerMirrors(c: F.Conn, alone: F.Conn, a: Account, status: int)
    requires Mirrors(c, alone, a) && Waiting(c) && c.requested
    ensures Mirrors(Answer(c, status), alone, a.(given := a.given + [status]))
  {
  }

  lemma AnswerTells(p: F.Parsers, w: World, id: Id, status: int, alone: F.Conn, a: Account)
    requires WorldInv(p, w) && Answering(w, InstTurns(id, status), id) && w.instances[id].task && Tells(w, id, alone, a)
    ensures Tells(OnInst(w, id, status), id, alone, a.(given := a.given + [status]))
  {
    assert id in w.instances.Keys && id in w.sessions.Keys;
    assert SessionOk(p, w, id);
    LiveIsNotDisposed(w, id);
    BuildingIsWaiting(p, w.sessions[id], w.instances[id], w.servers.slot == Some(id), w.servers.optiStepped, w.round);
    AnswerMirrors(w.sessions[id].conn, alone, a, status);
    OnInstReplaces(w, id, status);
  }

  lemma InstTells(p: F.Parsers, w: World, id: Id, status: int, alone: F.Conn, a: Account)
    requires WorldInv(p, w) && Enabled(w, InstTurns(id, status)) && w.instances[id].state != ResponseBuilding
    requires Tells(w, id, alone, a)
    ensures Tells(OnInst(w, id, status), id, alone, a)
  {
    assert id in w.instances.Keys && id in w.sessions.Keys;
  }

  lemma OtherInstTells(w: World, k: Id, status: int, id: Id, alone: F.Conn, a: Account)
    requires Enabled(w, InstTurns(k, status)) && k != id && Tells(w, id, alone, a)
    ensures Tells(OnInst(w, k, status), id, alone, a)
  {
  }

  lemma HttpTells(w: World, id: Id, alone: F.Conn, a: Account)
    requires PairsInv(w) && Tells(w, id, alone, a)
    ensures Tells(OnHttp(w), id, alone, a)
  {
    assert id == w.nextId ==> id !in w.sessions.Keys + w.disposed;
  }

  lemma OptiTells(w: World, id: Id, alone: F.Conn, a: Account)
    requires Tells(w, id, alone, a)
    ensures Tells(OnOpti(w), id, alone, a)
  {
  }

  lemma TcpTells(w: World, accept: Accept, id: Id, alone: F.Conn, a: Account)
    requires Tells(w, id, alone, a)
    ensures Tells(OnTcp(w, accept), id, alone, a)
  {
  }

  lemma RoundTells(w: World, id: Id, alone: F.Conn, a: Account)
    requires Tells(w, id, alone, a)
    ensures Tells(OnRoundEnd(w), id, alone, a)
  {
  }

  lemma NotedSends(w: World, id: Id, chunk: F.Chunk, a: Account)
    requires id in w.sessions
    ensures Noted(w, ConnTurns(id, chunk), id, a) == Sends(w.sessions[id].conn, a)
  {
    assert a.given + [] == a.given && a.sent + [] == a.sent;
  }

  lemma NotedGives(w: World, id: Id, status: int, a: Account)
    requires Answering(w, InstTurns(id, status), id)
    ensures Noted(w, InstTurns(id, status), id, a) == a.(given := a.given + [status])
  {
    assert a.sent + [] == a.sent;
  }

  lemma OwnInstTells(p: F.Parsers, w: World, id: Id, status: int, alone: F.Conn, a: Account)
    requires WorldInv(p, w) && Enabled(w, InstTurns(id, status)) && Tells(w, id, alone, a)
    ensures Tells(OnInst(w, id, status), id, alone, Noted(w, InstTurns(id, status), id, a))
  {
    if w.instances[id].state == ResponseBuilding {
      NotedGives(w, id, status, a);
      AnswerTells(p, w, id, status, alone, a);
    } else {
      NotedNothing(w, InstTurns(id, status), id, a);
      InstTells(p, w, id, status, alone, a);
    }
  }

  lemma NextTells(p: F.Parsers, w: World, e: Event, id: Id, alone: F.Conn, a: Account)
    requires WorldInv(p, w) && Enabled(w, e) && F.Inv(p, alone) && Tells(w, id, alone, a)
    ensures Tells(Next(p, w, e), id, Alone(p, alone, e, id), Noted(w, e, id, a))
  {
    if e.ConnTurns? && e.id == id {
      NotedSends(w, id, e.chunk, a);
      ConnTells(p, w, id, e.chunk, alone, a);
    } else if e.InstTurns? && e.id == id {
      OwnInstTells(p, w, id, e.status, alone, a);
    } else {
      NotedNothing(w, e, id, a);
      match e
      case TcpTurns(accept) => TcpTells(w, accept, id, alone, a);
      case HttpTurns => HttpTells(w, id, alone, a);
      case OptiTurns => OptiTells(w, id, alone, a);
      case ConnTurns(k, chunk) => OtherConnTells(p, w, k, chunk, id, alone, a);
      case InstTurns(k, status) => OtherInstTells(w, k, status, id, alone, a);
      case RoundEnds => RoundTells(w, id, alone, a);
    }
  }

  lemma ChunksNext(p: F.Parsers, events: seq<Event>, id: Id)
    requires events != []
    ensures F.Run(p, Chunks(events, id))
         == Alone(p, F.Run(p, Chunks(events[..|events| - 1], id)), events[|events| - 1], id)
  {
    var before, e := Chunks(events[..|events| - 1], id), events[|events| - 1];
    if e.ConnTurns? && e.id == id {
      assert (before + [e.chunk])[..|before|] == before;
    } else {
      assert before + [] == before;
    }
  }

  /** In every run, each connection is what it would be alone, with the status it was given, if it was given one. */
  lemma {:induction false} RunTells(p: F.Parsers, events: seq<Event>, id: Id)
    requires RunFrom(p, INITIAL, events).Some?
    ensures Tells(RunFrom(p, INITIAL, events).value, id, F.Run(p, Chunks(events, id)), AccountOf(p, events, id))
  {
    if events != [] {
      var init := events[..|events| - 1];
      var alone := F.Run(p, Chunks(init, id));
      RunTells(p, init, id);
      RunInv(p, INITIAL, init);
      F.RunInv(p, Chunks(init, id));
      ChunksNext(p, events, id);
      NextTells(p, RunFrom(p, INITIAL, init).value, events[|events| - 1], id, alone, AccountOf(p, init, id));
    }
  }

  // ---------------------------------------------------------------- the status stays

  lemma {:induction false} AccountNext(p: F.Parsers, events: seq<Event>, e: Event, id: Id)
    requires RunFrom(p, INITIAL, events).Some? && RunFrom(p, INITIAL, events + [e]).Some?
    ensures AccountOf(p, events + [e], id) ==
            Noted(RunFrom(p, INITIAL, events).value, e, id, AccountOf(p, events, id))
  {
    assert (events + [e])[..|events|] == events;
  }

  /** What was given stays given. */
  lemma {:induction false} AccountGrows(p: F.Parsers, events: seq<Event>, more: seq<Event>, id: Id)
    requires RunFrom(p, INITIAL, events).Some? && RunFrom(p, INITIAL, events + more).Some?
    ensures AccountOf(p, events, id).given <= AccountOf(p, events + more, id).given
  {
    if more == [] {
      assert events + more == events;
    } else {
      var init, e := more[..|more| - 1], more[|more| - 1];
      assert events + more == (events + init) + [e] && (events + more)[..|events + more| - 1] == events + init;
      AccountGrows(p, events, init, id);
      AccountNext(p, events + init, e, id);
    }
  }

  /**
   From the turn in which its instance answers with a status, a connection has that status in every later world of
   the run, and when it is gone, this is what it has sent, and all it has sent.
   */
  lemma {:induction false} AnswerStays(p: F.Parsers, events: seq<Event>, status: int, more: seq<Event>, id: Id)
    requires RunFrom(p, INITIAL, events).Some?
    requires Answering(RunFrom(p, INITIAL, events).value, InstTurns(id, status), id)
    requires RunFrom(p, INITIAL, events + [InstTurns(id, status)]).Some?
    requires RunFrom(p, INITIAL, events + [InstTurns(id, status)] + more).Some?
    ensures var all := events + [InstTurns(id, status)] + more;
      var w := RunFrom(p, INITIAL, all).value;
      && (id in w.sessions ==> w.sessions[id].conn.ready && w.sessions[id].conn.status == status)
      && (id in w.disposed ==> AccountOf(p, all, id) == Account([status], [status]))
      && (id in w.sessions || id in w.disposed)
  {
    var e := InstTurns(id, status);
    var all := events + [e] + more;
    AccountNext(p, events, e, id);
    AccountGrows(p, events + [e], more, id);
    RunTells(p, all, id);
    RunInv(p, INITIAL, all);
    var w := RunFrom(p, INITIAL, all).value;
    GivenStays(AccountOf(p, events, id).given, status, AccountOf(p, all, id), w, id, F.Run(p, Chunks(all, id)));
  }

  lemma GivenStays(before: seq<int>, status: int, a: Account, w: World, id: Id, alone: F.Conn)
    requires before + [status] <= a.given && Tells(w, id, alone, a) && PairsInv(w)
    ensures id in w.sessions ==> w.sessions[id].conn.ready && w.sessions[id].conn.status == status
    ensures id in w.disposed ==> a == Account([status], [status])
    ensures id in w.sessions || id in w.disposed
  {
    assert a.given[|before|] == status;
    assert id < w.nextId ==> id in w.sessions.Keys + w.disposed;
  }

  // ---------------------------------------------------------------- and comes in the third turn of the instance

  function Turns(events: seq<Event>, id: Id): nat {
    if events == [] then 0
    else
      var e := events[|events| - 1];
      Turns(events[..|events| - 1], id) + (if e.InstTurns? && e.id == id then 1 else 0)
  }

  function StateAfter(turns: nat): InstanceState {
    if turns == 0 then ServerPipeline.Initializing
    else if turns == 1 then RequestParsing
    else if turns == 2 then ResponseBuilding
    else if turns == 3 then ResponseSending
    else ServerPipeline.Disposing
  }

  /** An instance is as far as its turns have brought it; without a task it has had none. */
  predicate Turned(w: World, id: Id, turns: nat) {
    && (id in w.instances ==>
          w.instances[id].state == StateAfter(turns) && (!w.instances[id].task ==> turns == 0))
    && (id !in w.instances && id !in w.disposed ==> turns == 0)
  }

  lemma DisposeTurned(w: World, k: Id, id: Id, turns: nat)
    requires k in w.sessions && w.sessions[k].callbacks && Turned(w, id, turns)
    ensures Turned(Dispose(w, k), id, turns)
  {
  }

  /** A connection that validates has an instance, and it has no task yet. */
  lemma SessionPaired(p: F.Parsers, s: Session, i: Option<Instance>, slotted: bool, optiStepped: bool, round: int)
    requires SessionInv(p, s, i, slotted, optiStepped, round)
    ensures s.conn.state == F.Validating ==> i.Some? && !i.value.task
  {
  }

  /** Its task begins where the instance without one was. */
  lemma ReplacedTurned(w: World, k: Id, s: Session, i: Option<Instance>, id: Id, turns: nat)
    requires Turned(w, id, turns)
    requires
      || i == InstanceOf(w, k)
      || (k in w.instances && !w.instances[k].task
          && i == Some(Instance(ServerPipeline.Initializing, true, false, true)))
    ensures Turned(Replaced(w, k, s, i), id, turns)
  {
  }

  lemma ConnTurned(p: F.Parsers, w: World, k: Id, chunk: F.Chunk, id: Id, turns: nat)
    requires WorldInv(p, w) && Enabled(w, ConnTurns(k, chunk)) && Turned(w, id, turns)
    ensures Turned(OnConn(p, w, k, chunk), id, turns)
  {
    var s, i := w.sessions[k], InstanceOf(w, k);
    assert SessionOk(p, w, k);
    if s.conn.state == F.Disposing {
      SessionDisposing(p, s, i, w.servers.slot == Some(k), w.servers.optiStepped, w.round);
      DisposeTurned(w, k, id, turns);
    } else {
      var t := s.(conn := F.Step(p, s.conn, chunk), stepped := true);
      ConnSession(p, w, k, chunk);
      SessionPaired(p, s, i, w.servers.slot == Some(k), w.servers.optiStepped, w.round);
      ReplacedTurned(w, k, t, AfterStep(s.conn, t.conn, i), id, turns);
    }
  }

  lemma OptiTurned(w: World, id: Id, turns: nat)
    requires PairsInv(w) && SlotsFilled(w.servers) && Turned(w, id, turns)
    ensures Turned(OnOpti(w), id, turns)
  {
    if w.servers.slot == Some(id) {
      assert id in SlotSet(w.servers) && id in w.sessions.Keys && id !in w.instances.Keys;
    }
  }

  lemma NextTurned(p: F.Parsers, w: World, e: Event, id: Id, turns: nat)
    requires WorldInv(p, w) && Enabled(w, e) && Turned(w, id, turns)
    ensures Turned(Next(p, w, e), id, turns + (if e.InstTurns? && e.id == id then 1 else 0))
  {
    if e.ConnTurns? {
      ConnTurned(p, w, e.id, e.chunk, id, turns);
    } else if e.InstTurns? {
      InstTurned(w, e.id, e.status, id, turns);
    } else if e.OptiTurns? {
      OptiTurned(w, id, turns);
    } else if e.RoundEnds? {
      RoundTurned(w, id, turns);
    } else {
      SameInstances(w, Next(p, w, e), id, turns);
    }
  }

  lemma SameInstances(w: World, n: World, id: Id, turns: nat)
    requires n.instances == w.instances && n.disposed == w.disposed && Turned(w, id, turns)
    ensures Turned(n, id, turns)
  {
  }

  lemma RoundTurned(w: World, id: Id, turns: nat)
    requires Turned(w, id, turns)
    ensures Turned(OnRoundEnd(w), id, turns)
  {
  }

  lemma InstTurned(w: World, k: Id, status: int, id: Id, turns: nat)
    requires Enabled(w, InstTurns(k, status)) && Turned(w, id, turns)
    ensures Turned(OnInst(w, k, status), id, turns + (if k == id then 1 else 0))
  {
  }

  lemma {:induction false} TurnsNext(events: seq<Event>, id: Id, init: seq<Event>, e: Event)
    requires events != [] && init == events[..|events| - 1] && e == events[|events| - 1]
    ensures Turns(events, id) == Turns(init, id) + (if e.InstTurns? && e.id == id then 1 else 0)
  {
  }

  lemma {:induction false} RunTurned(p: F.Parsers, events: seq<Event>, id: Id)
    requires RunFrom(p, INITIAL, events).Some?
    ensures Turned(RunFrom(p, INITIAL, events).value, id, Turns(events, id))
  {
    if events != [] {
      var x, init, e := RunSplits(p, INITIAL, events);
      RunTurned(p, init, id);
      RunInv(p, INITIAL, init);
      TurnsNext(events, id, init, e);
      NextTurned(p, x, e, id, Turns(init, id));
    }
  }

  /** An instance answers in its third turn, and in no other. */
  lemma {:induction false} ThirdTurnAnswers(p: F.Parsers, events: seq<Event>, id: Id, status: int)
    requires RunFrom(p, INITIAL, events).Some? && id in RunFrom(p, INITIAL, events).value.instances
    ensures Answering(RunFrom(p, INITIAL, events).value, InstTurns(id, status), id) <==> Turns(events, id) == 2
  {
    RunTurned(p, events, id);
  }

  // ---------------------------------------------------------------- which chunks make a request

  lemma ValidatedIff(p: F.Parsers, c: F.Conn, chunk: F.Chunk)
    requires F.Inv(p, c) && c.state == F.Validating
    ensures var m := F.Step(p, c, chunk);
      && (m.requested <==> ForEndpoint(p, c.input.line)) && (!m.requested ==> F.Gone(m))
  {
  }

  /** What has come of a request for that line: it waits for its answer or has it, or was turned away. */
  predicate IsAsked(p: F.Parsers, line: string, c: F.Conn) {
    (c.requested <==> ForEndpoint(p, line)) && (!c.requested ==> F.Gone(c))
  }

  lemma StaysAsked(p: F.Parsers, line: string, c: F.Conn, chunk: F.Chunk)
    requires F.Inv(p, c) && IsAsked(p, line, c)
    ensures IsAsked(p, line, F.Step(p, c, chunk))
  {
    if c.requested {
      RequestedStep(p, c, chunk);
    }
  }

  lemma OnlyValidatingAsks(p: F.Parsers, c: F.Conn, chunk: F.Chunk)
    requires F.Inv(p, c) && !c.requested && c.state != F.Validating
    ensures !F.Step(p, c, chunk).requested
  {
    if c.state != F.Disposing {
      ConnStepEffect(p, c, chunk);
    }
  }

  lemma TraceAsked(p: F.Parsers, chunks: seq<F.Chunk>, t: seq<F.Conn>, k: nat, line: string)
    requires F.IsTrace(p, chunks, t) && k < |chunks|
    requires IsAsked(p, line, t[k]) || (t[k].state == F.Validating && t[k].input.line == line)
    ensures IsAsked(p, line, t[k + 1])
  {
    F.TraceNext(p, chunks, t, k);
    F.TraceInv(p, chunks, t, k);
    if t[k].state == F.Validating && t[k].input.line == line {
      ValidatedIff(p, t[k], chunks[k]);
    } else {
      StaysAsked(p, line, t[k], chunks[k]);
    }
  }

  /** From where a request is validated on, it is known whether it goes to an endpoint. */
  lemma {:induction false} AsksFrom(p: F.Parsers, chunks: seq<F.Chunk>, t: seq<F.Conn>, k: nat, m: nat)
    requires F.IsTrace(p, chunks, t) && k < m <= |chunks| && t[k].state == F.Validating
    ensures IsAsked(p, t[k].input.line, t[m])
    decreases m
  {
    if m - 1 > k {
      AsksFrom(p, chunks, t, k, m - 1);
    }
    TraceAsked(p, chunks, t, m - 1, t[k].input.line);
  }

  /** Without a request that is validated there is none to be answered. */
  lemma {:induction false} AsksNothing(p: F.Parsers, chunks: seq<F.Chunk>, t: seq<F.Conn>, m: nat)
    requires F.IsTrace(p, chunks, t) && m <= |chunks| && forall k: nat :: k < m ==> t[k].state != F.Validating
    ensures !t[m].requested
  {
    if m > 0 {
      AsksNothing(p, chunks, t, m - 1);
      F.TraceNext(p, chunks, t, m - 1);
      F.TraceInv(p, chunks, t, m - 1);
      OnlyValidatingAsks(p, t[m - 1], chunks[m - 1]);
    }
  }

  /** The bytes hold a request for an endpoint, and come in time. */
  predicate AsksInTime(p: F.Parsers, chunks: seq<F.Chunk>) {
    var cut := F.Cut(p, F.Stream(chunks));
    cut.Some? && F.InTime(chunks, cut.value) && ForEndpoint(p, cut.value.line)
  }

  lemma TraceAsksIff(p: F.Parsers, chunks: seq<F.Chunk>, t: seq<F.Conn>)
    requires F.IsTrace(p, chunks, t) && t[|chunks|].state != F.Validating
    ensures t[|chunks|].requested <==> AsksInTime(p, chunks)
  {
    if k: nat :| k < |chunks| && t[k].state == F.Validating {
      F.ReachedIsCut(p, chunks, t, k);
      F.ReachedIsInTime(p, chunks, t, F.Held(t[k].input), k);
      AsksFrom(p, chunks, t, k, |chunks|);
    } else {
      AsksNothing(p, chunks, t, |chunks|);
      if AsksInTime(p, chunks) {
        F.InTimeIsReached(p, chunks, t, F.Cut(p, F.Stream(chunks)).value);
        assert false;
      }
    }
  }

  lemma {:induction false} StartIsNotRead(p: F.Parsers, first: F.Chunk)
    ensures F.Run(p, [first]) == F.STARTED
  {
    assert [first][..0] == [];
    assert F.Run(p, []) == F.INITIAL;
  }

  /** What the first turn has at hand is not read. */
  lemma {:induction false} FirstIsNotRead(p: F.Parsers, first: F.Chunk, chunks: seq<F.Chunk>)
    ensures F.Run(p, [first] + chunks) == F.Reads(p, chunks)
  {
    if chunks == [] {
      StartIsNotRead(p, first);
      F.ReadsNone(p);
      assert [first] + [] == [first];
    } else {
      var init, last := chunks[..|chunks| - 1], chunks[|chunks| - 1];
      FirstIsNotRead(p, first, init);
      assert [first] + chunks == ([first] + init) + [last] && init + [last] == chunks;
      F.RunSnoc(p, [first] + init, last);
      F.ReadsSnoc(p, init, last);
    }
  }

  /** Exactly when a connection that is past reading has a request for an endpoint. */
  lemma {:induction false} AsksIff(p: F.Parsers, chunks: seq<F.Chunk>)
    requires chunks != [] && F.Run(p, chunks).state != F.Validating
    ensures F.Run(p, chunks).requested <==> AsksInTime(p, chunks[1..])
  {
    var read := chunks[1..];
    FirstIsNotRead(p, chunks[0], read);
    assert [chunks[0]] + read == chunks;
    F.TraceIsTrace(p, read);
    assert read[..|read|] == read;
    TraceAsksIff(p, read, F.Trace(p, read));
  }

  lemma {:induction false} SettledHasRun(p: F.Parsers, chunks: seq<F.Chunk>, a: Account)
    requires Settled(F.Run(p, chunks), a)
    ensures chunks != []
  {
  }

  // ---------------------------------------------------------------- every request in time is answered once

  /**
   What a connection that read these chunks has been given and has sent when it is gone. With a request for an
   endpoint in time it was given one status, and sent it; otherwise it was given none, and sent its own.
   */
  predicate AnsweredRight(p: F.Parsers, chunks: seq<F.Chunk>, a: Account) {
    && chunks != []
    && (if AsksInTime(p, chunks[1..]) then |a.given| == 1 && a.sent == a.given
        else
          var alone := F.Run(p, chunks);
          a == Account([], [StatusAlone(p, alone.retries, VerdictOf(p, alone.input.received))]))
  }

  /**
   A connection that is gone was answered by its instance exactly once if the bytes it read hold a request for an
   endpoint in time, and never otherwise; it has sent one response, with the status of that answer, or else 400, 500
   or 200 by what it read, whatever the schedule and the other connections did.
   */
  lemma {:induction false} AnsweredOnceIff(p: F.Parsers, events: seq<Event>, id: Id)
    requires RunFrom(p, INITIAL, events).Some? && id in RunFrom(p, INITIAL, events).value.disposed
    ensures AnsweredRight(p, Chunks(events, id), AccountOf(p, events, id))
  {
    var chunks := Chunks(events, id);
    RunTells(p, events, id);
    SettledHasRun(p, chunks, AccountOf(p, events, id));
    AsksIff(p, chunks);
    StatusByBytes(p, chunks);
  }

  /** Sockets were accepted in the past. */
  predicate AcceptedBefore(w: World) {
    forall fd :: fd in w.open ==> w.open[fd] <= w.round
  }

  lemma NextAcceptedBefore(p: F.Parsers, w: World, e: Event)
    requires AcceptedBefore(w) && Enabled(w, e)
    ensures AcceptedBefore(Next(p, w, e))
  {
    match e
    case ConnTurns(id, chunk) => assert OnConn(p, w, id, chunk).round == w.round;
    case _ =>
  }

  lemma {:induction false} RunAcceptedBefore(p: F.Parsers, events: seq<Event>)
    requires RunFrom(p, INITIAL, events).Some?
    ensures AcceptedBefore(RunFrom(p, INITIAL, events).value)
  {
    if events != [] {
      var init := events[..|events| - 1];
      RunAcceptedBefore(p, init);
      NextAcceptedBefore(p, RunFrom(p, INITIAL, init).value, events[|events| - 1]);
    }
  }

  /** A session that lives keeps the round in which its socket was accepted; one that is gone does not return. */
  predicate Persists(w: World, n: World, id: Id) {
    && w.nextId <= n.nextId
    && (id in n.sessions ==> id in w.sessions && n.sessions[id].since == w.sessions[id].since)
  }

  lemma NextPersists(p: F.Parsers, w: World, e: Event, id: Id)
    requires Enabled(w, e) && id < w.nextId
    ensures Persists(w, Next(p, w, e), id)
  {
    match e
    case ConnTurns(k, chunk) => assert OnConn(p, w, k, chunk).nextId == w.nextId;
    case _ =>
  }

  lemma {:induction false} RunPersists(p: F.Parsers, w: World, events: seq<Event>, id: Id)
    requires RunFrom(p, w, events).Some? && id < w.nextId
    ensures Persists(w, RunFrom(p, w, events).value, id)
  {
    if events != [] {
      var init := events[..|events| - 1];
      RunPersists(p, w, init, id);
      NextPersists(p, RunFrom(p, w, init).value, events[|events| - 1], id);
    }
  }

  /** A connection is gone once all that were there have had time enough. */
  lemma {:induction false} EveryConnectionGoes(p: F.Parsers, events: seq<Event>, more: seq<Event>, id: Id)
    requires RunFrom(p, INITIAL, events + more).Some? && RunFrom(p, INITIAL, events).Some?
    requires var w := RunFrom(p, INITIAL, events).value; id < w.nextId && |more| >= 4452 + 159 * |w.sessions|
    ensures id in RunFrom(p, INITIAL, events + more).value.disposed
  {
    var w, n := RunFrom(p, INITIAL, events).value, RunFrom(p, INITIAL, events + more).value;
    RunsJoin(p, INITIAL, events, more);
    RunPersists(p, w, more, id);
    RunInv(p, INITIAL, events);
    RunInv(p, INITIAL, events + more);
    RunAcceptedBefore(p, events);
    if id in n.sessions {
      HeldSince(w, id);
      HeldSince(n, id);
      SocketsAreClosedInTime(p, w, more, n.sessions[id].fd);
      assert false;
    }
    GoneIsDisposed(n, id);
  }

  lemma HeldSince(w: World, id: Id)
    requires SinceInv(w) && id in w.sessions
    ensures w.sessions[id].fd in w.open && w.open[w.sessions[id].fd] == w.sessions[id].since
  {
  }

  lemma GoneIsDisposed(w: World, id: Id)
    requires PairsInv(w) && id < w.nextId && id !in w.sessions
    ensures id in w.disposed
  {
    assert id in w.sessions.Keys + w.disposed;
  }

  /**
   So every request in time is answered: each of the connections made by some point of a run has been answered, and
   has sent its one response, when so many further turns have been taken.
   */
  lemma {:induction false} RequestsAreAnswered(p: F.Parsers, events: seq<Event>, more: seq<Event>, id: Id)
    requires RunFrom(p, INITIAL, events + more).Some? && RunFrom(p, INITIAL, events).Some?
    requires var w := RunFrom(p, INITIAL, events).value; id < w.nextId && |more| >= 4452 + 159 * |w.sessions|
    ensures AnsweredRight(p, Chunks(events + more, id), AccountOf(p, events + more, id))
  {
    EveryConnectionGoes(p, events, more, id);
    AnsweredOnceIff(p, events + more, id);
  }
}
