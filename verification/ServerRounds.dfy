/**
 Rounds end: however the tasks are scheduled, only so many of them can be stepped before a round is over, and
 so only so many before every socket that is open now has been closed.
 */
module ServerRounds {
  import opened Wrappers
  import F = RequestFraming
  import opened ServerPipeline

  // ---------------------------------------------------------------- what is left to do in a round

  function UnsteppedSessions(w: World): set<Id> {
    set id | id in w.sessions && !w.sessions[id].stepped
  }

  function UnsteppedTasks(w: World): set<Id> {
    set id | id in w.instances && w.instances[id].task && !w.instances[id].stepped
  }

  /**
   The turns there can still be in this round: of the servers, of the connections, of which the HTTP server
   may make another one, and of the instances, of which each connection may get one.
   */
  function Work(w: World): nat {
    (if w.servers.tcpStepped then 0 else 1) + (if w.servers.httpStepped then 0 else 3)
    + (if w.servers.optiStepped then 0 else 1) + 2 * |UnsteppedSessions(w)| + |UnsteppedTasks(w)|
  }

  lemma SubsetSize<T>(a: set<T>, b: set<T>)
    requires a <= b
    ensures |a| <= |b|
  {
    assert b == a + (b - a);
  }

  lemma TcpWorks(w: World, accept: Accept)
    requires Enabled(w, TcpTurns(accept))
    ensures Work(OnTcp(w, accept)) < Work(w)
  {
    assert UnsteppedSessions(OnTcp(w, accept)) == UnsteppedSessions(w);
    assert UnsteppedTasks(OnTcp(w, accept)) == UnsteppedTasks(w);
  }

  lemma HttpWorks(w: World)
    requires Enabled(w, HttpTurns)
    ensures Work(OnHttp(w)) < Work(w)
  {
    SubsetSize(UnsteppedSessions(OnHttp(w)), UnsteppedSessions(w) + {w.nextId});
    assert UnsteppedTasks(OnHttp(w)) == UnsteppedTasks(w);
  }

  lemma OptiWorks(w: World)
    requires Enabled(w, OptiTurns)
    ensures Work(OnOpti(w)) < Work(w)
  {
    SubsetSize(UnsteppedSessions(OnOpti(w)), UnsteppedSessions(w));
    SubsetSize(UnsteppedTasks(OnOpti(w)), UnsteppedTasks(w));
  }

  lemma SteppedSession(w: World, n: World, id: Id)
    requires id in w.sessions && !w.sessions[id].stepped
    requires UnsteppedSessions(n) <= UnsteppedSessions(w) - {id}
    ensures |UnsteppedSessions(n)| < |UnsteppedSessions(w)|
  {
    assert id in UnsteppedSessions(w);
    SubsetSize(UnsteppedSessions(n), UnsteppedSessions(w) - {id});
  }

  /** A turn of a connection; an instance in place of its own, if any, may have a task. */
  lemma ReplacedWorks(w: World, id: Id, s: Session, i: Option<Instance>)
    requires id in w.sessions && !w.sessions[id].stepped && s.stepped
    ensures Work(Replaced(w, id, s, i)) < Work(w)
  {
    SteppedSession(w, Replaced(w, id, s, i), id);
    SubsetSize(UnsteppedTasks(Replaced(w, id, s, i)), UnsteppedTasks(w) + {id});
  }

  lemma DisposeWorks(w: World, id: Id)
    requires id in w.sessions && !w.sessions[id].stepped && w.sessions[id].callbacks
    ensures Work(Dispose(w, id)) < Work(w)
  {
    var n := Dispose(w, id);
    assert id in UnsteppedSessions(w);
    SubsetSize(UnsteppedSessions(n), UnsteppedSessions(w) - {id});
    SubsetSize(UnsteppedTasks(n), UnsteppedTasks(w));
  }

  lemma ConnWorks(p: F.Parsers, w: World, id: Id, chunk: F.Chunk)
    requires Enabled(w, ConnTurns(id, chunk)) && SessionOk(p, w, id)
    ensures Work(OnConn(p, w, id, chunk)) < Work(w)
  {
    var s := w.sessions[id];
    if s.conn.state == F.Disposing {
      SessionDisposing(p, s, InstanceOf(w, id), w.servers.slot == Some(id), w.servers.optiStepped, w.round);
      DisposeWorks(w, id);
    } else {
      ConnSession(p, w, id, chunk);
      var t := s.(conn := F.Step(p, s.conn, chunk), stepped := true);
      ReplacedWorks(w, id, t, AfterStep(s.conn, t.conn, InstanceOf(w, id)));
    }
  }

  lemma InstWorks(w: World, id: Id, status: int)
    requires Enabled(w, InstTurns(id, status))
    ensures Work(OnInst(w, id, status)) < Work(w)
  {
    var n := OnInst(w, id, status);
    assert id in UnsteppedTasks(w);
    SubsetSize(UnsteppedSessions(n), UnsteppedSessions(w));
    SubsetSize(UnsteppedTasks(n), UnsteppedTasks(w) - {id});
  }

  /** Every turn leaves less to do in the round. */
  lemma TurnsWork(p: F.Parsers, w: World, e: Event)
    requires WorldInv(p, w) && Enabled(w, e) && !e.RoundEnds?
    ensures Work(Next(p, w, e)) < Work(w)
  {
    match e
    case TcpTurns(accept) => TcpWorks(w, accept);
    case HttpTurns => HttpWorks(w);
    case OptiTurns => OptiWorks(w);
    case ConnTurns(id, chunk) =>
      assert SessionOk(p, w, id);
      ConnWorks(p, w, id, chunk);
    case InstTurns(id, status) => InstWorks(w, id, status);
  }

  /** With nothing left to do the round can end; otherwise some task can be stepped. */
  lemma RoundsGoOn(p: F.Parsers, w: World) returns (e: Event)
    ensures Enabled(w, e) && (e.RoundEnds? ==> Work(w) == 0)
  {
    if id :| id in w.sessions && !w.sessions[id].stepped {
      e := ConnTurns(id, "");
    } else if id :| id in w.instances && w.instances[id].task && !w.instances[id].stepped {
      e := InstTurns(id, 200);
    } else if !w.servers.tcpStepped {
      e := TcpTurns(WouldBlock);
    } else if !w.servers.httpStepped {
      e := HttpTurns;
    } else if !w.servers.optiStepped {
      e := OptiTurns;
    } else {
      e := RoundEnds;
      assert UnsteppedSessions(w) == {} && UnsteppedTasks(w) == {};
    }
  }

  // ---------------------------------------------------------------- how many turns there are to a round

  function Rounds(events: seq<Event>): nat {
    if events == [] then 0
    else Rounds(events[..|events| - 1]) + (if events[|events| - 1].RoundEnds? then 1 else 0)
  }

  lemma RoundNext(p: F.Parsers, w: World, e: Event)
    requires Enabled(w, e)
    ensures Next(p, w, e).round == w.round + (if e.RoundEnds? then 1 else 0)
  {
  }

  lemma {:induction false} RoundsCount(p: F.Parsers, w: World, events: seq<Event>)
    requires RunFrom(p, w, events).Some?
    ensures RunFrom(p, w, events).value.round == w.round + Rounds(events)
  {
    if events != [] {
      RoundsCount(p, w, events[..|events| - 1]);
      RoundNext(p, RunFrom(p, w, events[..|events| - 1]).value, events[|events| - 1]);
    }
  }

  /** Within one round there are at most as many turns as there was work. */
  lemma {:induction false} RoundsAreFinite(p: F.Parsers, w: World, events: seq<Event>)
    requires Reachable(p, w) && RunFrom(p, w, events).Some? && Rounds(events) == 0
    ensures |events| + Work(RunFrom(p, w, events).value) <= Work(w)
  {
    if events != [] {
      var before := events[..|events| - 1];
      RoundsAreFinite(p, w, before);
      ReachableInv(p, w);
      RunInv(p, w, before);
      TurnsWork(p, RunFrom(p, w, before).value, events[|events| - 1]);
    }
  }

  /** And from every reachable world some schedule gets to the end of the round. */
  lemma {:induction false} RoundCanEnd(p: F.Parsers, w: World) returns (events: seq<Event>)
    requires WorldInv(p, w)
    ensures Rounds(events) == 0 && |events| <= Work(w)
    ensures RunFrom(p, w, events).Some? && Enabled(RunFrom(p, w, events).value, RoundEnds)
    decreases Work(w)
  {
    var e := RoundsGoOn(p, w);
    if e.RoundEnds? {
      events := [];
    } else {
      TurnsWork(p, w, e);
      NextInv(p, w, e);
      var rest := RoundCanEnd(p, Next(p, w, e));
      events := [e] + rest;
      RunOneMore(p, w, e, rest);
    }
  }

  lemma {:induction false} RunOneMore(p: F.Parsers, w: World, e: Event, rest: seq<Event>)
    requires Enabled(w, e)
    ensures RunFrom(p, w, [e] + rest) == RunFrom(p, Next(p, w, e), rest)
    ensures Rounds([e] + rest) == Rounds(rest) + (if e.RoundEnds? then 1 else 0)
  {
    if rest == [] {
      assert [e] + rest == [e] && [e][..0] == [];
      assert RunFrom(p, w, []) == Some(w);
      assert Rounds([]) == 0;
    } else {
      assert ([e] + rest)[..|[e] + rest| - 1] == [e] + rest[..|rest| - 1];
      RunOneMore(p, w, e, rest[..|rest| - 1]);
    }
  }

  // ---------------------------------------------------------------- when every socket is closed

  /** Connections there can be in this round. */
  function Crowd(w: World): nat {
    |w.sessions| + (if w.servers.httpStepped then 0 else 1)
  }

  lemma HttpCrowd(w: World)
    requires Enabled(w, HttpTurns)
    ensures Crowd(OnHttp(w)) <= Crowd(w)
  {
    SubsetSize(OnHttp(w).sessions.Keys, w.sessions.Keys + {w.nextId});
  }

  /** Only the HTTP server makes connections. */
  lemma OthersKeepSessions(p: F.Parsers, w: World, e: Event)
    requires Enabled(w, e) && !e.HttpTurns?
    ensures Next(p, w, e).sessions.Keys <= w.sessions.Keys
    ensures Next(p, w, e).servers.httpStepped == (w.servers.httpStepped && !e.RoundEnds?)
  {
    match e
    case TcpTurns(accept) =>
    case OptiTurns =>
    case ConnTurns(id, chunk) => ConnKeepsSessions(p, w, id, chunk);
    case InstTurns(id, status) =>
    case RoundEnds =>
  }

  lemma ConnKeepsSessions(p: F.Parsers, w: World, id: Id, chunk: F.Chunk)
    requires id in w.sessions
    ensures OnConn(p, w, id, chunk).sessions.Keys <= w.sessions.Keys && OnConn(p, w, id, chunk).servers == w.servers
  {
  }

  lemma CrowdNext(p: F.Parsers, w: World, e: Event)
    requires Enabled(w, e)
    ensures Crowd(Next(p, w, e)) <= Crowd(w) + (if e.RoundEnds? then 1 else 0)
  {
    if e.HttpTurns? {
      HttpCrowd(w);
    } else {
      OthersKeepSessions(p, w, e);
      SubsetSize(Next(p, w, e).sessions.Keys, w.sessions.Keys);
    }
  }

  lemma WorkIsBounded(w: World)
    requires w.instances.Keys <= w.sessions.Keys
    ensures Work(w) <= 5 + 3 * |w.sessions|
  {
    SubsetSize(UnsteppedSessions(w), w.sessions.Keys);
    SubsetSize(UnsteppedTasks(w), w.sessions.Keys);
  }

  /** The turns and round ends there can be until the `rounds`-th round end, with `sessions` connections at first. */
  function Allowed(sessions: nat, rounds: nat): nat {
    if rounds == 0 then 5 + 3 * sessions else Allowed(sessions, rounds - 1) + 6 + 3 * (sessions + rounds)
  }

  /** What an event does to the crowd and to the work. */
  predicate Progress(x: World, n: World, ends: bool) {
    && Crowd(n) <= Crowd(x) + (if ends then 1 else 0)
    && (if ends then Work(n) <= 5 + 3 * Crowd(x) else Work(n) < Work(x))
  }

  lemma RoundProgress(x: World)
    requires x.instances.Keys <= x.sessions.Keys && Enabled(x, RoundEnds)
    ensures Progress(x, OnRoundEnd(x), true)
  {
    var n := OnRoundEnd(x);
    assert n.sessions.Keys == x.sessions.Keys && n.instances.Keys == x.instances.Keys;
    WorkIsBounded(n);
    SubsetSize(n.sessions.Keys, x.sessions.Keys);
  }

  lemma NextProgress(p: F.Parsers, x: World, e: Event)
    requires WorldInv(p, x) && Enabled(x, e)
    ensures Progress(x, Next(p, x, e), e.RoundEnds?)
  {
    if e.RoundEnds? {
      RoundProgress(x);
    } else {
      CrowdNext(p, x, e);
      TurnsWork(p, x, e);
    }
  }

  /** After `turns` turns and `rounds` round ends. */
  predicate WithinBounds(x: World, sessions: nat, turns: nat, rounds: nat) {
    Crowd(x) <= sessions + 1 + rounds && turns + Work(x) <= Allowed(sessions, rounds)
  }

  lemma WithinBoundsStart(p: F.Parsers, w: World)
    requires WorldInv(p, w)
    ensures WithinBounds(w, |w.sessions|, 0, 0)
  {
    WorkIsBounded(w);
  }

  lemma WithinBoundsNext(x: World, n: World, ends: bool, sessions: nat, turns: nat, rounds: nat)
    requires WithinBounds(x, sessions, turns, rounds) && Progress(x, n, ends)
    ensures WithinBounds(n, sessions, turns + 1, rounds + (if ends then 1 else 0))
  {
  }

  lemma RunProgress(p: F.Parsers, w: World, events: seq<Event>, n: World) returns (x: World)
    requires WorldInv(p, w) && events != [] && RunFrom(p, w, events) == Some(n)
    ensures RunFrom(p, w, events[..|events| - 1]) == Some(x) && Progress(x, n, events[|events| - 1].RoundEnds?)
  {
    x := RunFrom(p, w, events[..|events| - 1]).value;
    RunInv(p, w, events[..|events| - 1]);
    NextProgress(p, x, events[|events| - 1]);
  }

  /** The worlds a run goes through: `t[k]` is the one after the first `k` events. */
  ghost predicate Progresses(t: seq<World>, events: seq<Event>) {
    && |t| == |events| + 1
    && forall k :: 0 <= k < |events| ==> Progress(t[k], t[k + 1], events[k].RoundEnds?)
  }

  lemma ProgressesSnoc(t: seq<World>, n: World, events: seq<Event>)
    requires events != [] && Progresses(t, events[..|events| - 1])
    requires Progress(t[|events| - 1], n, events[|events| - 1].RoundEnds?)
    ensures Progresses(t + [n], events) && (t + [n])[0] == t[0] && (t + [n])[|events|] == n
  {
    var u := t + [n];
    forall k | 0 <= k < |events|
      ensures Progress(u[k], u[k + 1], events[k].RoundEnds?)
    {
      assert k < |events| - 1 ==> Progress(t[k], t[k + 1], events[..|events| - 1][k].RoundEnds?);
    }
  }

  lemma {:induction false} RunProgresses(p: F.Parsers, w: World, events: seq<Event>, n: World)
      returns (t: seq<World>)
    requires WorldInv(p, w) && RunFrom(p, w, events) == Some(n)
    ensures Progresses(t, events) && t[0] == w && t[|events|] == n
  {
    if events == [] {
      t := [w];
    } else {
      var x := RunProgress(p, w, events, n);
      var before := RunProgresses(p, w, events[..|events| - 1], x);
      ProgressesSnoc(before, n, events);
      t := before + [n];
    }
  }

  lemma {:induction false} StaysWithinBounds(t: seq<World>, events: seq<Event>, sessions: nat, k: nat)
    requires Progresses(t, events) && k <= |events| && WithinBounds(t[0], sessions, 0, 0)
    ensures WithinBounds(t[k], sessions, k, Rounds(events[..k]))
  {
    if k > 0 {
      StaysWithinBounds(t, events, sessions, k - 1);
      assert events[..k][..k - 1] == events[..k - 1];
      WithinBoundsNext(t[k - 1], t[k], events[k - 1].RoundEnds?, sessions, k - 1, Rounds(events[..k - 1]));
    }
  }

  lemma {:induction false} RunIsAllowed(p: F.Parsers, w: World, events: seq<Event>)
    requires WorldInv(p, w) && RunFrom(p, w, events).Some?
    ensures |events| <= Allowed(|w.sessions|, Rounds(events))
  {
    var t := RunProgresses(p, w, events, RunFrom(p, w, events).value);
    WithinBoundsStart(p, w);
    StaysWithinBounds(t, events, |w.sessions|, |events|);
    assert events[..|events|] == events;
  }

  lemma {:induction false} AllowedGrows(sessions: nat, a: nat, b: nat)
    requires a <= b
    ensures Allowed(sessions, a) <= Allowed(sessions, b)
  {
    if a < b {
      AllowedGrows(sessions, a, b - 1);
    }
  }

  /** As a polynomial. */
  lemma {:induction false} AllowedIs(sessions: nat, rounds: nat)
    ensures Allowed(sessions, rounds) == Allowed(0, rounds) + 3 * sessions * (rounds + 1)
    ensures 2 * Allowed(0, rounds) == 10 + 15 * rounds + 3 * (rounds * rounds)
  {
    if rounds > 0 {
      AllowedIs(sessions, rounds - 1);
      Square(rounds);
      OneFactorMore(3 * sessions, rounds);
    }
  }

  lemma Square(n: nat)
    requires n > 0
    ensures n * n == (n - 1) * (n - 1) + 2 * n - 1
  {
  }

  lemma OneFactorMore(a: nat, n: nat)
    ensures a * (n + 1) == a * n + a
  {
  }

  /** After 53 rounds every socket that was open at first has been closed: those open now came later. */
  lemma {:induction false} RoundsCloseSockets(p: F.Parsers, w: World, events: seq<Event>, fd: int)
    requires Reachable(p, w) && RunFrom(p, w, events).Some? && Rounds(events) >= ROUNDS
    requires fd in RunFrom(p, w, events).value.open
    ensures RunFrom(p, w, events).value.open[fd] > w.round
  {
    RunFromReachable(p, w, events);
    RoundsCount(p, w, events);
    EverySocketIsClosed(p, RunFrom(p, w, events).value, fd);
  }

  /**
   Whatever the schedule and the peers do, with `n` connections in the beginning 4452 + 159 n turns and
   round ends are enough: every socket that is open after them was accepted after their first round.
   */
  lemma {:induction false} SocketsAreClosedInTime(p: F.Parsers, w: World, events: seq<Event>, fd: int)
    requires Reachable(p, w) && RunFrom(p, w, events).Some? && |events| >= 4452 + 159 * |w.sessions|
    requires fd in RunFrom(p, w, events).value.open
    ensures RunFrom(p, w, events).value.open[fd] > w.round
  {
    ReachableInv(p, w);
    RunIsAllowed(p, w, events);
    ManyTurnsManyRounds(|w.sessions|, |events|, Rounds(events));
    RoundsCloseSockets(p, w, events, fd);
  }

  lemma {:induction false} ManyTurnsManyRounds(sessions: nat, turns: nat, rounds: nat)
    requires 4452 + 159 * sessions <= turns <= Allowed(sessions, rounds)
    ensures rounds >= ROUNDS
  {
    AllowedIs(sessions, 52);
    if rounds <= 52 {
      AllowedGrows(sessions, rounds, 52);
    }
  }
}
