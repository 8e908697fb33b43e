/**
 The cooperative server: an accepted socket goes TCP slot, HTTP slot, Opti slot, instance. Nothing locks
 the slots. The scheduler steps every live task once a round, in any order; a task that is created may
 or may not be stepped in the round that creates it.
 */
module ServerPipeline {
  import opened Wrappers
  import F = RequestFraming

  type Id = nat

  /** What `accept` can report; the kernel never hands out a descriptor that is still open. */
  datatype Accept = Accepted(fd: nat) | WouldBlock | Failed

  datatype TcpState = Listening | Connecting | Connected | TcpError
  datatype HttpState = HttpIdling | HttpConnecting | HttpConnected | HttpError
  datatype OptiState = OptiIdle | OptiConnecting | OptiConnected | OptiError | OptiDisposing
  datatype InstanceState = Initializing | RequestParsing | ResponseBuilding | ResponseSending | Disposing

  /** The three servers, each with its slot, the round in which the slot's socket was accepted, and its turn. */
  datatype Servers = Servers(
    tcp: TcpState,
    tcpFd: int,
    tcpSince: int,
    tcpStepped: bool,
    http: HttpState,
    httpFd: int,
    httpSince: int,
    httpStepped: bool,
    opti: OptiState,
    slot: Option<Id>,
    optiStepped: bool)

  /** A connection with its task; `callbacks` says whether they have been installed. */
  datatype Session = Session(conn: F.Conn, fd: int, since: int, callbacks: bool, stepped: bool, created: bool)

  /** The instance of a connection; its task exists once the request has come. */
  datatype Instance = Instance(state: InstanceState, task: bool, stepped: bool, created: bool)

  /** `open` maps every open socket to the round in which it was accepted. */
  datatype World = World(
    servers: Servers,
    sessions: map<Id, Session>,
    instances: map<Id, Instance>,
    nextId: nat,
    round: int,
    open: map<int, int>,
    disposed: set<Id>,
    fault: bool)

  const START: Servers :=
    Servers(Listening, -1, 0, false, HttpIdling, -1, 0, false, OptiIdle, None, false)

  const INITIAL: World := World(START, map[], map[], 0, 0, map[], {}, false)

  // ---------------------------------------------------------------- the turns of the servers

  function TcpTurn(v: Servers, accept: Accept, round: int): Servers {
    var n := v.(tcpStepped := true);
    match v.tcp
    case Listening => (
      match accept
      case Accepted(fd) => n.(tcp := Connecting, tcpFd := fd, tcpSince := round)
      case WouldBlock => n
      case Failed => n.(tcp := TcpError))
    case Connecting =>
      if v.tcpFd < 0 then n.(tcp := TcpError)
      else n.(tcp := Connected, tcpFd := -1, http := HttpConnecting, httpFd := v.tcpFd, httpSince := v.tcpSince)
    case Connected => n.(tcp := Listening)
    case TcpError => n
  }

  /** `id` stands for the address of the connection that is allocated. */
  function HttpTurn(v: Servers, id: Id): Servers {
    var n := v.(httpStepped := true);
    match v.http
    case HttpIdling => n
    case HttpConnecting =>
      if v.httpFd < 0 then n.(http := HttpError)
      else n.(http := HttpConnected, opti := OptiConnecting, slot := Some(id))
    case HttpConnected => n.(http := HttpIdling)
    case HttpError => n.(http := HttpIdling)
  }

  function OptiTurn(v: Servers): Servers {
    var n := v.(optiStepped := true);
    match v.opti
    case OptiIdle => n
    case OptiConnecting => if v.slot.None? then n.(opti := OptiError) else n.(opti := OptiConnected, slot := None)
    case OptiConnected => n.(opti := OptiIdle)
    case OptiError => n.(opti := OptiDisposing)
    case OptiDisposing => n
  }

  function NewRound(v: Servers): Servers {
    v.(tcpStepped := false, httpStepped := false, optiStepped := false)
  }

  // ---------------------------------------------------------------- why no slot is overwritten

  /**
   While the HTTP slot is full, the TCP server is in the round of its handover, or in the next round
   with the HTTP server still to be stepped.
   */
  predicate HttpSlotTiming(v: Servers) {
    v.http == HttpConnecting ==>
      || (v.tcp == Connected && v.tcpStepped)
      || (!v.httpStepped && ((v.tcp == Connected && !v.tcpStepped) || (v.tcp == Listening && v.tcpStepped)))
  }

  /**
   While the Opti slot is full, the HTTP server is in the round of its handover, or the Opti server is
   still to be stepped in the next round; in both cases the TCP server cannot reach a handover.
   */
  predicate OptiSlotTiming(v: Servers) {
    v.opti == OptiConnecting ==>
      && v.http != HttpConnecting
      && (|| (v.http == HttpConnected && v.httpStepped && (v.tcp == Connected || (v.tcp == Listening && v.tcpStepped)))
          || (!v.optiStepped && ((v.tcp == Connected && !v.tcpStepped) || v.tcp == Listening
                                 || ((v.tcp == Connecting || v.tcp == TcpError) && v.tcpStepped))))
  }

  /** The HTTP server rests from the turn after its handover until the TCP server hands over again. */
  predicate HttpRestTiming(v: Servers) {
    v.http == HttpConnected ==>
      if v.httpStepped then v.tcp == Connected || (v.tcp == Listening && v.tcpStepped)
      else
        || v.tcp == Listening || (v.tcp == Connected && !v.tcpStepped)
        || ((v.tcp == Connecting || v.tcp == TcpError) && v.tcpStepped)
  }

  predicate SlotsFilled(v: Servers) {
    && (v.tcp == Connecting <==> v.tcpFd >= 0)
    && (v.http == HttpConnecting ==> v.httpFd >= 0)
    && (v.opti == OptiConnecting <==> v.slot.Some?)
    && v.http != HttpError && v.opti != OptiError && v.opti != OptiDisposing
  }

  /** A socket waits at most one round in the TCP slot and leaves the HTTP slot in its second. */
  predicate SlotAges(v: Servers, round: int) {
    && (v.tcp == Connecting ==> round - v.tcpSince <= (if v.tcpStepped then 0 else 1))
    && (v.http == HttpConnecting ==>
          round - v.httpSince <= (if v.tcp == Connected && v.tcpStepped then 1 else 2))
  }

  predicate ServersInv(v: Servers, round: int) {
    HttpSlotTiming(v) && OptiSlotTiming(v) && HttpRestTiming(v) && SlotsFilled(v) && SlotAges(v, round)
  }

  lemma TcpTurnInv(v: Servers, accept: Accept, round: int)
    requires ServersInv(v, round) && !v.tcpStepped
    ensures ServersInv(TcpTurn(v, accept, round), round)
    ensures v.tcp == Listening ==> v.tcpFd < 0
    ensures v.tcp == Connecting ==> v.http == HttpIdling && v.opti != OptiConnecting
  {
  }

  lemma HttpTurnInv(v: Servers, id: Id, round: int)
    requires ServersInv(v, round) && !v.httpStepped
    ensures ServersInv(HttpTurn(v, id), round)
    ensures v.http == HttpConnecting ==> v.slot == None
    ensures HttpTurn(v, id).http == if v.http == HttpConnecting then HttpConnected else HttpIdling
  {
  }

  lemma OptiTurnInv(v: Servers, round: int)
    requires ServersInv(v, round) && !v.optiStepped
    ensures ServersInv(OptiTurn(v), round)
    ensures OptiTurn(v).opti == if v.opti == OptiConnecting then OptiConnected else OptiIdle
  {
  }

  lemma NewRoundInv(v: Servers, round: int)
    requires ServersInv(v, round) && v.tcpStepped && v.httpStepped && v.optiStepped
    ensures ServersInv(NewRound(v), round + 1)
  {
  }

  // ---------------------------------------------------------------- the turns of connections and instances

  datatype Event =
    | TcpTurns(accept: Accept)
    | HttpTurns
    | OptiTurns
    | ConnTurns(id: Id, chunk: F.Chunk)
    | InstTurns(id: Id, status: int)
    | RoundEnds

  predicate Enabled(w: World, e: Event) {
    match e
    case TcpTurns(accept) => !w.servers.tcpStepped && (accept.Accepted? ==> accept.fd !in w.open)
    case HttpTurns => !w.servers.httpStepped
    case OptiTurns => !w.servers.optiStepped
    case ConnTurns(id, _) => id in w.sessions && !w.sessions[id].stepped
    case InstTurns(id, _) => id in w.instances && w.instances[id].task && !w.instances[id].stepped
    case RoundEnds =>
      && w.servers.tcpStepped && w.servers.httpStepped && w.servers.optiStepped
      && (forall id :: id in w.sessions ==> w.sessions[id].stepped || w.sessions[id].created)
      && (forall id :: id in w.instances && w.instances[id].task ==> w.instances[id].stepped || w.instances[id].created)
  }

  function OnTcp(w: World, accept: Accept): World {
    w.(servers := TcpTurn(w.servers, accept, w.round),
       open := if w.servers.tcp == Listening && accept.Accepted? then w.open[accept.fd := w.round] else w.open)
  }

  function OnHttp(w: World): World {
    var n := w.(servers := HttpTurn(w.servers, w.nextId));
    if w.servers.http == HttpConnecting && w.servers.httpFd >= 0 then
      var s := Session(F.INITIAL, w.servers.httpFd, w.servers.httpSince, false, false, true);
      n.(sessions := w.sessions[w.nextId := s], nextId := w.nextId + 1)
    else n
  }

  /** The new instance installs its callbacks on the connection of the slot. */
  function OnOpti(w: World): World {
    var n := w.(servers := OptiTurn(w.servers));
    var v := w.servers;
    if v.opti == OptiConnecting && v.slot.Some? && v.slot.value in w.sessions then
      var id := v.slot.value;
      n.(sessions := w.sessions[id := w.sessions[id].(callbacks := true)],
         instances := w.instances[id := Instance(Initializing, false, false, false)])
    else n
  }

  /** Disconnects, and has the instance dispose of the connection and of itself. */
  function Dispose(w: World, id: Id): World
    requires id in w.sessions
  {
    var n := w.(open := w.open - {w.sessions[id].fd});
    if !w.sessions[id].callbacks then n.(fault := true)
    else n.(sessions := w.sessions - {id}, instances := w.instances - {id}, disposed := w.disposed + {id})
  }

  function OnConn(p: F.Parsers, w: World, id: Id, chunk: F.Chunk): World
    requires id in w.sessions
  {
    var s := w.sessions[id];
    if s.conn.state == F.Disposing then Dispose(w, id)
    else
      var m := F.Step(p, s.conn, chunk);
      var n := w.(sessions := w.sessions[id := s.(conn := m, stepped := true)]);
      if s.conn.state != F.Validating || m.state != F.Handover then n
      else if !s.callbacks then n.(fault := true)
      else n.(instances := w.instances[id := Instance(Initializing, true, false, true)])
  }

  function InstanceTurn(i: Instance): Instance {
    var n := i.(stepped := true);
    match i.state
    case Initializing => n.(state := RequestParsing)
    case RequestParsing => n.(state := ResponseBuilding)
    case ResponseBuilding => n.(state := ResponseSending)
    case ResponseSending => n.(state := Disposing)
    case Disposing => n
  }

  function Answer(c: F.Conn, status: int): F.Conn {
    c.(ready := true, status := status)
  }

  /** Every endpoint ends in a response: its own, or the 500 that replaces a failed one. */
  function OnInst(w: World, id: Id, status: int): World
    requires id in w.instances
  {
    var n := w.(instances := w.instances[id := InstanceTurn(w.instances[id])]);
    if id !in w.sessions then n.(fault := true)
    else if w.instances[id].state == ResponseBuilding then
      n.(sessions := w.sessions[id := w.sessions[id].(conn := Answer(w.sessions[id].conn, status))])
    else n
  }

  function RestSessions(sessions: map<Id, Session>): map<Id, Session> {
    map id | id in sessions :: sessions[id].(stepped := false, created := false)
  }

  function RestInstances(instances: map<Id, Instance>): map<Id, Instance> {
    map id | id in instances :: instances[id].(stepped := false, created := false)
  }

  function OnRoundEnd(w: World): World {
    w.(servers := NewRound(w.servers), round := w.round + 1,
       sessions := RestSessions(w.sessions), instances := RestInstances(w.instances))
  }

  function Next(p: F.Parsers, w: World, e: Event): World
    requires Enabled(w, e)
  {
    match e
    case TcpTurns(accept) => OnTcp(w, accept)
    case HttpTurns => OnHttp(w)
    case OptiTurns => OnOpti(w)
    case ConnTurns(id, chunk) => OnConn(p, w, id, chunk)
    case InstTurns(id, status) => OnInst(w, id, status)
    case RoundEnds => OnRoundEnd(w)
  }

  /** One event more, where the run has got to. */
  function RunOn(p: F.Parsers, w: Option<World>, e: Event): Option<World> {
    if w.None? || !Enabled(w.value, e) then None else Some(Next(p, w.value, e))
  }

  /** The world after `events`, if each of them was enabled in its turn. */
  function RunFrom(p: F.Parsers, w: World, events: seq<Event>): Option<World> {
    if events == [] then Some(w) else RunOn(p, RunFrom(p, w, events[..|events| - 1]), events[|events| - 1])
  }

  // ---------------------------------------------------------------- what holds of one session

  /** Steps a connection can at most have left. */
  function Rank(c: F.Conn, left: nat): int {
    match c.state
    case Initializing => 50
    case ReadingFirstLine => 49 - c.retries
    case ReadingHeaders => 49 - c.retries
    case ReadingBody => 28 - c.retries
    case Validating => 7
    case Handover => if c.ready then 3 else 3 + left
    case Error => 3
    case Responding => 2
    case Disposing => 1
  }

  function Left(i: Instance): nat {
    match i.state
    case Initializing => 3
    case RequestParsing => 2
    case ResponseBuilding => 1
    case _ => 0
  }

  function Credit(stepped: bool, created: bool): nat {
    if stepped || created then 1 else 0
  }

  /** The connection waits for its instance. */
  predicate Waiting(c: F.Conn) {
    c.state == F.Handover && !c.ready
  }

  /** Rounds since the socket was accepted, plus the steps left, plus one for the turn already had. */
  function Potential(s: Session, i: Option<Instance>, round: int): int {
    var left := if i.Some? then Left(i.value) else 0;
    var credit := if Waiting(s.conn) && i.Some? then Credit(i.value.stepped, i.value.created)
      else Credit(s.stepped, s.created);
    round - s.since + Rank(s.conn, left) + credit
  }

  const ROUNDS := 53

  /** Where a connection can be that has had at most `n` turns. */
  predicate AtMost(c: F.Conn, n: nat) {
    || c.state == F.Initializing
    || (n >= 1 && c.state == F.ReadingFirstLine)
    || (n >= 2 && (c.state == F.ReadingHeaders || c.state == F.Responding || c.state == F.Error))
  }

  /** In the Opti slot: no callbacks yet, and too few turns to have called one. */
  predicate Slotted(s: Session, optiStepped: bool) {
    && !s.callbacks && !s.conn.requested
    && (if s.created then AtMost(s.conn, if s.stepped then 1 else 0)
        else !optiStepped && AtMost(s.conn, if s.stepped then 2 else 1))
  }

  /** The instance has a task exactly if the request has come, and answers it once. */
  predicate Paired(c: F.Conn, i: Instance) {
    && i.task == c.requested
    && (c.requested && !c.ready ==> c.state == F.Handover)
    && (i.task ==> (Left(i) > 0 <==> !c.ready))
  }

  predicate SessionInv(p: F.Parsers, s: Session, i: Option<Instance>, slotted: bool, optiStepped: bool, round: int) {
    && F.Inv(p, s.conn)
    && (slotted ==> i.None? && Slotted(s, optiStepped))
    && (!slotted ==> i.Some? && s.callbacks && Paired(s.conn, i.value))
    && Potential(s, i, round) <= ROUNDS
  }

  /** What the pipeline needs to know of a step of the connection. */
  predicate StepEffect(c: F.Conn, m: F.Conn) {
    && (c.state == F.Initializing ==> m.state == F.ReadingFirstLine)
    && (c.state == F.ReadingFirstLine ==>
          m.state == F.ReadingFirstLine || m.state == F.ReadingHeaders || m.state == F.Responding || m.state == F.Error)
    && (m.requested != c.requested ==> c.state == F.Validating && m.state == F.Handover)
    && (c.state == F.Validating && m.state == F.Handover ==> m.requested && !m.ready)
    && (m.ready != c.ready ==> m.ready && c.state == F.Validating && m.state == F.Responding)
    && (Waiting(c) ==> m == c)
    && (!Waiting(c) ==> Rank(m, 3) < Rank(c, 0))
    && (m.state == F.Handover ==> c.state == F.Handover || c.state == F.Validating)
    && m.state != F.Initializing
  }

  lemma ReadStepEffect(c: F.Conn, n: F.Conn, m: F.Conn)
    requires F.Reading(c.state) && c.retries <= F.MAX_RETRIES
    requires n.state == c.state && n.retries == c.retries + 1 && n.requested == c.requested && n.ready == c.ready
    requires !c.requested && !c.ready && F.ReadEffect(n, m)
    ensures StepEffect(c, m)
  {
  }

  lemma MoveStepEffect(p: F.Parsers, c: F.Conn)
    requires !F.Reading(c.state) && c.state != F.Disposing && F.OutcomeInv(p, c)
    ensures StepEffect(c, F.Move(p, c))
  {
  }

  lemma ConnStepEffect(p: F.Parsers, c: F.Conn, chunk: F.Chunk)
    requires F.Inv(p, c) && c.state != F.Disposing
    ensures StepEffect(c, F.Step(p, c, chunk))
  {
    if F.Reading(c.state) && c.retries <= F.MAX_RETRIES {
      var n := F.Take(c, chunk);
      if c.state == F.ReadingFirstLine {
        F.FirstLineEffect(p, n);
      } else if c.state == F.ReadingHeaders {
        F.HeadersEffect(p, n);
      }
      ReadStepEffect(c, n, F.Read(p, n));
    } else if !F.Reading(c.state) {
      MoveStepEffect(p, c);
    }
  }

  /** What a turn of the connection leaves as its instance. */
  function AfterStep(c: F.Conn, m: F.Conn, i: Option<Instance>): Option<Instance> {
    if c.state == F.Validating && m.state == F.Handover then Some(Instance(Initializing, true, false, true)) else i
  }

  lemma SessionStep(
      p: F.Parsers, s: Session, m: F.Conn, i: Option<Instance>, slotted: bool, optiStepped: bool, round: int)
    requires SessionInv(p, s, i, slotted, optiStepped, round) && !s.stepped
    requires StepEffect(s.conn, m) && F.Inv(p, m) && s.conn.state != F.Disposing
    ensures SessionInv(p, s.(conn := m, stepped := true), AfterStep(s.conn, m, i), slotted, optiStepped, round)
    ensures slotted ==> s.conn.state != F.Validating
  {
  }

  lemma SessionStart(p: F.Parsers, fd: int, since: int, optiStepped: bool, round: int)
    requires round - since <= 2
    ensures SessionInv(p, Session(F.INITIAL, fd, since, false, false, true), None, true, optiStepped, round)
  {
    F.StartInv(p);
  }

  /** The Opti server takes the session out of its slot. */
  lemma SessionTaken(p: F.Parsers, s: Session, optiStepped: bool, round: int)
    requires SessionInv(p, s, None, true, optiStepped, round)
    ensures SessionInv(p, s.(callbacks := true), Some(Instance(Initializing, false, false, false)),
                       false, true, round)
  {
  }

  lemma SessionAnswered(p: F.Parsers, s: Session, i: Instance, status: int, optiStepped: bool, round: int)
    requires SessionInv(p, s, Some(i), false, optiStepped, round) && i.task && !i.stepped
    ensures SessionInv(p, if i.state == ResponseBuilding then s.(conn := Answer(s.conn, status)) else s,
                       Some(InstanceTurn(i)), false, optiStepped, round)
  {
    if i.state == ResponseBuilding {
      AnswerKeepsFraming(p, s.conn, status);
    }
  }

  lemma AnswerKeepsFraming(p: F.Parsers, c: F.Conn, status: int)
    requires F.Inv(p, c) && c.requested
    ensures F.Inv(p, Answer(c, status))
  {
  }

  lemma SessionNewRound(p: F.Parsers, s: Session, i: Option<Instance>, slotted: bool, round: int)
    requires SessionInv(p, s, i, slotted, true, round)
    requires s.stepped || s.created
    requires i.Some? && i.value.task ==> i.value.stepped || i.value.created
    ensures SessionInv(p, s.(stepped := false, created := false),
                       if i.Some? then Some(i.value.(stepped := false, created := false)) else None,
                       slotted, false, round + 1)
  {
  }

  /** A disposed session was not in the slot, so its callbacks are there. */
  lemma SessionDisposing(p: F.Parsers, s: Session, i: Option<Instance>, slotted: bool, optiStepped: bool, round: int)
    requires SessionInv(p, s, i, slotted, optiStepped, round) && s.conn.state == F.Disposing
    ensures !slotted && s.callbacks
  {
  }

  // ---------------------------------------------------------------- the whole world

  function InstanceOf(w: World, id: Id): Option<Instance> {
    if id in w.instances then Some(w.instances[id]) else None
  }

  predicate SessionOk(p: F.Parsers, w: World, id: Id)
    requires id in w.sessions
  {
    SessionInv(p, w.sessions[id], InstanceOf(w, id), w.servers.slot == Some(id), w.servers.optiStepped, w.round)
  }

  predicate SessionsInv(p: F.Parsers, w: World) {
    forall id :: id in w.sessions ==> SessionOk(p, w, id)
  }

  function SlotSet(v: Servers): set<Id> {
    if v.slot.Some? then {v.slot.value} else {}
  }

  /**
   Live connections are the live instances and the one in the Opti slot; every connection ever made is
   live or has been disposed of, never both.
   */
  ghost predicate PairsInv(w: World) {
    && w.sessions.Keys == w.instances.Keys + SlotSet(w.servers)
    && w.instances.Keys !! SlotSet(w.servers)
    && w.sessions.Keys !! w.disposed
    && (forall id: Id :: id < w.nextId <==> id in w.sessions.Keys + w.disposed)
  }

  function TcpHolds(v: Servers): set<int> {
    if v.tcp == Connecting then {v.tcpFd} else {}
  }

  function HttpHolds(v: Servers): set<int> {
    if v.http == HttpConnecting then {v.httpFd} else {}
  }

  function SessionsHold(sessions: map<Id, Session>): set<int> {
    set id | id in sessions :: sessions[id].fd
  }

  predicate OwnFds(sessions: map<Id, Session>) {
    forall a, b :: a in sessions && b in sessions && a != b ==> sessions[a].fd != sessions[b].fd
  }

  /** Every open socket is held by exactly one of the TCP slot, the HTTP slot, or one connection. */
  predicate HoldersInv(w: World) {
    && w.open.Keys == TcpHolds(w.servers) + HttpHolds(w.servers) + SessionsHold(w.sessions)
    && TcpHolds(w.servers) !! HttpHolds(w.servers)
    && TcpHolds(w.servers) + HttpHolds(w.servers) !! SessionsHold(w.sessions)
    && OwnFds(w.sessions)
  }

  /** The round of acceptance travels with the socket. */
  predicate SinceInv(w: World) {
    && (w.servers.tcp == Connecting ==> (w.servers.tcpFd, w.servers.tcpSince) in w.open.Items)
    && (w.servers.http == HttpConnecting ==> (w.servers.httpFd, w.servers.httpSince) in w.open.Items)
    && (forall id :: id in w.sessions ==> (w.sessions[id].fd, w.sessions[id].since) in w.open.Items)
  }

  ghost predicate WorldInv(p: F.Parsers, w: World) {
    && !w.fault
    && ServersInv(w.servers, w.round)
    && PairsInv(w)
    && HoldersInv(w)
    && SinceInv(w)
    && SessionsInv(p, w)
  }

  // -- TCP

  lemma OnTcpInv(p: F.Parsers, w: World, accept: Accept)
    requires WorldInv(p, w) && Enabled(w, TcpTurns(accept))
    ensures WorldInv(p, OnTcp(w, accept))
  {
    TcpTurnInv(w.servers, accept, w.round);
    TcpSockets(w, accept);
    TcpSince(w, accept);
    TcpPairs(w, accept);
    TcpSessions(p, w, accept);
  }

  lemma TcpSessions(p: F.Parsers, w: World, accept: Accept)
    requires SessionsInv(p, w)
    ensures SessionsInv(p, OnTcp(w, accept))
  {
    SessionsKept(p, w, OnTcp(w, accept));
  }

  lemma TcpPairs(w: World, accept: Accept)
    requires PairsInv(w)
    ensures PairsInv(OnTcp(w, accept))
  {
  }

  lemma TcpSockets(w: World, accept: Accept)
    requires HoldersInv(w) && ServersInv(w.servers, w.round) && !w.servers.tcpStepped
    requires accept.Accepted? ==> accept.fd !in w.open
    ensures HoldersInv(OnTcp(w, accept))
  {
    TcpHolders(w.servers, accept, w.round, w.open.Keys);
  }

  /** No session notices a turn that leaves it, its instance, the Opti server and the round alone. */
  lemma SessionsKept(p: F.Parsers, w: World, n: World)
    requires SessionsInv(p, w)
    requires n.sessions.Keys <= w.sessions.Keys
    requires forall id :: id in n.sessions ==>
               n.sessions[id] == w.sessions[id] && InstanceOf(n, id) == InstanceOf(w, id)
    requires n.servers.slot == w.servers.slot && n.servers.optiStepped == w.servers.optiStepped && n.round == w.round
    ensures SessionsInv(p, n)
  {
    forall id | id in n.sessions
      ensures SessionOk(p, n, id)
    {
      assert SessionOk(p, w, id);
    }
  }

  lemma TcpHolders(v: Servers, accept: Accept, round: int, open: set<int>)
    requires ServersInv(v, round) && !v.tcpStepped && (accept.Accepted? ==> accept.fd !in open)
    requires TcpHolds(v) + HttpHolds(v) <= open && TcpHolds(v) !! HttpHolds(v)
    ensures var n := TcpTurn(v, accept, round);
      && TcpHolds(n) !! HttpHolds(n)
      && TcpHolds(n) + HttpHolds(n) == TcpHolds(v) + HttpHolds(v) +
         (if v.tcp == Listening && accept.Accepted? then {accept.fd} else {})
  {
  }

  lemma TcpSince(w: World, accept: Accept)
    requires SinceInv(w) && ServersInv(w.servers, w.round) && !w.servers.tcpStepped
    requires accept.Accepted? ==> accept.fd !in w.open
    ensures SinceInv(OnTcp(w, accept))
  {
  }

  // -- HTTP

  lemma OnHttpInv(p: F.Parsers, w: World)
    requires WorldInv(p, w) && Enabled(w, HttpTurns)
    ensures WorldInv(p, OnHttp(w))
  {
    HttpTurnInv(w.servers, w.nextId, w.round);
    if w.servers.http == HttpConnecting {
      HttpMakesSession(w);
      HttpSessions(p, w);
    } else {
      HttpRests(w);
      HttpRestSessions(p, w);
    }
  }

  lemma HttpRestSessions(p: F.Parsers, w: World)
    requires SessionsInv(p, w) && w.servers.http != HttpConnecting
    ensures SessionsInv(p, OnHttp(w))
  {
    SessionsKept(p, w, OnHttp(w));
  }

  lemma HttpRests(w: World)
    requires PairsInv(w) && HoldersInv(w) && SinceInv(w) && w.servers.http != HttpConnecting
    ensures PairsInv(OnHttp(w)) && HoldersInv(OnHttp(w)) && SinceInv(OnHttp(w))
  {
  }

  lemma HttpSessions(p: F.Parsers, w: World)
    requires SessionsInv(p, w) && ServersInv(w.servers, w.round) && w.servers.http == HttpConnecting
    requires w.servers.slot == None && w.nextId !in w.instances
    ensures SessionsInv(p, OnHttp(w))
  {
    var n := OnHttp(w);
    forall id | id in n.sessions
      ensures SessionOk(p, n, id)
    {
      if id == w.nextId {
        SessionStart(p, w.servers.httpFd, w.servers.httpSince, w.servers.optiStepped, w.round);
      } else {
        assert SessionOk(p, w, id);
      }
    }
  }

  lemma HttpMakesSession(w: World)
    requires ServersInv(w.servers, w.round) && PairsInv(w) && HoldersInv(w) && SinceInv(w)
    requires w.servers.http == HttpConnecting && w.servers.slot == None
    ensures PairsInv(OnHttp(w)) && HoldersInv(OnHttp(w)) && SinceInv(OnHttp(w))
    ensures w.nextId !in w.sessions && w.nextId !in w.instances
  {
    assert w.nextId !in w.sessions.Keys + w.disposed;
    assert w.nextId !in w.sessions.Keys && w.nextId !in w.instances.Keys;
    NewSessionPairs(w);
    NewSessionHolders(w);
  }

  lemma NewSessionPairs(w: World)
    requires SlotsFilled(w.servers) && PairsInv(w) && w.servers.http == HttpConnecting && w.servers.slot == None
    ensures PairsInv(OnHttp(w))
  {
    assert w.nextId !in w.sessions.Keys + w.disposed;
    assert OnHttp(w).sessions.Keys == w.sessions.Keys + {w.nextId};
  }

  lemma NewSessionHolders(w: World)
    requires ServersInv(w.servers, w.round) && HoldersInv(w) && SinceInv(w)
    requires w.servers.http == HttpConnecting && w.nextId !in w.sessions
    ensures HoldersInv(OnHttp(w)) && SinceInv(OnHttp(w))
  {
    SessionsHoldUpdate(w.sessions, w.nextId, OnHttp(w).sessions[w.nextId]);
  }

  lemma SessionsHoldUpdate(sessions: map<Id, Session>, id: Id, s: Session)
    requires id !in sessions || sessions[id].fd == s.fd
    ensures SessionsHold(sessions[id := s]) == SessionsHold(sessions) + {s.fd}
    ensures OwnFds(sessions) && (id in sessions || s.fd !in SessionsHold(sessions)) ==> OwnFds(sessions[id := s])
  {
    var n := sessions[id := s];
    forall x | x in SessionsHold(sessions) + {s.fd}
      ensures x in SessionsHold(n)
    {
      if x == s.fd {
        assert n[id].fd == x;
      } else {
        var k :| k in sessions && sessions[k].fd == x;
        assert n[k].fd == x;
      }
    }
    forall k | k in sessions
      ensures sessions[k].fd in SessionsHold(sessions)
    {
    }
  }

  // -- Opti

  lemma OnOptiInv(p: F.Parsers, w: World)
    requires WorldInv(p, w) && Enabled(w, OptiTurns)
    ensures WorldInv(p, OnOpti(w))
  {
    OptiTurnInv(w.servers, w.round);
    if w.servers.opti == OptiConnecting {
      OptiTakesSession(w, w.servers.slot.value);
    } else {
      assert OnOpti(w).sessions == w.sessions;
    }
    OptiSessions(p, w);
  }

  lemma OptiTakesSession(w: World, id: Id)
    requires PairsInv(w) && HoldersInv(w) && SinceInv(w)
    requires w.servers.opti == OptiConnecting && w.servers.slot == Some(id)
    ensures PairsInv(OnOpti(w)) && HoldersInv(OnOpti(w)) && SinceInv(OnOpti(w))
  {
    OptiPairs(w, id);
    OptiHolders(w, id);
  }

  lemma OptiPairs(w: World, id: Id)
    requires PairsInv(w) && w.servers.opti == OptiConnecting && w.servers.slot == Some(id)
    ensures PairsInv(OnOpti(w)) && id in w.sessions
  {
    assert id in w.sessions.Keys;
    assert OnOpti(w).sessions.Keys == w.sessions.Keys;
  }

  lemma OptiHolders(w: World, id: Id)
    requires HoldersInv(w) && SinceInv(w) && id in w.sessions
    requires w.servers.opti == OptiConnecting && w.servers.slot == Some(id)
    ensures HoldersInv(OnOpti(w)) && SinceInv(OnOpti(w))
  {
    SessionsHoldUpdate(w.sessions, id, w.sessions[id].(callbacks := true));
    assert w.sessions[id].fd in SessionsHold(w.sessions);
  }

  lemma OptiSessions(p: F.Parsers, w: World)
    requires SessionsInv(p, w) && SlotsFilled(w.servers) && PairsInv(w) && !w.servers.optiStepped
    ensures SessionsInv(p, OnOpti(w))
  {
    var n := OnOpti(w);
    forall id | id in n.sessions
      ensures SessionOk(p, n, id)
    {
      assert SessionOk(p, w, id);
      if w.servers.slot == Some(id) {
        OptiTaken(p, w, id);
      } else {
        OptiPassed(p, w, id);
      }
    }
  }

  lemma OptiTaken(p: F.Parsers, w: World, id: Id)
    requires id in w.sessions && SessionOk(p, w, id) && SlotsFilled(w.servers) && !w.servers.optiStepped
    requires w.servers.slot == Some(id)
    ensures id in OnOpti(w).sessions && SessionOk(p, OnOpti(w), id)
  {
    SessionTaken(p, w.sessions[id], false, w.round);
  }

  /** A session outside the slot does not look at the Opti server. */
  lemma OptiPassed(p: F.Parsers, w: World, id: Id)
    requires id in w.sessions && SessionOk(p, w, id) && SlotsFilled(w.servers) && w.servers.slot != Some(id)
    ensures id in OnOpti(w).sessions && SessionOk(p, OnOpti(w), id)
  {
    assert OnOpti(w).sessions[id] == w.sessions[id];
    assert InstanceOf(OnOpti(w), id) == InstanceOf(w, id);
    assert OnOpti(w).servers.slot != Some(id);
  }

  // -- connections

  lemma DisposeInv(p: F.Parsers, w: World, id: Id)
    requires WorldInv(p, w) && id in w.sessions && w.sessions[id].conn.state == F.Disposing
    ensures WorldInv(p, Dispose(w, id))
  {
    assert SessionOk(p, w, id);
    SessionDisposing(p, w.sessions[id], InstanceOf(w, id), w.servers.slot == Some(id),
                    w.servers.optiStepped, w.round);
    DisposePairs(w, id);
    DisposeHolders(w, id);
    DisposeSessions(p, w, id);
  }

  lemma DisposePairs(w: World, id: Id)
    requires PairsInv(w) && id in w.sessions && w.servers.slot != Some(id) && w.sessions[id].callbacks
    ensures PairsInv(Dispose(w, id))
  {
    var n := Dispose(w, id);
    assert n.sessions.Keys == w.sessions.Keys - {id} && n.instances.Keys == w.instances.Keys - {id};
    assert n.sessions.Keys + n.disposed == w.sessions.Keys + w.disposed;
  }

  lemma DisposeHolders(w: World, id: Id)
    requires HoldersInv(w) && SinceInv(w) && id in w.sessions && w.sessions[id].callbacks
    ensures HoldersInv(Dispose(w, id)) && SinceInv(Dispose(w, id))
  {
    var fd := w.sessions[id].fd;
    SessionsHoldRemove(w.sessions, id);
    assert fd in SessionsHold(w.sessions);
    assert Dispose(w, id).open == w.open - {fd};
    forall x, r | (x, r) in w.open.Items && x != fd
      ensures (x, r) in (w.open - {fd}).Items
    {
    }
  }

  lemma DisposeSessions(p: F.Parsers, w: World, id: Id)
    requires SessionsInv(p, w) && id in w.sessions && w.sessions[id].callbacks
    ensures SessionsInv(p, Dispose(w, id))
  {
    SessionsKept(p, w, Dispose(w, id));
  }

  lemma SessionsHoldRemove(sessions: map<Id, Session>, id: Id)
    requires id in sessions && OwnFds(sessions)
    ensures SessionsHold(sessions - {id}) == SessionsHold(sessions) - {sessions[id].fd}
    ensures OwnFds(sessions - {id})
  {
    var n := sessions - {id};
    forall x | x in SessionsHold(sessions) - {sessions[id].fd}
      ensures x in SessionsHold(n)
    {
      var k :| k in sessions && sessions[k].fd == x;
      assert n[k].fd == x;
    }
  }

  lemma OnConnInv(p: F.Parsers, w: World, id: Id, chunk: F.Chunk)
    requires WorldInv(p, w) && Enabled(w, ConnTurns(id, chunk))
    ensures WorldInv(p, OnConn(p, w, id, chunk))
  {
    if w.sessions[id].conn.state == F.Disposing {
      DisposeInv(p, w, id);
    } else {
      assert SessionOk(p, w, id);
      ConnSession(p, w, id, chunk);
      var s := w.sessions[id];
      var m := F.Step(p, s.conn, chunk);
      ReplaceSession(p, w, id, s.(conn := m, stepped := true), AfterStep(s.conn, m, InstanceOf(w, id)));
    }
  }

  lemma ConnSession(p: F.Parsers, w: World, id: Id, chunk: F.Chunk)
    requires id in w.sessions && SessionOk(p, w, id) && !w.sessions[id].stepped
    requires w.sessions[id].conn.state != F.Disposing
    ensures var s := w.sessions[id];
      var t := s.(conn := F.Step(p, s.conn, chunk), stepped := true);
      var i := AfterStep(s.conn, t.conn, InstanceOf(w, id));
      && SessionInv(p, t, i, w.servers.slot == Some(id), w.servers.optiStepped, w.round)
      && OnConn(p, w, id, chunk) == Replaced(w, id, t, i)
  {
    var s := w.sessions[id];
    var m := F.Step(p, s.conn, chunk);
    F.StepInv(p, s.conn, chunk);
    ConnStepEffect(p, s.conn, chunk);
    SessionStep(p, s, m, InstanceOf(w, id), w.servers.slot == Some(id), w.servers.optiStepped, w.round);
    OnConnReplaces(p, w, id, chunk, m);
  }

  lemma OnConnReplaces(p: F.Parsers, w: World, id: Id, chunk: F.Chunk, m: F.Conn)
    requires id in w.sessions && w.sessions[id].conn.state != F.Disposing && m == F.Step(p, w.sessions[id].conn, chunk)
    requires w.sessions[id].conn.state == F.Validating ==> w.sessions[id].callbacks
    ensures var s := w.sessions[id];
      OnConn(p, w, id, chunk) == Replaced(w, id, s.(conn := m, stepped := true),
                              AfterStep(s.conn, m, InstanceOf(w, id)))
  {
    if id in w.instances {
      assert w.instances[id := w.instances[id]] == w.instances;
    }
  }

  /** One session, and with it its instance, in place of another. */
  function Replaced(w: World, id: Id, s: Session, i: Option<Instance>): World {
    w.(sessions := w.sessions[id := s], instances := if i.Some? then w.instances[id := i.value] else w.instances)
  }

  lemma ReplaceSession(p: F.Parsers, w: World, id: Id, s: Session, i: Option<Instance>)
    requires WorldInv(p, w) && id in w.sessions && s.fd == w.sessions[id].fd && s.since == w.sessions[id].since
    requires SessionInv(p, s, i, w.servers.slot == Some(id), w.servers.optiStepped, w.round)
    ensures WorldInv(p, Replaced(w, id, s, i))
  {
    ReplacePairs(w, id, s, i);
    ReplaceHolders(w, id, s, i);
    ReplaceSessions(p, w, id, s, i);
  }

  lemma ReplacePairs(w: World, id: Id, s: Session, i: Option<Instance>)
    requires PairsInv(w) && id in w.sessions && (i.Some? ==> w.servers.slot != Some(id))
    ensures PairsInv(Replaced(w, id, s, i))
  {
    var n := Replaced(w, id, s, i);
    assert n.sessions.Keys == w.sessions.Keys && id in w.sessions.Keys;
    assert n.instances.Keys == w.instances.Keys;
  }

  lemma ReplaceHolders(w: World, id: Id, s: Session, i: Option<Instance>)
    requires HoldersInv(w) && SinceInv(w)
    requires id in w.sessions && s.fd == w.sessions[id].fd && s.since == w.sessions[id].since
    ensures HoldersInv(Replaced(w, id, s, i)) && SinceInv(Replaced(w, id, s, i))
  {
    SessionsHoldUpdate(w.sessions, id, s);
    assert s.fd in SessionsHold(w.sessions);
  }

  lemma ReplaceSessions(p: F.Parsers, w: World, id: Id, s: Session, i: Option<Instance>)
    requires SessionsInv(p, w) && id in w.sessions && (i.None? ==> id !in w.instances)
    requires SessionInv(p, s, i, w.servers.slot == Some(id), w.servers.optiStepped, w.round)
    ensures SessionsInv(p, Replaced(w, id, s, i))
  {
    var n := Replaced(w, id, s, i);
    forall k | k in n.sessions
      ensures SessionOk(p, n, k)
    {
      if k != id {
        assert SessionOk(p, w, k);
        assert InstanceOf(n, k) == InstanceOf(w, k);
      } else {
        assert InstanceOf(n, id) == i;
      }
    }
  }

  // -- instances

  lemma OnInstInv(p: F.Parsers, w: World, id: Id, status: int)
    requires WorldInv(p, w) && Enabled(w, InstTurns(id, status))
    ensures WorldInv(p, OnInst(w, id, status))
  {
    assert id in w.sessions.Keys;
    assert SessionOk(p, w, id);
    var s, i := w.sessions[id], w.instances[id];
    SessionAnswered(p, s, i, status, w.servers.optiStepped, w.round);
    var t := if i.state == ResponseBuilding then s.(conn := Answer(s.conn, status)) else s;
    ReplaceSession(p, w, id, t, Some(InstanceTurn(i)));
    OnInstReplaces(w, id, status);
  }

  lemma OnInstReplaces(w: World, id: Id, status: int)
    requires id in w.sessions && id in w.instances
    ensures var s, i := w.sessions[id], w.instances[id];
      var t := if i.state == ResponseBuilding then s.(conn := Answer(s.conn, status)) else s;
      OnInst(w, id, status) == Replaced(w, id, t, Some(InstanceTurn(i)))
  {
    assert w.sessions[id := w.sessions[id]] == w.sessions;
  }

  // -- rounds

  lemma OnRoundEndInv(p: F.Parsers, w: World)
    requires WorldInv(p, w) && Enabled(w, RoundEnds)
    ensures WorldInv(p, OnRoundEnd(w))
  {
    NewRoundInv(w.servers, w.round);
    RoundPairs(w);
    RoundHolds(w);
    RoundSessions(p, w);
  }

  lemma RoundPairs(w: World)
    requires PairsInv(w)
    ensures PairsInv(OnRoundEnd(w))
  {
    var n := OnRoundEnd(w);
    assert n.sessions.Keys == w.sessions.Keys && n.instances.Keys == w.instances.Keys;
  }

  lemma RoundSessions(p: F.Parsers, w: World)
    requires SessionsInv(p, w) && Enabled(w, RoundEnds)
    ensures SessionsInv(p, OnRoundEnd(w))
  {
    var n := OnRoundEnd(w);
    forall id | id in n.sessions
      ensures SessionOk(p, n, id)
    {
      assert SessionOk(p, w, id);
      SessionNewRound(p, w.sessions[id], InstanceOf(w, id), w.servers.slot == Some(id), w.round);
    }
  }

  lemma RoundHolds(w: World)
    requires HoldersInv(w) && SinceInv(w)
    ensures HoldersInv(OnRoundEnd(w)) && SinceInv(OnRoundEnd(w))
  {
    SameHolds(w);
  }

  lemma SameHolds(w: World)
    ensures SessionsHold(OnRoundEnd(w).sessions) == SessionsHold(w.sessions)
  {
    var n := OnRoundEnd(w);
    forall x | x in SessionsHold(w.sessions)
      ensures x in SessionsHold(n.sessions)
    {
      var k :| k in w.sessions && w.sessions[k].fd == x;
      assert n.sessions[k].fd == x;
    }
  }

  // ---------------------------------------------------------------- every run

  lemma NextInv(p: F.Parsers, w: World, e: Event)
    requires WorldInv(p, w) && Enabled(w, e)
    ensures WorldInv(p, Next(p, w, e))
  {
    match e
    case TcpTurns(accept) => OnTcpInv(p, w, accept);
    case HttpTurns => OnHttpInv(p, w);
    case OptiTurns => OnOptiInv(p, w);
    case ConnTurns(id, chunk) => OnConnInv(p, w, id, chunk);
    case InstTurns(id, status) => OnInstInv(p, w, id, status);
    case RoundEnds => OnRoundEndInv(p, w);
  }

  /** Some schedule and some peers bring this world about. */
  ghost predicate Reachable(p: F.Parsers, w: World) {
    exists events :: RunFrom(p, INITIAL, events) == Some(w)
  }

  lemma {:induction false} RunInv(p: F.Parsers, w: World, events: seq<Event>)
    requires WorldInv(p, w) && RunFrom(p, w, events).Some?
    ensures WorldInv(p, RunFrom(p, w, events).value)
  {
    if events != [] {
      var before := events[..|events| - 1];
      RunInv(p, w, before);
      NextInv(p, RunFrom(p, w, before).value, events[|events| - 1]);
    }
  }

  lemma ReachableInv(p: F.Parsers, w: World)
    requires Reachable(p, w)
    ensures WorldInv(p, w)
  {
    var events :| RunFrom(p, INITIAL, events) == Some(w);
    RunInv(p, INITIAL, events);
  }

  lemma {:induction false} RunFromReachable(p: F.Parsers, w: World, events: seq<Event>)
    requires Reachable(p, w) && RunFrom(p, w, events).Some?
    ensures Reachable(p, RunFrom(p, w, events).value)
  {
    var first :| RunFrom(p, INITIAL, first) == Some(w);
    RunsJoin(p, INITIAL, first, events);
  }

  lemma {:induction false} RunLast(p: F.Parsers, w: World, events: seq<Event>, init: seq<Event>, e: Event)
    requires events != [] && init == events[..|events| - 1] && e == events[|events| - 1]
    ensures RunFrom(p, w, events) == RunOn(p, RunFrom(p, w, init), e)
  {
  }

  /** The last event of a run, and the world it was taken in. */
  lemma RunSplits(p: F.Parsers, w: World, events: seq<Event>) returns (x: World, init: seq<Event>, e: Event)
    requires events != [] && RunFrom(p, w, events).Some?
    ensures init == events[..|events| - 1] && e == events[|events| - 1]
    ensures RunFrom(p, w, init) == Some(x) && Enabled(x, e) && RunFrom(p, w, events) == Some(Next(p, x, e))
  {
    init, e := events[..|events| - 1], events[|events| - 1];
    x := RunFrom(p, w, init).value;
  }

  lemma {:induction false} RunsJoin(p: F.Parsers, w: World, a: seq<Event>, b: seq<Event>)
    requires RunFrom(p, w, a).Some?
    ensures RunFrom(p, w, a + b) == RunFrom(p, RunFrom(p, w, a).value, b)
  {
    if b == [] {
      assert a + b == a;
    } else {
      var init, all := b[..|b| - 1], a + b;
      RunsJoin(p, w, a, init);
      assert all[..|all| - 1] == a + init && all[|all| - 1] == b[|b| - 1];
      RunLast(p, w, all, a + init, b[|b| - 1]);
      RunLast(p, RunFrom(p, w, a).value, b, init, b[|b| - 1]);
    }
  }

  lemma ReachablePairs(p: F.Parsers, w: World)
    requires Reachable(p, w)
    ensures PairsInv(w)
  {
    ReachableInv(p, w);
  }

  /** No server puts anything into a slot that is still full. */
  lemma NoSlotIsOverwritten(p: F.Parsers, w: World, e: Event)
    requires Reachable(p, w) && Enabled(w, e)
    ensures e.TcpTurns? && w.servers.tcp == Listening ==> w.servers.tcpFd < 0
    ensures e.TcpTurns? && w.servers.tcp == Connecting ==> w.servers.http != HttpConnecting
    ensures e.HttpTurns? && w.servers.http == HttpConnecting ==> w.servers.slot == None && w.servers.httpFd >= 0
    ensures e.OptiTurns? && w.servers.opti == OptiConnecting ==>
              w.servers.slot.Some? && w.servers.slot.value in w.sessions
  {
    ReachableInv(p, w);
    ServersLeaveSlots(w.servers, w.round);
    assert w.servers.slot.Some? ==> w.servers.slot.value in w.sessions.Keys;
  }

  lemma ServersLeaveSlots(v: Servers, round: int)
    requires ServersInv(v, round)
    ensures v.tcp == Listening ==> v.tcpFd < 0
    ensures v.tcp == Connecting && !v.tcpStepped ==> v.http != HttpConnecting
    ensures v.http == HttpConnecting ==> v.slot == None && v.httpFd >= 0
    ensures v.opti == OptiConnecting ==> v.slot.Some?
  {
  }

  function HoldersAmong(sessions: map<Id, Session>, fd: int): set<Id> {
    set id | id in sessions && sessions[id].fd == fd
  }

  /** How many places hold the socket. */
  function Holders(w: World, fd: int): nat {
    (if fd in TcpHolds(w.servers) then 1 else 0) + (if fd in HttpHolds(w.servers) then 1 else 0)
    + |HoldersAmong(w.sessions, fd)|
  }

  lemma OneHolderAmong(sessions: map<Id, Session>, fd: int)
    requires OwnFds(sessions)
    ensures |HoldersAmong(sessions, fd)| == (if fd in SessionsHold(sessions) then 1 else 0)
  {
    if fd in SessionsHold(sessions) {
      var id :| id in sessions && sessions[id].fd == fd;
      assert HoldersAmong(sessions, fd) == {id};
    } else {
      forall id | id in sessions
        ensures sessions[id].fd in SessionsHold(sessions)
      {
      }
      assert HoldersAmong(sessions, fd) == {};
    }
  }

  /** No socket is lost or shared: an open one has exactly one holder, a closed one none. */
  lemma ExactlyOneHolder(p: F.Parsers, w: World, fd: int)
    requires Reachable(p, w)
    ensures Holders(w, fd) == (if fd in w.open then 1 else 0)
  {
    ReachableInv(p, w);
    OneHolderAmong(w.sessions, fd);
    HoldersCount(w, fd);
  }

  lemma HoldersCount(w: World, fd: int)
    requires HoldersInv(w) && |HoldersAmong(w.sessions, fd)| == (if fd in SessionsHold(w.sessions) then 1 else 0)
    ensures Holders(w, fd) == (if fd in w.open then 1 else 0)
  {
    assert fd in w.open <==> fd in w.open.Keys;
  }

  /** Each connection is in the Opti slot or has an instance, not both, and none is made or disposed of twice. */
  lemma ConnectionsArePaired(p: F.Parsers, w: World)
    requires Reachable(p, w)
    ensures |w.sessions| == |w.instances| + (if w.servers.slot.Some? then 1 else 0)
    ensures forall id :: id in w.sessions ==> (id in w.instances) != (w.servers.slot == Some(id))
    ensures forall id :: id in w.instances ==> id in w.sessions
    ensures forall id: Id :: id < w.nextId <==> (id in w.sessions) != (id in w.disposed)
  {
    ReachablePairs(p, w);
    PairsCount(w);
  }

  lemma PairsCount(w: World)
    requires PairsInv(w)
    ensures |w.sessions| == |w.instances| + (if w.servers.slot.Some? then 1 else 0)
    ensures forall id :: id in w.sessions ==> (id in w.instances) != (w.servers.slot == Some(id))
    ensures forall id :: id in w.instances ==> id in w.sessions
    ensures forall id: Id :: id < w.nextId <==> (id in w.sessions) != (id in w.disposed)
  {
    assert |w.sessions.Keys| == |w.instances.Keys| + |SlotSet(w.servers)|;
    forall id: Id
      ensures id in w.instances ==> id in w.sessions
      ensures id < w.nextId <==> (id in w.sessions) != (id in w.disposed)
    {
      assert id in w.sessions <==> id in w.sessions.Keys;
      assert id in w.instances <==> id in w.instances.Keys;
      assert id < w.nextId <==> id in w.sessions.Keys + w.disposed;
    }
  }

  /** No connection calls a callback that has not been installed, and both callbacks find their instance. */
  lemma CallbacksComeFirst(p: F.Parsers, w: World, id: Id, chunk: F.Chunk)
    requires Reachable(p, w) && Enabled(w, ConnTurns(id, chunk))
    ensures !w.fault && !OnConn(p, w, id, chunk).fault
    ensures w.sessions[id].conn.state == F.Validating || w.sessions[id].conn.state == F.Disposing ==>
              w.sessions[id].callbacks && id in w.instances
  {
    ReachableInv(p, w);
    OnConnInv(p, w, id, chunk);
    assert SessionOk(p, w, id);
  }

  /** No connection is answered twice: an instance that is about to answer finds its connection waiting. */
  lemma AnsweredOnce(p: F.Parsers, w: World, id: Id, status: int)
    requires Reachable(p, w) && Enabled(w, InstTurns(id, status)) && w.instances[id].state == ResponseBuilding
    ensures id in w.sessions && Waiting(w.sessions[id].conn)
  {
    ReachableInv(p, w);
    assert id in w.instances.Keys && id in w.sessions.Keys;
    assert SessionOk(p, w, id);
    BuildingIsWaiting(p, w.sessions[id], w.instances[id], w.servers.slot == Some(id), w.servers.optiStepped, w.round);
  }

  /** And none with a request is disposed of before it is answered. */
  lemma DisposingIsAnswered(p: F.Parsers, w: World, id: Id)
    requires Reachable(p, w) && id in w.sessions
    requires w.sessions[id].conn.requested && w.sessions[id].conn.state == F.Disposing
    ensures w.sessions[id].conn.ready
  {
    ReachableInv(p, w);
    assert SessionOk(p, w, id);
  }

  lemma BuildingIsWaiting(p: F.Parsers, s: Session, i: Instance, slotted: bool, optiStepped: bool, round: int)
    requires SessionInv(p, s, Some(i), slotted, optiStepped, round) && i.task && i.state == ResponseBuilding
    ensures Waiting(s.conn)
  {
  }

  /** Whatever the peer sends or withholds, its socket is closed before 53 rounds have gone by. */
  lemma EverySocketIsClosed(p: F.Parsers, w: World, fd: int)
    requires Reachable(p, w) && fd in w.open
    ensures w.round - w.open[fd] < ROUNDS
  {
    ReachableInv(p, w);
    assert fd in w.open.Keys;
    if fd in SessionsHold(w.sessions) {
      var id :| id in w.sessions && w.sessions[id].fd == fd;
      assert SessionOk(p, w, id);
      SessionAge(p, w.sessions[id], InstanceOf(w, id), w.servers.slot == Some(id), w.servers.optiStepped, w.round);
      OpenSince(w, fd, w.sessions[id].since);
    } else {
      SlotAge(w, fd);
    }
  }

  lemma OpenSince(w: World, fd: int, since: int)
    requires SinceInv(w) && exists id :: id in w.sessions && w.sessions[id].fd == fd && w.sessions[id].since == since
    ensures fd in w.open && w.open[fd] == since
  {
  }

  lemma SessionAge(p: F.Parsers, s: Session, i: Option<Instance>, slotted: bool, optiStepped: bool, round: int)
    requires SessionInv(p, s, i, slotted, optiStepped, round)
    ensures round - s.since < ROUNDS
  {
  }

  lemma SlotAge(w: World, fd: int)
    requires ServersInv(w.servers, w.round) && SinceInv(w) && fd in w.open
    requires fd in TcpHolds(w.servers) + HttpHolds(w.servers)
    ensures w.round - w.open[fd] <= 2
  {
  }

  /** What reaches an endpoint is the request cut from the bytes read on that connection. */
  lemma EndpointsGetTheRequest(p: F.Parsers, w: World, id: Id)
    requires Reachable(p, w) && id in w.instances && w.instances[id].task
    ensures id in w.sessions
    ensures F.Cut(p, w.sessions[id].conn.input.received) == Some(F.Held(w.sessions[id].conn.input))
  {
    ReachableInv(p, w);
    assert id in w.instances.Keys && id in w.sessions.Keys;
    assert SessionOk(p, w, id);
  }
}
