/**
 The v4 pairing protocol of one data-plane server. Connections that passed the admission
 check are parked as pending server or pending client of their port, and `tryPair` joins
 the two ends into a session.

 `Desk` is the server's three maps and the functions on it are the lock sections of
 `tcp_server.go`. `World` adds what runs around them: the pool, the connections on their
 way to the lock, the spawned `tryPair` goroutines and the running sessions. The pool has
 its own lock, so pool operations are steps of their own.
 */
module Pairing {
  import opened Options
  import opened PortPool

  datatype Role = Server | Client | Other

  /** A connection with the hello it sent. */
  datatype Conn = Conn(id: nat, port: int, role: Role, hello: string)

  datatype Session = Session(id: nat, port: int, sessionID: string, fe: Conn, be: Conn)

  datatype Desk = Desk(pendingS: map<int, Conn>, pendingC: map<int, Conn>, sessions: map<int, Session>)

  const EMPTY_DESK := Desk(map[], map[], map[])

  /** The admission check of `handleConn`, made outside the server's lock. */
  predicate Admits(pool: PoolState, c: Conn) {
    Carries(pool, c.port, c.hello)
  }

  /** Whether `handleConn` keeps an admitted connection. */
  predicate Accepts(d: Desk, c: Conn) {
    && c.port !in d.sessions
    && ((c.role.Server? && c.port !in d.pendingS) || (c.role.Client? && c.port !in d.pendingC))
  }

  function Park(d: Desk, c: Conn): Desk {
    if !Accepts(d, c) then d
    else if c.role.Server? then d.(pendingS := d.pendingS[c.port := c])
    else d.(pendingC := d.pendingC[c.port := c])
  }

  predicate BothPending(d: Desk, port: int) {
    port in d.pendingS && port in d.pendingC
  }

  function Unpark(d: Desk, port: int): Desk {
    d.(pendingS := d.pendingS - {port}, pendingC := d.pendingC - {port})
  }

  /** The session `tryPair` would start on this port. */
  function Paired(d: Desk, port: int, alloc: Option<Allocation>, id: nat): Option<Session> {
    if port !in d.sessions && BothPending(d, port) && alloc.Some? then
      Some(Session(id, port, alloc.value.sessionID, d.pendingC[port], d.pendingS[port]))
    else None
  }

  function TryPair(d: Desk, port: int, alloc: Option<Allocation>, id: nat): Desk {
    if port in d.sessions || !BothPending(d, port) then d
    else
      match Paired(d, port, alloc, id)
      case None => Unpark(d, port)
      case Some(s) => Unpark(d, port).(sessions := d.sessions[port := s])
  }

  /** The stop callback of a session deletes whatever is stored under its port. */
  function Forget(d: Desk, port: int): Desk {
    d.(sessions := d.sessions - {port})
  }

  /** `maintainPending`: pending connections whose port has no allocation are dropped. */
  function Maintained(d: Desk, pool: PoolState): Desk {
    d.(pendingS := map port | port in d.pendingS && port in pool.alloc :: d.pendingS[port],
       pendingC := map port | port in d.pendingC && port in pool.alloc :: d.pendingC[port])
  }

  datatype World = World(
    desk: Desk,
    pool: PoolState,
    waiting: set<Conn>,              // admitted, not yet inside the lock
    tries: multiset<int>,            // spawned `tryPair` goroutines that have not run, by port
    running: set<Session>,           // sessions whose stop callback has not run
    seen: set<nat>,                  // connection ids used so far
    next: nat,                       // id of the next session
    log: Log)

  /** History that no step depends on, except that session IDs are fresh. */
  datatype Log = Log(
    grants: map<int, seq<string>>,   // the session IDs each port was reserved for, in order
    admitted: map<nat, nat>,         // per connection, how many grants its port had had at its admission check
    paired: map<Session, nat>)       // per session ever started, how many grants its port had had

  datatype Event =
    | Arrive(conn: Conn)
    | Enter(conn: Conn)
    | Try(port: int)
    | Tick(port: int)
    | DropServer(port: int)
    | DropClient(port: int)
    | Finish(session: Session)
    | StopAll
    | Pool(op: Op)

  function Start(pool: PoolState): World {
    World(EMPTY_DESK, pool, {}, multiset{}, {}, {}, 0, Log(map[], map[], map[]))
  }

  function Grants(grants: map<int, seq<string>>, port: int): seq<string> {
    if port in grants then grants[port] else []
  }

  /** Session IDs are fresh: one that was used before is not reserved again. */
  predicate Fresh(log: Log, sessionID: string) {
    forall port <- log.grants :: sessionID !in log.grants[port]
  }

  function PairNow(w: World, port: int): World {
    var s := Paired(w.desk, port, AllocOf(w.pool, port), w.next);
    var w' := w.(desk := TryPair(w.desk, port, AllocOf(w.pool, port), w.next));
    if s.None? then w'
    else w'.(running := w.running + {s.value}, next := w.next + 1,
             log := w.log.(paired := w.log.paired[s.value := |Grants(w.log.grants, port)|]))
  }

  function Record(log: Log, pool: PoolState, op: Op): Log {
    match Granted(pool, op)
    case None => log
    case Some(port) => log.(grants := log.grants[port := Grants(log.grants, port) + [op.sessionID]])
  }

  function PoolStep(w: World, op: Op): World {
    if op.Reserve? && !Fresh(w.log, op.sessionID) then w
    else w.(pool := Apply(w.pool, op), log := Record(w.log, w.pool, op))
  }

  function Step(w: World, e: Event): World {
    match e
    case Arrive(c) =>
      if c.id in w.seen then w
      else if !Admits(w.pool, c) then w.(seen := w.seen + {c.id})
      else w.(seen := w.seen + {c.id}, waiting := w.waiting + {c},
              log := w.log.(admitted := w.log.admitted[c.id := |Grants(w.log.grants, c.port)|]))
    case Enter(c) =>
      if c !in w.waiting then w
      else w.(waiting := w.waiting - {c}, desk := Park(w.desk, c),
              tries := if Accepts(w.desk, c) then w.tries + multiset{c.port} else w.tries)
    case Try(port) =>
      if port !in w.tries then w else PairNow(w.(tries := w.tries - multiset{port}), port)
    case Tick(port) => PairNow(w, port)
    case DropServer(port) =>
      if port in w.pool.alloc then w else w.(desk := w.desk.(pendingS := w.desk.pendingS - {port}))
    case DropClient(port) =>
      if port in w.pool.alloc then w else w.(desk := w.desk.(pendingC := w.desk.pendingC - {port}))
    case Finish(s) =>
      if s !in w.running then w else w.(running := w.running - {s}, desk := Forget(w.desk, s.port))
    case StopAll => w.(desk := EMPTY_DESK)
    case Pool(op) => PoolStep(w, op)
  }

  ghost predicate ServerRun(run: seq<World>, events: seq<Event>) {
    && |run| == |events| + 1
    && (exists pool :: WellFormed(pool) && pool.alloc == map[] && run[0] == Start(pool))
    && (forall i {:trigger events[i]} :: 0 <= i < |events| ==> run[i + 1] == Step(run[i], events[i]))
  }

  /* What the server's maps keep. */

  /** A port with a session has nothing pending, and everything is filed under its own port and role. */
  ghost predicate Exclusive(d: Desk) {
    && (forall port <- d.sessions :: port !in d.pendingS && port !in d.pendingC)
    && (forall port <- d.pendingS :: d.pendingS[port].port == port && d.pendingS[port].role.Server?)
    && (forall port <- d.pendingC :: d.pendingC[port].port == port && d.pendingC[port].role.Client?)
    && (forall port <- d.sessions ::
          var s := d.sessions[port];
          && s.port == s.fe.port == s.be.port == port
          && s.fe.role.Client? && s.be.role.Server?)
  }

  lemma ParkExclusive(d: Desk, c: Conn)
    requires Exclusive(d)
    ensures Exclusive(Park(d, c))
  {
  }

  lemma TryPairExclusive(d: Desk, port: int, alloc: Option<Allocation>, id: nat)
    requires Exclusive(d)
    ensures Exclusive(TryPair(d, port, alloc, id))
  {
  }

  lemma MaintainedExclusive(d: Desk, pool: PoolState)
    requires Exclusive(d)
    ensures Exclusive(Maintained(d, pool))
  {
  }

  lemma StepExclusive(w: World, e: Event)
    requires Exclusive(w.desk)
    ensures Exclusive(Step(w, e).desk)
  {
    match e
    case Enter(c) => ParkExclusive(w.desk, c);
    case Try(_) | Tick(_) => TryPairExclusive(w.desk, e.port, AllocOf(w.pool, e.port), w.next);
    case _ =>
  }

  /** The connections the server's maps hold. */
  ghost predicate Holds(d: Desk, c: Conn) {
    || (c.port in d.pendingS && d.pendingS[c.port] == c)
    || (c.port in d.pendingC && d.pendingC[c.port] == c)
    || (c.port in d.sessions && (d.sessions[c.port].fe == c || d.sessions[c.port].be == c))
  }

  lemma TryPairHolds(d: Desk, port: int, alloc: Option<Allocation>, id: nat, c: Conn)
    requires Exclusive(d) && Holds(TryPair(d, port, alloc, id), c)
    ensures Holds(d, c)
  {
  }

  /** The maps hold only connections that have arrived and are no longer on their way. */
  ghost predicate Filed(w: World) {
    && (forall c <- w.waiting :: c.id in w.seen)
    && (forall c :: Holds(w.desk, c) ==> c.id in w.seen && c !in w.waiting)
  }

  lemma StepFiled(w: World, e: Event)
    requires Exclusive(w.desk) && Filed(w)
    ensures Filed(Step(w, e))
  {
    match e
    case Arrive(c) =>
    case Enter(c) => EnterFiled(w, c);
    case Try(_) | Tick(_) =>
      forall c | Holds(TryPair(w.desk, e.port, AllocOf(w.pool, e.port), w.next), c)
        ensures Holds(w.desk, c)
      {
        TryPairHolds(w.desk, e.port, AllocOf(w.pool, e.port), w.next, c);
      }
    case _ =>
  }

  lemma EnterFiled(w: World, c: Conn)
    requires Exclusive(w.desk) && Filed(w)
    ensures Filed(Step(w, Enter(c)))
  {
    forall k | Holds(Park(w.desk, c), k)
      ensures Holds(w.desk, k) || k == c
    {
    }
  }

  /** Whenever both ends wait on a port, a spawned `tryPair` for it has still to run. */
  ghost predicate Pursued(w: World) {
    forall port :: BothPending(w.desk, port) ==> port in w.tries
  }

  lemma TryPairClears(d: Desk, port: int, alloc: Option<Allocation>, id: nat)
    requires Exclusive(d)
    ensures !BothPending(TryPair(d, port, alloc, id), port)
    ensures forall q :: BothPending(TryPair(d, port, alloc, id), q) ==> BothPending(d, q)
  {
  }

  lemma EnterPursued(w: World, c: Conn)
    requires Pursued(w)
    ensures Pursued(Step(w, Enter(c)))
  {
    forall q | BothPending(Park(w.desk, c), q)
      ensures BothPending(w.desk, q) || (q == c.port && Accepts(w.desk, c))
    {
    }
  }

  lemma PairPursued(w: World, e: Event)
    requires Exclusive(w.desk) && Pursued(w) && (e.Try? || e.Tick?)
    ensures Pursued(Step(w, e))
  {
    TryPairClears(w.desk, e.port, AllocOf(w.pool, e.port), w.next);
  }

  lemma StepPursued(w: World, e: Event)
    requires Exclusive(w.desk) && Pursued(w)
    ensures Pursued(Step(w, e))
  {
    match e
    case Enter(c) => EnterPursued(w, c);
    case Try(_) | Tick(_) => PairPursued(w, e);
    case _ =>
      assert Step(w, e).tries == w.tries;
      assert forall q :: BothPending(Step(w, e).desk, q) ==> BothPending(w.desk, q);
  }

  ghost predicate Pending(d: Desk, c: Conn) {
    || (c.port in d.pendingS && d.pendingS[c.port] == c)
    || (c.port in d.pendingC && d.pendingC[c.port] == c)
  }

  /** The connection has arrived, and is neither on its way nor pending. */
  ghost predicate Settled(w: World, c: Conn) {
    c.id in w.seen && c !in w.waiting && !Pending(w.desk, c)
  }

  /** The ends of a running session, filed or forgotten, are its own and in no other place. */
  ghost predicate OwnEnds(w: World) {
    && (forall port <- w.desk.sessions :: w.desk.sessions[port] in w.running)
    && (forall s <- w.running :: s.fe.role.Client? && s.be.role.Server? && Settled(w, s.fe) && Settled(w, s.be))
    && (forall s <- w.running, t <- w.running :: s.fe == t.fe || s.be == t.be ==> s == t)
  }

  lemma PairOwnEnds(w: World, port: int)
    requires Exclusive(w.desk) && Filed(w) && OwnEnds(w)
    ensures OwnEnds(PairNow(w, port))
  {
    var s := Paired(w.desk, port, AllocOf(w.pool, port), w.next);
    if s.Some? {
      assert Pending(w.desk, s.value.fe) && Pending(w.desk, s.value.be);
      assert Holds(w.desk, s.value.fe) && Holds(w.desk, s.value.be);
    }
  }

  /** Nothing is parked but the connection that enters. */
  lemma EnterOwnEnds(w: World, c: Conn)
    requires OwnEnds(w)
    ensures OwnEnds(Step(w, Enter(c)))
  {
    forall k | Pending(Park(w.desk, c), k)
      ensures Pending(w.desk, k) || k == c
    {
    }
  }

  lemma DeskOnlyShrinks(w: World, e: Event)
    requires Exclusive(w.desk) && OwnEnds(w) && !e.Enter? && !e.Try? && !e.Tick?
    ensures OwnEnds(Step(w, e))
  {
  }

  lemma StepOwnEnds(w: World, e: Event)
    requires Exclusive(w.desk) && Filed(w) && OwnEnds(w)
    ensures OwnEnds(Step(w, e))
  {
    match e
    case Enter(c) => EnterOwnEnds(w, c);
    case Try(port) => PairOwnEnds(w.(tries := w.tries - multiset{port}), port);
    case Tick(port) => PairOwnEnds(w, port);
    case Arrive(_) | Finish(_) | StopAll | DropServer(_) | DropClient(_) | Pool(_) => DeskOnlyShrinks(w, e);
  }

  lemma {:induction false} RunKeeps(run: seq<World>, events: seq<Event>, n: nat)
    requires ServerRun(run, events) && n <= |events|
    ensures Exclusive(run[n].desk) && Filed(run[n]) && Pursued(run[n]) && OwnEnds(run[n])
  {
    if n > 0 {
      RunKeeps(run, events, n - 1);
      StepExclusive(run[n - 1], events[n - 1]);
      StepFiled(run[n - 1], events[n - 1]);
      StepPursued(run[n - 1], events[n - 1]);
      StepOwnEnds(run[n - 1], events[n - 1]);
    }
  }

  /** Where a connection can be; a running session may be one that `StopAll` has made the server forget. */
  datatype Place = OnTheWay | PendingServer(port: int) | PendingClient(port: int) | InSession(session: Session)

  ghost predicate At(w: World, c: Conn, p: Place) {
    match p
    case OnTheWay => c in w.waiting
    case PendingServer(port) => port in w.desk.pendingS && w.desk.pendingS[port] == c
    case PendingClient(port) => port in w.desk.pendingC && w.desk.pendingC[port] == c
    case InSession(s) => s in w.running && (s.fe == c || s.be == c)
  }

  /**
   In every reachable state, `StopAll` or not: a port with a session has no pending end, every
   filed session is running, and no connection is in two places; in particular no two running
   sessions share an end, and no end of one is on its way or pending.
   */
  lemma OnePlaceEach(run: seq<World>, events: seq<Event>, n: nat, c: Conn, p: Place, q: Place)
    requires ServerRun(run, events) && n <= |events|
    ensures
      forall port <- run[n].desk.sessions ::
        port !in run[n].desk.pendingS && port !in run[n].desk.pendingC && run[n].desk.sessions[port] in run[n].running
    ensures At(run[n], c, p) && At(run[n], c, q) ==> p == q
  {
    RunKeeps(run, events, n);
  }

  /** No pairing is lost: once every spawned `tryPair` has run, no port has both ends waiting. */
  lemma NoLostPairing(run: seq<World>, events: seq<Event>, n: nat, port: int)
    requires ServerRun(run, events) && n <= |events|
    ensures BothPending(run[n].desk, port) ==> port in run[n].tries
    ensures run[n].tries == multiset{} ==> !BothPending(run[n].desk, port)
  {
    RunKeeps(run, events, n);
  }

  /* One round of `maintainPending` is a row of the machine's drops, which others may interleave with. */

  /** Drops what has lost its allocation, port by port, on both sides. */
  function DropEach(w: World, ports: seq<int>): World
    decreases |ports|
  {
    if ports == [] then w
    else DropEach(Step(Step(w, DropServer(ports[0])), DropClient(ports[0])), ports[1..])
  }

  lemma {:induction false} DropEachDrops(w: World, ports: seq<int>)
    decreases |ports|
    ensures
      var w' := DropEach(w, ports);
      && w' == w.(desk := w'.desk) && w'.desk.sessions == w.desk.sessions
      && w'.desk.pendingS == (map port | port in w.desk.pendingS && (port !in ports || port in w.pool.alloc) :: w.desk.pendingS[port])
      && w'.desk.pendingC == (map port | port in w.desk.pendingC && (port !in ports || port in w.pool.alloc) :: w.desk.pendingC[port])
  {
    if ports != [] {
      var next := Step(Step(w, DropServer(ports[0])), DropClient(ports[0]));
      DropEachDrops(next, ports[1..]);
      assert ports == [ports[0]] + ports[1..];
    }
  }

  /** Going over all pending ports leaves exactly what `maintainPending` leaves. */
  lemma MaintainedIsDrops(w: World, ports: seq<int>)
    requires forall port :: port in w.desk.pendingS || port in w.desk.pendingC ==> port in ports
    ensures DropEach(w, ports) == w.(desk := Maintained(w.desk, w.pool))
  {
    DropEachDrops(w, ports);
    var d, m := DropEach(w, ports).desk, Maintained(w.desk, w.pool);
    forall port
      ensures port in d.pendingS <==> port in m.pendingS
      ensures port in d.pendingC <==> port in m.pendingC
    {
      assert port in w.desk.pendingS || port in w.desk.pendingC ==> port in ports;
    }
    assert d.pendingS == m.pendingS && d.pendingC == m.pendingC;
  }
}
