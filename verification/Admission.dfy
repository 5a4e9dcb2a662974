/**
 No connection is lost: every connection that passed the admission check is on its way to the
 lock, pending, an end of a session ever started, or closed by the server in a step that is
 named here, and never two of these.
 */
module Admission {
  import opened PortPool
  import opened Pairing

  /** The connection a step lets through the admission check. */
  function AdmittedBy(w: World, e: Event): set<Conn> {
    if e.Arrive? && e.conn.id !in w.seen && e.conn.port in w.pool.alloc
       && w.pool.alloc[e.conn.port].sessionID == e.conn.hello
    then {e.conn} else {}
  }

  /** Both ends wait on a port whose allocation is gone, and a `tryPair` finds them. */
  predicate PairsInVain(w: World, port: int) {
    port !in w.desk.sessions && port in w.desk.pendingS && port in w.desk.pendingC && port !in w.pool.alloc
  }

  /** The place for the connection's role on its port is free, and the port has no session. */
  predicate HasPlace(d: Desk, c: Conn) {
    && c.port !in d.sessions
    && (match c.role
        case Server => c.port !in d.pendingS
        case Client => c.port !in d.pendingC
        case Other => false)
  }

  function ServerOf(d: Desk, port: int): set<Conn> {
    if port in d.pendingS then {d.pendingS[port]} else {}
  }

  function ClientOf(d: Desk, port: int): set<Conn> {
    if port in d.pendingC then {d.pendingC[port]} else {}
  }

  /** The admitted connections a step closes. */
  function ClosedBy(w: World, e: Event): set<Conn> {
    match e
    case Enter(c) => if c in w.waiting && !HasPlace(w.desk, c) then {c} else {}
    case Try(port) =>
      if port in w.tries && PairsInVain(w, port) then ServerOf(w.desk, port) + ClientOf(w.desk, port) else {}
    case Tick(port) => if PairsInVain(w, port) then ServerOf(w.desk, port) + ClientOf(w.desk, port) else {}
    case DropServer(port) => if port in w.pool.alloc then {} else ServerOf(w.desk, port)
    case DropClient(port) => if port in w.pool.alloc then {} else ClientOf(w.desk, port)
    case StopAll =>
      (set port | port in w.desk.pendingS :: w.desk.pendingS[port]) + (set port | port in w.desk.pendingC :: w.desk.pendingC[port])
    case _ => {}
  }

  /** An end of a session that was ever started. */
  ghost predicate WasPaired(w: World, c: Conn) {
    exists s <- w.log.paired :: s.fe == c || s.be == c
  }

  /** The server, or a session of its, still has the connection. */
  ghost predicate Kept(w: World, c: Conn) {
    c in w.waiting || Pending(w.desk, c) || WasPaired(w, c)
  }

  /** The ends of all sessions ever started have left the lock and the pending places for good. */
  ghost predicate PairedSettled(w: World) {
    forall s <- w.log.paired :: Settled(w, s.fe) && Settled(w, s.be)
  }

  lemma PairNowSettled(w: World, port: int)
    requires Exclusive(w.desk) && Filed(w) && PairedSettled(w)
    ensures PairedSettled(PairNow(w, port))
  {
    var s := Pairing.Paired(w.desk, port, AllocOf(w.pool, port), w.next);
    if s.Some? {
      assert Pending(w.desk, s.value.fe) && Pending(w.desk, s.value.be);
      assert Holds(w.desk, s.value.fe) && Holds(w.desk, s.value.be);
    }
  }

  lemma EnterSettled(w: World, c: Conn)
    requires PairedSettled(w)
    ensures PairedSettled(Step(w, Enter(c)))
  {
    forall k | Pending(Park(w.desk, c), k) ensures Pending(w.desk, k) || k == c {
    }
  }

  lemma OthersSettled(w: World, e: Event)
    requires PairedSettled(w) && !e.Enter? && !e.Try? && !e.Tick?
    ensures PairedSettled(Step(w, e))
  {
  }

  lemma StepSettled(w: World, e: Event)
    requires Exclusive(w.desk) && Filed(w) && PairedSettled(w)
    ensures PairedSettled(Step(w, e))
  {
    match e
    case Enter(c) => EnterSettled(w, c);
    case Try(port) => PairNowSettled(w.(tries := w.tries - multiset{port}), port);
    case Tick(port) => PairNowSettled(w, port);
    case Arrive(_) | DropServer(_) | DropClient(_) | Finish(_) | StopAll | Pool(_) => OthersSettled(w, e);
  }

  /** Every connection that is kept has arrived before. */
  lemma KeptHasArrived(w: World, c: Conn)
    requires Exclusive(w.desk) && Filed(w) && PairedSettled(w) && Kept(w, c)
    ensures c.id in w.seen
  {
    if Pending(w.desk, c) {
      assert Holds(w.desk, c);
    }
  }

  /** What a step makes of one connection's whereabouts. */
  ghost predicate Moves(w: World, e: Event, w': World, c: Conn) {
    Kept(w', c) <==> (Kept(w, c) && c !in ClosedBy(w, e)) || c in AdmittedBy(w, e)
  }

  lemma EnterMoves(w: World, k: Conn, c: Conn)
    requires Exclusive(w.desk) && Filed(w) && PairedSettled(w)
    ensures Moves(w, Enter(k), Step(w, Enter(k)), c)
  {
    var d := Park(w.desk, k);
    if k in w.waiting {
      assert !Holds(w.desk, k);
      assert c != k ==> (Pending(d, c) <==> Pending(w.desk, c));
      assert Pending(d, k) <==> HasPlace(w.desk, k);
      assert !WasPaired(w, k);
    }
  }

  lemma PairMoves(w: World, port: int, c: Conn)
    requires Exclusive(w.desk) && Filed(w) && PairedSettled(w)
    ensures
      var closed := if PairsInVain(w, port) then ServerOf(w.desk, port) + ClientOf(w.desk, port) else {};
      Kept(PairNow(w, port), c) <==> Kept(w, c) && c !in closed
  {
    var w' := PairNow(w, port);
    var s := Pairing.Paired(w.desk, port, AllocOf(w.pool, port), w.next);
    assert forall t <- w.log.paired :: t in w'.log.paired;
    if s.Some? {
      assert s.value in w'.log.paired;
      assert WasPaired(w', c) <==> WasPaired(w, c) || s.value.fe == c || s.value.be == c;
    } else {
      assert w'.log == w.log;
    }
    if Pending(w.desk, c) {
      assert Holds(w.desk, c);
    }
  }

  /** A pending connection is neither on its way nor an end of a session. */
  lemma PendingOnly(w: World, c: Conn)
    requires PairedSettled(w) && Filed(w) && Pending(w.desk, c)
    ensures c !in w.waiting && !WasPaired(w, c)
  {
    assert Holds(w.desk, c);
  }

  lemma SamePaired(w: World, w': World, c: Conn)
    requires w'.log.paired == w.log.paired && w'.waiting == w.waiting
    ensures WasPaired(w', c) <==> WasPaired(w, c)
  {
  }

  lemma DropMoves(w: World, e: Event, c: Conn)
    requires Exclusive(w.desk) && PairedSettled(w) && Filed(w) && (e.DropServer? || e.DropClient?)
    ensures Moves(w, e, Step(w, e), c)
    ensures c in ClosedBy(w, e) ==> Pending(w.desk, c)
  {
    var w' := Step(w, e);
    SamePaired(w, w', c);
    assert Pending(w'.desk, c) <==> Pending(w.desk, c) && c !in ClosedBy(w, e);
    if Pending(w.desk, c) {
      PendingOnly(w, c);
    }
  }

  lemma StopMoves(w: World, c: Conn)
    requires Exclusive(w.desk) && PairedSettled(w) && Filed(w)
    ensures Moves(w, StopAll, Step(w, StopAll), c)
    ensures c in ClosedBy(w, StopAll) <==> Pending(w.desk, c)
  {
    SamePaired(w, Step(w, StopAll), c);
    if c in ClosedBy(w, StopAll) {
      assert Pending(w.desk, c) by {
        var servers := set port | port in w.desk.pendingS :: w.desk.pendingS[port];
        if c in servers {
          var port :| port in w.desk.pendingS && w.desk.pendingS[port] == c;
          assert c.port == port;
        } else {
          var port :| port in w.desk.pendingC && w.desk.pendingC[port] == c;
          assert c.port == port;
        }
      }
    }
    if Pending(w.desk, c) {
      PendingOnly(w, c);
    }
  }

  lemma OtherMoves(w: World, e: Event, c: Conn)
    requires e.Arrive? || e.Finish? || e.Pool?
    ensures Moves(w, e, Step(w, e), c)
  {
    assert Step(w, e).log.paired == w.log.paired;
    assert WasPaired(Step(w, e), c) <==> WasPaired(w, c);
  }

  lemma TryMoves(w: World, e: Event, c: Conn)
    requires Exclusive(w.desk) && Filed(w) && PairedSettled(w) && (e.Try? || e.Tick?)
    ensures Moves(w, e, Step(w, e), c)
    ensures c in ClosedBy(w, e) ==> Pending(w.desk, c)
  {
    if e.Tick? {
      PairMoves(w, e.port, c);
    } else if e.port in w.tries {
      var v := w.(tries := w.tries - multiset{e.port});
      assert Kept(v, c) <==> Kept(w, c);
      PairMoves(v, e.port, c);
    }
  }

  lemma StepMoves(w: World, e: Event, c: Conn)
    requires Exclusive(w.desk) && Filed(w) && PairedSettled(w)
    ensures Moves(w, e, Step(w, e), c)
    ensures c in ClosedBy(w, e) ==> Kept(w, c)
    ensures c in AdmittedBy(w, e) ==> c.id !in w.seen
  {
    match e
    case Enter(k) => EnterMoves(w, k, c);
    case Try(_) | Tick(_) => TryMoves(w, e, c);
    case DropServer(_) | DropClient(_) => DropMoves(w, e, c);
    case StopAll => StopMoves(w, c);
    case Arrive(_) | Finish(_) | Pool(_) => OtherMoves(w, e, c);
  }

  /* Over whole runs. */

  /** The connections that the first `n` steps have let through the admission check. */
  ghost function Admitted(run: seq<World>, events: seq<Event>, n: nat): set<Conn>
    requires n <= |events| < |run|
  {
    if n == 0 then {} else Admitted(run, events, n - 1) + AdmittedBy(run[n - 1], events[n - 1])
  }

  /** The admitted connections that the first `n` steps have closed. */
  ghost function Closed(run: seq<World>, events: seq<Event>, n: nat): set<Conn>
    requires n <= |events| < |run|
  {
    if n == 0 then {} else Closed(run, events, n - 1) + ClosedBy(run[n - 1], events[n - 1])
  }

  lemma {:induction false} RunSettled(run: seq<World>, events: seq<Event>, n: nat)
    requires ServerRun(run, events) && n <= |events|
    ensures PairedSettled(run[n])
  {
    if n > 0 {
      RunSettled(run, events, n - 1);
      RunKeeps(run, events, n - 1);
      StepSettled(run[n - 1], events[n - 1]);
      assert run[n] == Step(run[n - 1], events[n - 1]);
    }
  }

  lemma SeenGrows(w: World, e: Event)
    ensures w.seen <= Step(w, e).seen
  {
  }

  /** What one step does to one connection, and to what has arrived. */
  ghost predicate Tells(w: World, e: Event, w': World, c: Conn) {
    && Moves(w, e, w', c)
    && (c in ClosedBy(w, e) ==> Kept(w, c))
    && (c in AdmittedBy(w, e) ==> c.id !in w.seen)
    && (Kept(w, c) ==> c.id in w.seen)
    && w.seen <= w'.seen
  }

  lemma StepTells(w: World, e: Event, c: Conn)
    requires Exclusive(w.desk) && Filed(w) && PairedSettled(w)
    ensures Tells(w, e, Step(w, e), c)
  {
    StepMoves(w, e, c);
    SeenGrows(w, e);
    if Kept(w, c) {
      KeptHasArrived(w, c);
    }
  }

  lemma RunTells(run: seq<World>, events: seq<Event>, n: nat, c: Conn)
    requires ServerRun(run, events) && n < |events|
    ensures Tells(run[n], events[n], run[n + 1], c)
  {
    RunKeeps(run, events, n);
    RunSettled(run, events, n);
    StepTells(run[n], events[n], c);
    assert run[n + 1] == Step(run[n], events[n]);
  }

  /** Admitted is kept or closed, and not both; what was closed had arrived. */
  ghost predicate Accounted(run: seq<World>, events: seq<Event>, n: nat, c: Conn)
    requires n <= |events| < |run|
  {
    && (c in Admitted(run, events, n) <==> Kept(run[n], c) || c in Closed(run, events, n))
    && !(Kept(run[n], c) && c in Closed(run, events, n))
    && (c in Closed(run, events, n) ==> c.id in run[n].seen)
  }

  lemma AccountedMore(run: seq<World>, events: seq<Event>, n: nat, c: Conn)
    requires 0 < n <= |events| < |run| && Accounted(run, events, n - 1, c)
    requires Tells(run[n - 1], events[n - 1], run[n], c)
    ensures Accounted(run, events, n, c)
  {
    assert c in Admitted(run, events, n) <==>
           c in Admitted(run, events, n - 1) || c in AdmittedBy(run[n - 1], events[n - 1]);
    assert c in Closed(run, events, n) <==>
           c in Closed(run, events, n - 1) || c in ClosedBy(run[n - 1], events[n - 1]);
  }

  lemma {:induction false} AllAccounted(run: seq<World>, events: seq<Event>, n: nat, c: Conn)
    requires n <= |events| < |run| && !Kept(run[0], c)
    requires forall k: nat :: k < n ==> Tells(run[k], events[k], run[k + 1], c)
    ensures Accounted(run, events, n, c)
  {
    if n > 0 {
      AllAccounted(run, events, n - 1, c);
      assert Tells(run[n - 1], events[n - 1], run[n - 1 + 1], c);
      AccountedMore(run, events, n, c);
    }
  }

  /**
   In every run, `StopAll` included: an admitted connection is either kept, that is, on its way,
   pending or an end of a session ever started, or was closed in one of the named steps; and
   never both. So nothing the server does makes a pending end disappear.
   */
  lemma NoConnectionLost(run: seq<World>, events: seq<Event>, n: nat, c: Conn)
    requires ServerRun(run, events) && n <= |events|
    ensures c in Admitted(run, events, n) <==> Kept(run[n], c) || c in Closed(run, events, n)
    ensures !(Kept(run[n], c) && c in Closed(run, events, n))
  {
    forall k: nat | k < n ensures Tells(run[k], events[k], run[k + 1], c) {
      RunTells(run, events, k, c);
    }
    AllAccounted(run, events, n, c);
  }

  lemma NoneGoBack(w: World, e: Event, c: Conn)
    requires c.id in w.seen && c !in w.waiting
    ensures c !in Step(w, e).waiting
  {
  }

  /** A pending end stays in its place until a step closes it or pairs it. */
  lemma PendingStays(run: seq<World>, events: seq<Event>, n: nat, c: Conn)
    requires ServerRun(run, events) && n < |events| && Pending(run[n].desk, c)
    ensures Pending(run[n + 1].desk, c) || c in ClosedBy(run[n], events[n]) || WasPaired(run[n + 1], c)
  {
    RunTells(run, events, n, c);
    RunKeeps(run, events, n);
    assert Holds(run[n].desk, c);
    assert run[n + 1] == Step(run[n], events[n]);
    NoneGoBack(run[n], events[n], c);
  }
}
