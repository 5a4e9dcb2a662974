/** Whose session a stop callback forgets, and which session ID the two ends of a session presented. */
module PairingRuns {
  import opened Options
  import opened Sequences
  import opened PortPool
  import opened Pairing

  /** Every running session is filed under its port, and every filed session is running. */
  ghost predicate OwnEntries(w: World) {
    && (forall s :: s in w.running <==> s.port in w.desk.sessions && w.desk.sessions[s.port] == s)
    && (forall s <- w.running :: s.id < w.next)
  }

  lemma StepOwnEntries(w: World, e: Event)
    requires Exclusive(w.desk) && OwnEntries(w) && !e.StopAll?
    ensures OwnEntries(Step(w, e))
  {
    match e
    case Try(port) => PairOwnEntries(w.(tries := w.tries - multiset{port}), port);
    case Tick(port) => PairOwnEntries(w, port);
    case Finish(s) =>
    case Arrive(_) | Enter(_) | DropServer(_) | DropClient(_) | Pool(_) => SessionsKept(w, e);
  }

  lemma SessionsKept(w: World, e: Event)
    requires e.Arrive? || e.Enter? || e.DropServer? || e.DropClient? || e.Pool?
    ensures
      var w' := Step(w, e);
      w'.running == w.running && w'.desk.sessions == w.desk.sessions && w'.next == w.next
  {
  }

  lemma PairOwnEntries(w: World, port: int)
    requires OwnEntries(w)
    ensures OwnEntries(PairNow(w, port))
  {
  }

  lemma {:induction false} RunOwnEntries(run: seq<World>, events: seq<Event>, n: nat)
    requires ServerRun(run, events) && n <= |events|
    requires forall i :: 0 <= i < n ==> !events[i].StopAll?
    ensures OwnEntries(run[n])
  {
    if n > 0 {
      RunOwnEntries(run, events, n - 1);
      assert Exclusive(run[n - 1].desk) by {
        RunKeeps(run, events, n - 1);
      }
      StepOwnEntries(run[n - 1], events[n - 1]);
    }
  }

  /** In a run without `StopAll`, the entry a finishing session deletes is its own, and no other is touched. */
  lemma FinishDeletesOwn(run: seq<World>, events: seq<Event>, n: nat, s: Session)
    requires ServerRun(run, events) && n <= |events|
    requires forall i :: 0 <= i < n ==> !events[i].StopAll?
    requires s in run[n].running
    ensures
      var before, after := run[n].desk.sessions, Step(run[n], Finish(s)).desk.sessions;
      && s.port in before && before[s.port] == s
      && after == before - {s.port}
      && s !in Step(run[n], Finish(s)).running
  {
    RunOwnEntries(run, events, n);
  }

  /** The session is the one stored under its port. */
  ghost predicate Stored(w: World, s: Session) {
    s.port in w.desk.sessions && w.desk.sessions[s.port] == s
  }

  /** `StopAll`, or the callback of another session of the same port. */
  ghost predicate Forgets(w: World, e: Event, s: Session) {
    e.StopAll? || (e.Finish? && e.session in w.running && e.session.port == s.port && e.session != s)
  }

  ghost predicate OldIDs(w: World) {
    forall s <- w.running :: s.id < w.next
  }

  lemma {:induction false} RunOldIDs(run: seq<World>, events: seq<Event>, n: nat)
    requires ServerRun(run, events) && n <= |events|
    ensures OldIDs(run[n])
  {
    if n > 0 {
      RunOldIDs(run, events, n - 1);
      StepOldIDs(run[n - 1], events[n - 1]);
      assert run[n] == Step(run[n - 1], events[n - 1]);
    }
  }

  lemma StepOldIDs(w: World, e: Event)
    requires OldIDs(w)
    ensures OldIDs(Step(w, e))
  {
  }

  lemma PairStores(w: World, port: int, s: Session)
    requires OldIDs(w) && s in PairNow(w, port).running
    ensures Stored(PairNow(w, port), s) <==> s !in w.running || Stored(w, s)
  {
  }

  lemma FinishStores(w: World, t: Session, s: Session)
    requires OldIDs(w) && s in Step(w, Finish(t)).running
    ensures Stored(Step(w, Finish(t)), s) <==> Stored(w, s) && !Forgets(w, Finish(t), s)
  {
  }

  lemma OthersStore(w: World, e: Event, s: Session)
    requires e.Arrive? || e.Enter? || e.DropServer? || e.DropClient? || e.Pool?
    requires s in Step(w, e).running
    ensures s in w.running && (Stored(Step(w, e), s) <==> Stored(w, s)) && !Forgets(w, e, s)
  {
    SessionsKept(w, e);
  }

  lemma StepStores(w: World, e: Event, s: Session)
    requires OldIDs(w) && s in Step(w, e).running
    ensures Stored(Step(w, e), s) <==> s !in w.running || (Stored(w, s) && !Forgets(w, e, s))
  {
    match e
    case Try(port) => PairStores(w.(tries := w.tries - multiset{port}), port, s);
    case Tick(port) => PairStores(w, port, s);
    case Finish(t) => FinishStores(w, t, s);
    case StopAll =>
    case Arrive(_) | Enter(_) | DropServer(_) | DropClient(_) | Pool(_) => OthersStore(w, e, s);
  }

  /** From step `i` on, up to step `n`, nothing made the server forget the session's entry. */
  ghost predicate Remembered(run: seq<World>, events: seq<Event>, i: nat, n: nat, s: Session)
    requires n <= |events| < |run|
  {
    forall k {:trigger events[k]} :: i < k < n ==> !Forgets(run[k], events[k], s)
  }

  /** Step `k` decides about the session's entry by whether it makes the server forget it. */
  ghost predicate Decides(run: seq<World>, events: seq<Event>, k: nat, s: Session)
    requires k < |events| < |run|
  {
    Stored(run[k + 1], s) <==> s !in run[k].running || (Stored(run[k], s) && !Forgets(run[k], events[k], s))
  }

  lemma RunDecides(run: seq<World>, events: seq<Event>, k: nat, s: Session)
    requires ServerRun(run, events) && k < |events| && s in run[k + 1].running
    ensures Decides(run, events, k, s)
  {
    RunOldIDs(run, events, k);
    StepStores(run[k], events[k], s);
    assert run[k + 1] == Step(run[k], events[k]);
  }

  lemma {:induction false} AllDecide(run: seq<World>, events: seq<Event>, i: nat, n: nat, s: Session)
    requires i < n <= |events| < |run| && Stored(run[i + 1], s)
    requires forall k :: i < k < n ==> s in run[k].running
    requires forall k :: i < k < n ==> Decides(run, events, k, s)
    ensures Stored(run[n], s) <==> Remembered(run, events, i, n, s)
  {
    if i + 1 < n {
      AllDecide(run, events, i, n - 1, s);
      assert Decides(run, events, n - 1, s);
    }
  }

  /**
   With `StopAll` too: the entry a running session would delete is its own if and only if,
   since it was started in step `i`, neither `StopAll` nor the callback of another session of
   its port has come.
   */
  lemma OwnUntilForgotten(run: seq<World>, events: seq<Event>, i: nat, n: nat, s: Session)
    requires ServerRun(run, events) && i < n <= |events|
    requires s !in run[i].running && forall k :: i < k <= n ==> s in run[k].running
    ensures Stored(run[n], s) <==> Remembered(run, events, i, n, s)
  {
    forall k | i <= k < n ensures Decides(run, events, k, s) {
      RunDecides(run, events, k, s);
    }
    assert Decides(run, events, i, s);
    AllDecide(run, events, i, n, s);
  }

  /*
   The condition matters: two connections admitted before `StopAll` can pair after it, and the
   old session's callback then deletes the new session's entry (`StopAllCanOrphan` below).
   */

  /** A pool with one idle port. */
  function OnePort(port: int): PoolState {
    PoolState([port], map[port := Idle], map[])
  }

  lemma Reserves(w: World, port: int, sid: string)
    requires w.pool == OnePort(port) && Fresh(w.log, sid)
    ensures
      var a := Allocation(port, sid, "", "", 0);
      Step(w, Pool(Reserve(sid, "", "", 0))) ==
      w.(pool := PoolState([port], map[port := Reserved], map[port := a]),
         log := w.log.(grants := w.log.grants[port := Grants(w.log.grants, port) + [sid]]))
  {
    assert FirstIdle([port], map[port := Idle]) == Some(port);
  }

  ghost predicate Reachable(w: World) {
    exists run, events :: ServerRun(run, events) && run[|events|] == w
  }

  lemma ReachStart(port: int)
    requires port > 0
    ensures Reachable(Start(OnePort(port)))
  {
    assert WellFormed(OnePort(port));
    assert ServerRun([Start(OnePort(port))], []);
  }

  lemma ReachStep(w: World, e: Event)
    requires Reachable(w)
    ensures Reachable(Step(w, e))
  {
    var run, events :| ServerRun(run, events) && run[|events|] == w;
    assert ServerRun(run + [Step(w, e)], events + [e]);
  }

  /** Arrivals for the session a port is reserved for are let through. */
  lemma Arrives(w: World, c: Conn) returns (w': World)
    requires Reachable(w) && Admits(w.pool, c) && c.id !in w.seen
    ensures Reachable(w') && w' == Step(w, Arrive(c))
    ensures w'.waiting == w.waiting + {c} && w'.seen == w.seen + {c.id}
    ensures w'.desk == w.desk && w'.pool == w.pool && w'.tries == w.tries
    ensures w'.running == w.running && w'.next == w.next
    ensures w'.log.paired == w.log.paired && w'.log.grants == w.log.grants
  {
    w' := Step(w, Arrive(c));
    ReachStep(w, Arrive(c));
  }

  lemma Enters(w: World, c: Conn) returns (w': World)
    requires Reachable(w) && c in w.waiting && Accepts(w.desk, c)
    ensures Reachable(w')
    ensures w' == w.(waiting := w.waiting - {c}, desk := Park(w.desk, c), tries := w.tries + multiset{c.port})
  {
    w' := Step(w, Enter(c));
    ReachStep(w, Enter(c));
  }

  lemma Pairs(w: World, port: int) returns (w': World, s: Session)
    requires Reachable(w) && port in w.tries && port !in w.desk.sessions && BothPending(w.desk, port) && port in w.pool.alloc
    ensures Reachable(w')
    ensures s == Session(w.next, port, w.pool.alloc[port].sessionID, w.desk.pendingC[port], w.desk.pendingS[port])
    ensures w'.running == w.running + {s} && w'.next == w.next + 1 && s in w'.log.paired
    ensures w'.pool == w.pool && w'.waiting == w.waiting
  {
    w' := Step(w, Try(port));
    ReachStep(w, Try(port));
    s := Session(w.next, port, w.pool.alloc[port].sessionID, w.desk.pendingC[port], w.desk.pendingS[port]);
  }

  /** A waiting server and a waiting client enter a free port and are paired. */
  lemma Meet(w: World, c: Conn, d: Conn) returns (w': World, s: Session)
    requires Reachable(w) && c in w.waiting && d in w.waiting && w.desk == EMPTY_DESK
    requires c.role.Server? && d.role.Client? && c.port == d.port && c.port in w.pool.alloc
    ensures Reachable(w')
    ensures s == Session(w.next, c.port, w.pool.alloc[c.port].sessionID, d, c)
    ensures w'.running == w.running + {s} && w'.next == w.next + 1
    ensures w'.pool == w.pool && w'.waiting == w.waiting - {c} - {d}
    ensures s in w'.log.paired
  {
    w' := Enters(w, c);
    w' := Enters(w', d);
    w', s := Pairs(w', c.port);
  }

  /** A reachable state with the port reserved for `sid` and nobody there yet. */
  lemma ReachReserved(port: int, sid: string) returns (w: World)
    requires port > 0
    ensures Reachable(w) && Carries(w.pool, port, sid) && w.desk == EMPTY_DESK
    ensures w.waiting == {} && w.seen == {} && w.running == {}
    ensures w.pool == PoolState([port], map[port := Reserved], map[port := Allocation(port, sid, "", "", 0)])
    ensures w.log == Log(map[port := [sid]], map[], map[])
  {
    var w0 := Start(OnePort(port));
    ReachStart(port);
    Reserves(w0, port, sid);
    ReachStep(w0, Pool(Reserve(sid, "", "", 0)));
    w := Step(w0, Pool(Reserve(sid, "", "", 0)));
    assert [] + [sid] == [sid];
  }

  /** Another connection arrives; those that have arrived stay where they are. */
  lemma ArrivesToo(w: World, c: Conn) returns (w': World)
    requires Reachable(w) && Carries(w.pool, c.port, c.hello) && c.id !in w.seen && w.desk == EMPTY_DESK && w.running == {}
    ensures Reachable(w') && w'.pool == w.pool && w'.desk == EMPTY_DESK && w'.running == {}
    ensures w'.waiting == w.waiting + {c} && w'.seen == w.seen + {c.id}
  {
    w' := Arrives(w, c);
  }

  lemma TwoPairsArrive(port: int, sid: string, c1: Conn, d1: Conn, c2: Conn, d2: Conn) returns (w: World)
    requires port > 0
    requires c1 == Conn(1, port, Server, sid) && d1 == Conn(2, port, Client, sid)
    requires c2 == Conn(3, port, Server, sid) && d2 == Conn(4, port, Client, sid)
    ensures Reachable(w) && w.desk == EMPTY_DESK && w.running == {}
    ensures c1 in w.waiting && d1 in w.waiting && c2 in w.waiting && d2 in w.waiting
    ensures Carries(w.pool, port, sid)
  {
    w := ReachReserved(port, sid);
    w := ArrivesToo(w, c1);
    w := ArrivesToo(w, d1);
    w := ArrivesToo(w, c2);
    w := ArrivesToo(w, d2);
  }

  /** After `StopAll`, a session that was running finishes. */
  lemma FinishAfterStop(w: World, s: Session) returns (w': World)
    requires Reachable(w) && s in w.running
    ensures Reachable(w')
    ensures w'.running == w.running - {s} && s.port !in w'.desk.sessions
  {
    w' := Step(w, Finish(s));
    ReachStep(w, Finish(s));
  }

  lemma Stops(w: World) returns (w': World)
    requires Reachable(w)
    ensures Reachable(w') && w' == w.(desk := EMPTY_DESK)
  {
    w' := Step(w, StopAll);
    ReachStep(w, StopAll);
  }

  /** A reachable state in which, after `StopAll`, a session is running that the server has forgotten. */
  lemma StopAllCanOrphan(port: int, sid: string) returns (w: World, orphan: Session)
    requires port > 0
    ensures Reachable(w)
    ensures orphan in w.running && orphan.port == port && port !in w.desk.sessions
  {
    var c1, d1 := Conn(1, port, Server, sid), Conn(2, port, Client, sid);
    var c2, d2 := Conn(3, port, Server, sid), Conn(4, port, Client, sid);
    var s;
    w := TwoPairsArrive(port, sid, c1, d1, c2, d2);
    w, s := Meet(w, c1, d1);
    w := Stops(w);
    w, orphan := Meet(w, c2, d2);
    w := FinishAfterStop(w, s);
  }

  lemma Releases(w: World, port: int, former: string) returns (w': World)
    requires Reachable(w) && former != ""
    requires w.pool == PoolState([port], map[port := Reserved], map[port := Allocation(port, former, "", "", 0)])
    ensures Reachable(w') && w' == w.(pool := OnePort(port))
  {
    w' := Step(w, Pool(Release(port, former)));
    ReachStep(w, Pool(Release(port, former)));
    assert w'.pool == OnePort(port);
  }

  /** The port is released and reserved for another session. */
  lemma ReservedAgain(w: World, port: int, former: string, sid: string) returns (w': World)
    requires Reachable(w) && former != "" && w.log.grants == map[port := [former]] && sid != former
    requires w.pool == PoolState([port], map[port := Reserved], map[port := Allocation(port, former, "", "", 0)])
    ensures Reachable(w') && Carries(w'.pool, port, sid)
    ensures w'.waiting == w.waiting && w'.seen == w.seen && w'.desk == w.desk && w'.next == w.next
  {
    w' := Releases(w, port, former);
    Reserves(w', port, sid);
    ReachStep(w', Pool(Reserve(sid, "", "", 0)));
    w' := Step(w', Pool(Reserve(sid, "", "", 0)));
  }

  /** A reachable session whose backend presented another session ID than its own. */
  lemma ReReservationMixesEnds(port: int, former: string, sid: string) returns (w: World, s: Session)
    requires port > 0 && former != sid && former != ""
    ensures Reachable(w)
    ensures s in w.log.paired && s.sessionID == s.fe.hello == sid && s.be.hello == former
  {
    var c, d := Conn(1, port, Server, former), Conn(2, port, Client, sid);
    w := ReachReserved(port, former);
    w := Arrives(w, c);
    w := ReservedAgain(w, port, former, sid);
    w := Arrives(w, d);
    w, s := Meet(w, c, d);
  }

  /* Which session ID the two ends of a session presented. */

  /** The hello named the session the port was reserved for when the connection was admitted. */
  ghost predicate Dated(log: Log, c: Conn) {
    && c.id in log.admitted
    && 1 <= log.admitted[c.id] <= |Grants(log.grants, c.port)|
    && Grants(log.grants, c.port)[log.admitted[c.id] - 1] == c.hello
  }

  ghost predicate SessionDated(log: Log, s: Session)
    requires s in log.paired
  {
    && 1 <= log.paired[s] <= |Grants(log.grants, s.port)|
    && Grants(log.grants, s.port)[log.paired[s] - 1] == s.sessionID
    && s.fe.port == s.be.port == s.port && Dated(log, s.fe) && Dated(log, s.be)
  }

  /** The allocation of a port belongs to its latest grant. */
  ghost predicate Current(grants: map<int, seq<string>>, pool: PoolState) {
    forall port <- pool.alloc ::
      var g := Grants(grants, port);
      g != [] && g[|g| - 1] == pool.alloc[port].sessionID
  }

  ghost predicate Recorded(pool: PoolState, grants: map<int, seq<string>>) {
    && WellFormed(pool)
    && Current(grants, pool)
    && (forall port <- grants :: Distinct(grants[port]))
  }

  ghost predicate GrantsRecorded(w: World) {
    Recorded(w.pool, w.log.grants)
  }

  ghost predicate AllDated(w: World) {
    && (forall c <- w.waiting :: Dated(w.log, c))
    && (forall c :: Holds(w.desk, c) ==> Dated(w.log, c))
    && (forall s <- w.log.paired :: SessionDated(w.log, s) && s.id < w.next)
    && (forall id <- w.log.admitted :: id in w.seen)
  }

  lemma ApplyKeepsSessions(p: PoolState, op: Op, port: int)
    requires WellFormed(p) && port in Apply(p, op).alloc && Granted(p, op) != Some(port)
    ensures port in p.alloc && Apply(p, op).alloc[port].sessionID == p.alloc[port].sessionID
  {
  }

  lemma GrantDistinct(g: seq<string>, sessionID: string)
    requires Distinct(g) && sessionID !in g
    ensures Distinct(g + [sessionID])
  {
  }

  lemma CurrentAfter(log: Log, pool: PoolState, op: Op)
    requires WellFormed(pool) && Current(log.grants, pool)
    ensures Current(Record(log, pool, op).grants, Apply(pool, op))
  {
    var grants := Record(log, pool, op).grants;
    forall port <- Apply(pool, op).alloc
      ensures
        var g := Grants(grants, port);
        g != [] && g[|g| - 1] == Apply(pool, op).alloc[port].sessionID
    {
      if Granted(pool, op) != Some(port) {
        ApplyKeepsSessions(pool, op, port);
        assert Grants(grants, port) == Grants(log.grants, port);
      }
    }
  }

  lemma PoolRecorded(w: World, op: Op)
    requires GrantsRecorded(w)
    ensures GrantsRecorded(PoolStep(w, op))
  {
    if !op.Reserve? || Fresh(w.log, op.sessionID) {
      ApplyWellFormed(w.pool, op);
      CurrentAfter(w.log, w.pool, op);
      if Granted(w.pool, op).Some? {
        GrantDistinct(Grants(w.log.grants, Granted(w.pool, op).value), op.sessionID);
      }
    }
  }

  /** A new grant leaves every record valid. */
  lemma RecordKeepsDates(log: Log, pool: PoolState, op: Op)
    ensures forall c :: Dated(log, c) ==> Dated(Record(log, pool, op), c)
    ensures forall s <- log.paired :: SessionDated(log, s) ==> SessionDated(Record(log, pool, op), s)
  {
    assert forall port :: Grants(log.grants, port) <= Grants(Record(log, pool, op).grants, port);
  }

  lemma AdmitKeepsDates(log: Log, c: Conn)
    requires c.id !in log.admitted
    ensures
      var log' := log.(admitted := log.admitted[c.id := |Grants(log.grants, c.port)|]);
      && (forall k :: Dated(log, k) ==> Dated(log', k))
      && (forall s <- log.paired :: SessionDated(log, s) ==> SessionDated(log', s))
      && (Grants(log.grants, c.port) != [] && Grants(log.grants, c.port)[|Grants(log.grants, c.port)| - 1] == c.hello ==> Dated(log', c))
  {
  }

  lemma ArriveDated(w: World, c: Conn)
    requires GrantsRecorded(w) && AllDated(w)
    ensures AllDated(Step(w, Arrive(c)))
  {
    if c.id !in w.seen && Admits(w.pool, c) {
      AdmitKeepsDates(w.log, c);
    }
  }

  lemma EnterDated(w: World, c: Conn)
    requires AllDated(w)
    ensures AllDated(Step(w, Enter(c)))
  {
    forall k | Holds(Park(w.desk, c), k)
      ensures Holds(w.desk, k) || k == c
    {
    }
  }

  lemma PairDated(w: World, port: int)
    requires Exclusive(w.desk) && GrantsRecorded(w) && AllDated(w)
    ensures AllDated(PairNow(w, port))
  {
    var alloc := AllocOf(w.pool, port);
    forall c | Holds(TryPair(w.desk, port, alloc, w.next), c)
      ensures Dated(w.log, c)
    {
      TryPairHolds(w.desk, port, alloc, w.next, c);
    }
    var s := Paired(w.desk, port, alloc, w.next);
    if s.Some? {
      assert Holds(w.desk, s.value.fe) && Holds(w.desk, s.value.be);
      PairedDated(w.log, s.value);
    }
  }

  lemma PairedDated(log: Log, s: Session)
    requires s !in log.paired && s.fe.port == s.be.port == s.port
    requires Dated(log, s.fe) && Dated(log, s.be)
    requires var g := Grants(log.grants, s.port); g != [] && g[|g| - 1] == s.sessionID
    requires forall t <- log.paired :: SessionDated(log, t)
    ensures
      var log' := log.(paired := log.paired[s := |Grants(log.grants, s.port)|]);
      && (forall t <- log'.paired :: SessionDated(log', t))
      && (forall c :: Dated(log, c) ==> Dated(log', c))
  {
  }

  lemma StepRecorded(w: World, e: Event)
    requires GrantsRecorded(w)
    ensures GrantsRecorded(Step(w, e))
  {
    if e.Pool? {
      PoolRecorded(w, e.op);
    } else {
      OnlyPoolStepsGrant(w, e);
    }
  }

  lemma OnlyPoolStepsGrant(w: World, e: Event)
    requires !e.Pool?
    ensures Step(w, e).pool == w.pool && Step(w, e).log.grants == w.log.grants
  {
  }

  lemma StepDated(w: World, e: Event)
    requires Exclusive(w.desk) && GrantsRecorded(w) && AllDated(w)
    ensures AllDated(Step(w, e))
  {
    match e
    case Arrive(c) => ArriveDated(w, c);
    case Enter(c) => EnterDated(w, c);
    case Try(port) => PairDated(w.(tries := w.tries - multiset{port}), port);
    case Tick(port) => PairDated(w, port);
    case Pool(op) => RecordKeepsDates(w.log, w.pool, op);
    case _ => DeskShrinks(w, e);
  }

  lemma DeskShrinks(w: World, e: Event)
    requires AllDated(w) && (e.DropServer? || e.DropClient? || e.Finish? || e.StopAll?)
    ensures AllDated(Step(w, e))
  {
    assert forall c :: Holds(Step(w, e).desk, c) ==> Holds(w.desk, c);
  }

  lemma {:induction false} RunDated(run: seq<World>, events: seq<Event>, n: nat)
    requires ServerRun(run, events) && n <= |events|
    ensures GrantsRecorded(run[n]) && AllDated(run[n])
  {
    if n > 0 {
      RunDated(run, events, n - 1);
      RunKeeps(run, events, n - 1);
      StepRecorded(run[n - 1], events[n - 1]);
      StepDated(run[n - 1], events[n - 1]);
    }
  }

  lemma DatesDecide(log: Log, s: Session, c: Conn)
    requires s in log.paired && SessionDated(log, s) && Distinct(Grants(log.grants, s.port)) && (c == s.fe || c == s.be)
    ensures c.id in log.admitted
    ensures c.hello == s.sessionID <==> log.admitted[c.id] == log.paired[s]
  {
  }

  /**
   An end of a session presented the session ID stored in the port's allocation exactly when
   the port was not reserved anew between that end's admission check and the pairing.
   */
  lemma EndsPresentedTheID(run: seq<World>, events: seq<Event>, n: nat, s: Session, c: Conn)
    requires ServerRun(run, events) && n <= |events|
    requires s in run[n].log.paired && (c == s.fe || c == s.be)
    ensures c.id in run[n].log.admitted
    ensures c.hello == s.sessionID <==> run[n].log.admitted[c.id] == run[n].log.paired[s]
  {
    RunDated(run, events, n);
    DatesDecide(run[n].log, s, c);
  }
}
