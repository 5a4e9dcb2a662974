/**
 Whether the port of a running session still carries its session ID in the pool. The server
 owes the pool two operations: `tryPair` marks the port occupied after it has read the
 allocation, still under the server's lock, and a session's callback releases the port after
 it has deleted the session's entry and given the lock up. Other goroutines use the pool in between.
 */
module Occupancy {
  import opened Options
  import opened PortPool
  import opened Pairing
  import opened PairingRuns

  datatype State = State(
    w: World,
    marking: Option<Session>,     // `tryPair` has filed this session and holds the lock until it has marked the port
    releasing: set<Session>)      // callbacks that have deleted an entry and have still to release the port

  datatype Move =
    | Do(event: Pairing.Event)
    | Mark
    | Free(session: Session)

  /** Steps of the server that take its lock. */
  predicate Locks(e: Pairing.Event) {
    !e.Arrive? && !e.Pool?
  }

  /** The session a step starts. */
  function Started(w: World, e: Pairing.Event): Option<Session> {
    match e
    case Try(port) => if port in w.tries then Paired(w.desk, port, AllocOf(w.pool, port), w.next) else None
    case Tick(port) => Paired(w.desk, port, AllocOf(w.pool, port), w.next)
    case _ => None
  }

  /** No move: the lock is taken, or a session ID would be empty. */
  predicate Held(st: State, e: Pairing.Event) {
    || (Locks(e) && st.marking.Some?)
    || (e.Pool? && e.op.Reserve? && e.op.sessionID == "")
  }

  function Next(st: State, m: Move): State {
    match m
    case Do(e) =>
      if Held(st, e) then st
      else
        State(Step(st.w, e),
              if Locks(e) then Started(st.w, e) else st.marking,
              if e.Finish? && e.session in st.w.running then st.releasing + {e.session} else st.releasing)
    case Mark =>
      if st.marking.None? then st
      else State(PoolStep(st.w, MarkOccupied(st.marking.value.port, st.marking.value.sessionID)), None, st.releasing)
    case Free(s) =>
      if s !in st.releasing then st
      else State(PoolStep(st.w, Release(s.port, s.sessionID)), st.marking, st.releasing - {s})
  }

  ghost predicate PoolServerRun(run: seq<State>, moves: seq<Move>) {
    && |run| == |moves| + 1
    && (exists pool :: WellFormed(pool) && pool.alloc == map[] && run[0] == State(Start(pool), None, {}))
    && (forall i {:trigger moves[i]} :: 0 <= i < |moves| ==> run[i + 1] == Next(run[i], moves[i]))
  }

  /* Such a run is a run of `Pairing`, so what is proved there holds here. */

  const NOTHING := Pairing.Pool(Touch(0, "", 0))

  /** What a move does to the world. */
  function EventOf(st: State, m: Move): Pairing.Event {
    match m
    case Do(e) => if Held(st, e) then NOTHING else e
    case Mark =>
      if st.marking.None? then NOTHING
      else Pairing.Pool(MarkOccupied(st.marking.value.port, st.marking.value.sessionID))
    case Free(s) => if s !in st.releasing then NOTHING else Pairing.Pool(Release(s.port, s.sessionID))
  }

  lemma NextIsStep(st: State, m: Move)
    ensures Next(st, m).w == Step(st.w, EventOf(st, m))
  {
    assert Step(st.w, NOTHING) == st.w;
  }

  ghost function Worlds(run: seq<State>): seq<World> {
    seq(|run|, i requires 0 <= i < |run| => run[i].w)
  }

  ghost function Events(run: seq<State>, moves: seq<Move>): seq<Pairing.Event>
    requires |run| == |moves| + 1
  {
    seq(|moves|, i requires 0 <= i < |moves| => EventOf(run[i], moves[i]))
  }

  lemma WorldSteps(run: seq<State>, moves: seq<Move>, i: nat)
    requires |run| == |moves| + 1 && i < |moves| && run[i + 1] == Next(run[i], moves[i])
    ensures Worlds(run)[i + 1] == Step(Worlds(run)[i], Events(run, moves)[i])
  {
    NextIsStep(run[i], moves[i]);
  }

  lemma IsServerRun(run: seq<State>, moves: seq<Move>)
    requires PoolServerRun(run, moves)
    ensures ServerRun(Worlds(run), Events(run, moves))
  {
    var ws, es := Worlds(run), Events(run, moves);
    forall i {:trigger es[i]} | 0 <= i < |es| ensures ws[i + 1] == Step(ws[i], es[i]) {
      assert run[i + 1] == Next(run[i], moves[i]);
      WorldSteps(run, moves, i);
    }
    assert ws[0] == run[0].w;
  }

  /* What the owed operations add. */

  /** A running session was started under an ID that its port had been reserved for. */
  ghost predicate Known(w: World, s: Session) {
    s in w.log.paired && s.sessionID != "" && s.sessionID in Grants(w.log.grants, s.port)
  }

  ghost predicate HasPort(w: World, s: Session) {
    Carries(w.pool, s.port, s.sessionID)
  }

  /** No reservation was made for the empty ID. */
  ghost predicate Named(w: World) {
    forall port :: "" !in Grants(w.log.grants, port)
  }

  /** Every running session is on record, and no release is owed for the empty ID; a port that carries a session's ID is occupied once it is marked. */
  ghost predicate Owing(st: State) {
    && Named(st.w)
    && (forall s <- st.w.running :: s in st.w.log.paired)
    && (forall s <- st.releasing :: s.sessionID != "")
    && (forall s <- st.w.running :: st.marking != Some(s) && HasPort(st.w, s) ==> StatusOf(st.w.pool, s.port) == Some(Occupied))
  }

  /** The pool operation that a step of the world makes. */
  function OpOf(w: World, e: Pairing.Event): Option<Op> {
    if e.Pool? && (e.op.Reserve? ==> Fresh(w.log, e.op.sessionID)) then Some(e.op) else None
  }

  /** The operation takes the port from the session. */
  predicate Takes(pool: PoolState, op: Op, s: Session) {
    match op
    case Release(port, sid) => port == s.port && (sid == "" || sid == s.sessionID)
    case Block(port) => port == s.port
    case Expire(now, maxAge) => Carries(pool, s.port, s.sessionID) && PortPool.Expired(pool, s.port, now, maxAge)
    case _ => false
  }

  predicate Loses(st: State, m: Move, s: Session) {
    var op := OpOf(st.w, EventOf(st, m));
    op.Some? && Takes(st.w.pool, op.value, s)
  }

  /** A port that carries an ID keeps it until an operation takes it, and occupied it stays occupied. */
  lemma OpKeeps(pool: PoolState, op: Op, s: Session)
    requires WellFormed(pool) && Carries(pool, s.port, s.sessionID)
    ensures Carries(Apply(pool, op), s.port, s.sessionID) <==> !Takes(pool, op, s)
    ensures !Takes(pool, op, s) && StatusOf(pool, s.port) == Some(Occupied) ==>
              StatusOf(Apply(pool, op), s.port) == Some(Occupied)
    ensures op == MarkOccupied(s.port, s.sessionID) ==> StatusOf(Apply(pool, op), s.port) == Some(Occupied)
  {
  }

  /** An ID that a port has lost does not come back: session IDs are fresh. */
  lemma OpNeverReturns(w: World, op: Op, s: Session)
    requires WellFormed(w.pool) && !HasPort(w, s) && s.sessionID in Grants(w.log.grants, s.port)
    ensures !HasPort(PoolStep(w, op), s)
  {
    if !op.Reserve? || Fresh(w.log, op.sessionID) {
      if s.port in Apply(w.pool, op).alloc && Granted(w.pool, op) != Some(s.port) {
        ApplyKeepsSessions(w.pool, op, s.port);
      }
    }
  }

  /** A step keeps what a session has, or has lost, unless it takes the port. */
  lemma MoveKeeps(st: State, m: Move, s: Session)
    requires WellFormed(st.w.pool) && Known(st.w, s)
    ensures HasPort(Next(st, m).w, s) <==> HasPort(st.w, s) && !Loses(st, m, s)
  {
    NextIsStep(st, m);
    var e := EventOf(st, m);
    if e.Pool? {
      if HasPort(st.w, s) {
        OpKeeps(st.w.pool, e.op, s);
      } else {
        OpNeverReturns(st.w, e.op, s);
      }
    } else {
      OnlyPoolStepsGrant(st.w, e);
    }
  }

  /** A session that a step starts is the one it reports, and is put on record. */
  lemma StartsAsReported(w: World, e: Pairing.Event, s: Session)
    requires s in Step(w, e).running
    ensures s in w.running || Started(w, e) == Some(s)
    ensures (s in w.running ==> s in w.log.paired) ==> s in Step(w, e).log.paired
  {
  }

  lemma StepNamed(w: World, e: Pairing.Event)
    requires Named(w) && (e.Pool? && e.op.Reserve? ==> e.op.sessionID != "")
    ensures Named(Step(w, e))
  {
    if e.Pool? {
      forall port ensures "" !in Grants(Step(w, e).log.grants, port) {
        assert Grants(Step(w, e).log.grants, port) == Grants(w.log.grants, port)
               || (e.op.Reserve? && Grants(Step(w, e).log.grants, port) == Grants(w.log.grants, port) + [e.op.sessionID]);
      }
    } else {
      OnlyPoolStepsGrant(w, e);
    }
  }

  /** What a session's port has after a pool operation, if it still carries the ID. */
  lemma OccupiedStays(st: State, m: Move, s: Session)
    requires WellFormed(st.w.pool) && Known(st.w, s) && HasPort(Next(st, m).w, s)
    requires StatusOf(st.w.pool, s.port) == Some(Occupied) || (m.Mark? && st.marking == Some(s))
    ensures StatusOf(Next(st, m).w.pool, s.port) == Some(Occupied)
  {
    MoveKeeps(st, m, s);
    NextIsStep(st, m);
    var e := EventOf(st, m);
    if e.Pool? {
      OpKeeps(st.w.pool, e.op, s);
    } else {
      OnlyPoolStepsGrant(st.w, e);
    }
  }

  lemma MoveOwing(st: State, m: Move)
    requires WellFormed(st.w.pool) && Owing(st) && forall s <- st.w.running :: Known(st.w, s)
    ensures Owing(Next(st, m))
  {
    var next, e := Next(st, m), EventOf(st, m);
    NextIsStep(st, m);
    StepNamed(st.w, e);
    forall s | s in next.w.running
      ensures s in next.w.log.paired
      ensures next.marking != Some(s) && HasPort(next.w, s) ==> StatusOf(next.w.pool, s.port) == Some(Occupied)
    {
      StartsAsReported(st.w, e, s);
      if next.marking != Some(s) && HasPort(next.w, s) {
        assert s in st.w.running;
        MoveKeeps(st, m, s);
        OccupiedStays(st, m, s);
      }
    }
  }

  lemma RunningKnown(st: State)
    requires Owing(st) && AllDated(st.w)
    ensures forall s <- st.w.running :: Known(st.w, s)
  {
    forall s | s in st.w.running ensures Known(st.w, s) {
      assert SessionDated(st.w.log, s);
      assert s.sessionID in Grants(st.w.log.grants, s.port);
    }
  }

  lemma RunRecorded(run: seq<State>, moves: seq<Move>, n: nat)
    requires PoolServerRun(run, moves) && n <= |moves|
    ensures WellFormed(run[n].w.pool) && AllDated(run[n].w)
  {
    IsServerRun(run, moves);
    RunDated(Worlds(run), Events(run, moves), n);
    assert Worlds(run)[n] == run[n].w;
  }

  /** What every state of a run keeps. */
  ghost predicate Kept(st: State) {
    WellFormed(st.w.pool) && Owing(st) && forall s <- st.w.running :: Known(st.w, s)
  }

  lemma StepKept(st: State, m: Move)
    requires Kept(st) && WellFormed(Next(st, m).w.pool) && AllDated(Next(st, m).w)
    ensures Kept(Next(st, m))
  {
    MoveOwing(st, m);
    RunningKnown(Next(st, m));
  }

  lemma StartKept(pool: PoolState)
    requires WellFormed(pool)
    ensures Kept(State(Start(pool), None, {}))
  {
  }

  /** Step `k` is one of the run's, and ends in a recorded state. */
  ghost predicate Regular(run: seq<State>, moves: seq<Move>, k: nat)
    requires k < |moves| < |run|
  {
    run[k + 1] == Next(run[k], moves[k]) && WellFormed(run[k + 1].w.pool) && AllDated(run[k + 1].w)
  }

  lemma RunRegular(run: seq<State>, moves: seq<Move>, k: nat)
    requires PoolServerRun(run, moves) && k < |moves|
    ensures Regular(run, moves, k)
  {
    RunRecorded(run, moves, k + 1);
    assert run[k + 1] == Next(run[k], moves[k]);
  }

  lemma KeptMore(run: seq<State>, moves: seq<Move>, n: nat)
    requires 0 < n <= |moves| < |run| && Regular(run, moves, n - 1) && Kept(run[n - 1])
    ensures Kept(run[n])
  {
    StepKept(run[n - 1], moves[n - 1]);
  }

  lemma {:induction false} AllKept(run: seq<State>, moves: seq<Move>, n: nat)
    requires n <= |moves| < |run| && Kept(run[0])
    requires forall k: nat :: k < n ==> Regular(run, moves, k)
    ensures Kept(run[n])
  {
    if n > 0 {
      AllKept(run, moves, n - 1);
      KeptMore(run, moves, n);
    }
  }

  lemma RunStartsKept(run: seq<State>, moves: seq<Move>)
    requires PoolServerRun(run, moves)
    ensures Kept(run[0])
  {
    var pool :| WellFormed(pool) && pool.alloc == map[] && run[0] == State(Start(pool), None, {});
    StartKept(pool);
  }

  lemma RunKept(run: seq<State>, moves: seq<Move>, n: nat)
    requires PoolServerRun(run, moves) && n <= |moves|
    ensures Kept(run[n])
  {
    RunStartsKept(run, moves);
    forall k: nat | k < n ensures Regular(run, moves, k) {
      RunRegular(run, moves, k);
    }
    AllKept(run, moves, n);
  }

  /** When a session is started, its port carries its ID. */
  lemma StartsWithPort(run: seq<State>, moves: seq<Move>, i: nat, s: Session)
    requires PoolServerRun(run, moves) && i < |moves|
    requires s !in run[i].w.running && s in run[i + 1].w.running
    ensures HasPort(run[i + 1].w, s) && run[i + 1].marking == Some(s)
    ensures moves[i].Do? && Locks(moves[i].event) && s.port !in run[i].w.desk.sessions
  {
    NextIsStep(run[i], moves[i]);
    StartsAsReported(run[i].w, EventOf(run[i], moves[i]), s);
    assert run[i + 1] == Next(run[i], moves[i]);
    OnlyPoolStepsGrant(run[i].w, EventOf(run[i], moves[i]));
  }

  /** From step `i` on, up to step `n`, nothing has taken the session's port. */
  ghost predicate Untaken(run: seq<State>, moves: seq<Move>, i: nat, n: nat, s: Session)
    requires n <= |moves| < |run|
  {
    forall k {:trigger moves[k]} :: i < k < n ==> !Loses(run[k], moves[k], s)
  }

  /** Step `k` decides about the session's port by what it takes. */
  ghost predicate Settles(run: seq<State>, moves: seq<Move>, k: nat, s: Session)
    requires k < |moves| < |run|
  {
    HasPort(run[k + 1].w, s) <==> HasPort(run[k].w, s) && !Loses(run[k], moves[k], s)
  }

  lemma RunSettles(run: seq<State>, moves: seq<Move>, k: nat, s: Session)
    requires PoolServerRun(run, moves) && k < |moves| && s in run[k].w.running
    ensures Settles(run, moves, k, s)
  {
    RunKept(run, moves, k);
    MoveKeeps(run[k], moves[k], s);
    assert run[k + 1] == Next(run[k], moves[k]);
  }

  lemma {:induction false} AllSettle(run: seq<State>, moves: seq<Move>, i: nat, n: nat, s: Session)
    requires i < n <= |moves| < |run| && HasPort(run[i + 1].w, s)
    requires forall k :: i < k < n ==> Settles(run, moves, k, s)
    ensures HasPort(run[n].w, s) <==> Untaken(run, moves, i, n, s)
  {
    if i + 1 < n {
      AllSettle(run, moves, i, n - 1, s);
      assert Settles(run, moves, n - 1, s);
    }
  }

  /**
   The port of a running session carries its ID if and only if, since the session was started
   in step `i`, no pool operation has taken the port: no block, no release for the ID or for
   none, and no expiry of a reservation not yet marked.
   */
  lemma CarriesUntilTaken(run: seq<State>, moves: seq<Move>, i: nat, n: nat, s: Session)
    requires PoolServerRun(run, moves) && i < n <= |moves|
    requires s !in run[i].w.running && forall k :: i < k <= n ==> s in run[k].w.running
    ensures HasPort(run[n].w, s) <==> Untaken(run, moves, i, n, s)
  {
    StartsWithPort(run, moves, i, s);
    forall k | i < k < n ensures Settles(run, moves, k, s) {
      RunSettles(run, moves, k, s);
    }
    AllSettle(run, moves, i, n, s);
  }

  /* What the program's own operations take. */

  /** The release that an earlier session of the same port and ID owes. */
  ghost predicate Late(st: State, m: Move, s: Session) {
    m.Free? && m.session in st.releasing && m.session.port == s.port && m.session.sessionID == s.sessionID
  }

  ghost predicate ExpiresUnmarked(st: State, m: Move, s: Session) {
    && m.Do? && m.event.Pool? && m.event.op.Expire? && st.marking == Some(s) && HasPort(st.w, s)
    && PortPool.Expired(st.w.pool, s.port, m.event.op.now, m.event.op.maxAge)
  }

  /**
   The pool operations of other goroutines: reservations, expiry, renewals, and the rollback
   of an attempt that has never told anyone its ID.
   */
  predicate Usual(m: Move, s: Session) {
    m.Do? && m.event.Pool? ==>
      var op := m.event.op;
      op.Reserve? || op.Expire? || op.Touch? || (op.Release? && op.sessionID != "" && op.sessionID != s.sessionID)
  }

  lemma LosesExactly(st: State, m: Move, s: Session)
    requires WellFormed(st.w.pool) && Owing(st) && s in st.w.running && Usual(m, s)
    ensures Loses(st, m, s) <==> Late(st, m, s) || ExpiresUnmarked(st, m, s)
  {
  }

  /** The releases owed for this session's port and ID. */
  ghost function Owed(st: State, s: Session): set<Session> {
    set t | t in st.releasing && t.port == s.port && t.sessionID == s.sessionID
  }

  lemma OwedShrinks(st: State, m: Move, s: Session)
    requires OwnEntries(st.w) && s in st.w.running && s in Next(st, m).w.running
    ensures Owed(Next(st, m), s) <= Owed(st, s)
  {
  }

  lemma RunOwns(run: seq<State>, moves: seq<Move>, n: nat)
    requires PoolServerRun(run, moves) && n <= |moves|
    requires forall k :: 0 <= k < n ==> moves[k] != Do(StopAll)
    ensures OwnEntries(run[n].w)
  {
    IsServerRun(run, moves);
    forall k | 0 <= k < n ensures !Events(run, moves)[k].StopAll? {
      assert moves[k] != Do(StopAll);
    }
    RunOwnEntries(Worlds(run), Events(run, moves), n);
    assert Worlds(run)[n] == run[n].w;
  }

  lemma StepOwed(run: seq<State>, moves: seq<Move>, n: nat, s: Session)
    requires PoolServerRun(run, moves) && 0 < n <= |moves|
    requires s in run[n - 1].w.running && s in run[n].w.running
    requires forall k :: 0 <= k < n ==> moves[k] != Do(StopAll)
    ensures Owed(run[n], s) <= Owed(run[n - 1], s)
  {
    RunOwns(run, moves, n - 1);
    assert run[n] == Next(run[n - 1], moves[n - 1]);
    OwedShrinks(run[n - 1], moves[n - 1], s);
  }

  lemma FirstOwed(run: seq<State>, moves: seq<Move>, i: nat, s: Session)
    requires PoolServerRun(run, moves) && i < |moves|
    requires s !in run[i].w.running && s in run[i + 1].w.running
    ensures Owed(run[i + 1], s) <= Owed(run[i], s)
  {
    assert run[i + 1] == Next(run[i], moves[i]);
    StartsWithPort(run, moves, i, s);
  }

  lemma {:induction false} OwedSinceStart(run: seq<State>, moves: seq<Move>, i: nat, n: nat, s: Session)
    requires PoolServerRun(run, moves) && i < n <= |moves|
    requires s !in run[i].w.running && forall k :: i < k <= n ==> s in run[k].w.running
    requires forall k :: 0 <= k < n ==> moves[k] != Do(StopAll)
    ensures Owed(run[n], s) <= Owed(run[i], s)
  {
    if n == i + 1 {
      FirstOwed(run, moves, i, s);
    } else {
      OwedSinceStart(run, moves, i, n - 1, s);
      StepOwed(run, moves, n, s);
    }
  }

  /** Step `k` carries out a release that was owed when the session started, in step `i`. */
  ghost predicate ReleasesOwed(run: seq<State>, moves: seq<Move>, i: nat, k: nat, s: Session)
    requires i < |run| && k < |moves| < |run|
  {
    moves[k].Free? && moves[k].session in run[k].releasing && moves[k].session in Owed(run[i], s)
  }

  /**
   With the pool operations the program makes, and no expiry between `tryPair`'s reading of
   the allocation and its marking of the port: the port of a running session carries its ID if
   and only if none of the releases has been carried out that were owed for this port and ID
   when the session was started. In particular, with none owed then, it always does.
   */
  lemma PortIsKeptExactly(run: seq<State>, moves: seq<Move>, i: nat, n: nat, s: Session)
    requires PoolServerRun(run, moves) && i < n <= |moves|
    requires s !in run[i].w.running && forall k :: i < k <= n ==> s in run[k].w.running
    requires forall k :: 0 <= k < n ==> moves[k] != Do(StopAll)
    requires forall k :: i < k < n ==> Usual(moves[k], s) && !ExpiresUnmarked(run[k], moves[k], s)
    ensures HasPort(run[n].w, s) <==> forall k :: i < k < n ==> !ReleasesOwed(run, moves, i, k, s)
    ensures Owed(run[i], s) == {} ==> HasPort(run[n].w, s)
  {
    CarriesUntilTaken(run, moves, i, n, s);
    forall k | i < k < n ensures Loses(run[k], moves[k], s) <==> ReleasesOwed(run, moves, i, k, s) {
      OwedSettles(run, moves, i, k, s);
    }
  }

  lemma OwedSettles(run: seq<State>, moves: seq<Move>, i: nat, k: nat, s: Session)
    requires PoolServerRun(run, moves) && i < k < |moves|
    requires s !in run[i].w.running && forall j :: i < j <= k ==> s in run[j].w.running
    requires forall j :: 0 <= j < k ==> moves[j] != Do(StopAll)
    requires Usual(moves[k], s) && !ExpiresUnmarked(run[k], moves[k], s)
    ensures Loses(run[k], moves[k], s) <==> ReleasesOwed(run, moves, i, k, s)
  {
    RunKept(run, moves, k);
    LosesExactly(run[k], moves[k], s);
    OwedSinceStart(run, moves, i, k, s);
    assert moves[k].Free? ==> (moves[k].session in Owed(run[k], s) <==> Late(run[k], moves[k], s));
  }

  /* Two pairs of connections with one ID. */

  ghost predicate Reached(st: State) {
    exists run, moves :: PoolServerRun(run, moves) && run[|moves|] == st
  }

  lemma Reaches(st: State, m: Move) returns (next: State)
    requires Reached(st)
    ensures Reached(next) && next == Next(st, m)
  {
    next := Next(st, m);
    var run, moves :| PoolServerRun(run, moves) && run[|moves|] == st;
    assert PoolServerRun(run + [next], moves + [m]);
  }

  lemma ReachesStart(port: int) returns (st: State)
    requires port > 0
    ensures Reached(st) && st == State(Start(OnePort(port)), None, {})
  {
    st := State(Start(OnePort(port)), None, {});
    assert WellFormed(OnePort(port));
    assert PoolServerRun([st], []);
  }

  lemma ReachesReserved(port: int, sid: string) returns (st: State)
    requires port > 0 && sid != ""
    ensures Reached(st) && st.marking == None && st.releasing == {}
    ensures st.w.desk == EMPTY_DESK && st.w.waiting == {} && st.w.seen == {} && st.w.running == {}
    ensures st.w.pool == PoolState([port], map[port := Reserved], map[port := Allocation(port, sid, "", "", 0)])
  {
    st := ReachesStart(port);
    Reserves(st.w, port, sid);
    st := Reaches(st, Do(Pairing.Pool(Reserve(sid, "", "", 0))));
  }

  /** A connection for the session arrives. */
  lemma Comes(st: State, c: Conn) returns (next: State)
    requires Reached(st) && Carries(st.w.pool, c.port, c.hello) && c.id !in st.w.seen
    ensures Reached(next) && next.marking == st.marking && next.releasing == st.releasing
    ensures next.w.waiting == st.w.waiting + {c} && next.w.seen == st.w.seen + {c.id}
    ensures next.w.desk == st.w.desk && next.w.pool == st.w.pool && next.w.running == st.w.running
  {
    next := Reaches(st, Do(Arrive(c)));
  }

  lemma Goes(st: State, c: Conn) returns (next: State)
    requires Reached(st) && st.marking == None && c in st.w.waiting && Accepts(st.w.desk, c)
    ensures Reached(next) && next.marking == None && next.releasing == st.releasing
    ensures next.w.waiting == st.w.waiting - {c} && next.w.desk == Park(st.w.desk, c)
    ensures next.w.pool == st.w.pool && next.w.running == st.w.running && next.w.next == st.w.next
  {
    next := Reaches(st, Do(Enter(c)));
  }

  lemma Joins(st: State, port: int) returns (next: State, s: Session)
    requires Reached(st) && st.marking == None && BothPending(st.w.desk, port)
    requires port !in st.w.desk.sessions && port in st.w.pool.alloc
    ensures Reached(next) && next.marking == Some(s) && next.releasing == st.releasing
    ensures s == Session(st.w.next, port, st.w.pool.alloc[port].sessionID, st.w.desk.pendingC[port], st.w.desk.pendingS[port])
    ensures next.w.running == st.w.running + {s} && next.w.waiting == st.w.waiting && next.w.pool == st.w.pool
    ensures next.w.desk == Unpark(st.w.desk, port).(sessions := st.w.desk.sessions[port := s])
    ensures next.w.next == st.w.next + 1
  {
    next := Reaches(st, Do(Tick(port)));
    s := Session(st.w.next, port, st.w.pool.alloc[port].sessionID, st.w.desk.pendingC[port], st.w.desk.pendingS[port]);
  }

  lemma Marks(st: State) returns (next: State)
    requires Reached(st) && st.marking.Some? && HasPort(st.w, st.marking.value) && WellFormed(st.w.pool)
    ensures Reached(next) && next.marking == None && next.releasing == st.releasing
    ensures next.w.pool.alloc == st.w.pool.alloc && next.w.pool.ports == st.w.pool.ports && WellFormed(next.w.pool)
    ensures next.w.desk == st.w.desk && next.w.waiting == st.w.waiting && next.w.running == st.w.running
    ensures next.w.next == st.w.next
  {
    var op := MarkOccupied(st.marking.value.port, st.marking.value.sessionID);
    ApplyWellFormed(st.w.pool, op);
    next := Reaches(st, Mark);
  }

  lemma Ends(st: State, s: Session) returns (next: State)
    requires Reached(st) && st.marking == None && s in st.w.running
    ensures Reached(next) && next.marking == None && next.releasing == st.releasing + {s}
    ensures next.w.running == st.w.running - {s} && next.w.desk == Forget(st.w.desk, s.port)
    ensures next.w.pool == st.w.pool && next.w.waiting == st.w.waiting && next.w.next == st.w.next
  {
    next := Reaches(st, Do(Finish(s)));
  }

  /** A server and a client that are waiting pass the lock, are joined, and the port is marked. */
  lemma Pair(st: State, c: Conn, d: Conn) returns (next: State, s: Session)
    requires Reached(st) && st.marking == None && c in st.w.waiting && d in st.w.waiting && st.w.desk == EMPTY_DESK
    requires c.role.Server? && d.role.Client? && c.port == d.port && c.port in st.w.pool.alloc && WellFormed(st.w.pool)
    ensures Reached(next) && next.marking == None && next.releasing == st.releasing
    ensures s == Session(st.w.next, c.port, st.w.pool.alloc[c.port].sessionID, d, c)
    ensures next.w.running == st.w.running + {s} && next.w.waiting == st.w.waiting - {c} - {d}
    ensures next.w.desk == EMPTY_DESK.(sessions := map[c.port := s]) && next.w.next == st.w.next + 1
    ensures next.w.pool.alloc == st.w.pool.alloc && next.w.pool.ports == st.w.pool.ports && WellFormed(next.w.pool)
  {
    next := Goes(st, c);
    next := Goes(next, d);
    next, s := Joins(next, c.port);
    next := Marks(next);
  }

  lemma PairComes(st: State, c: Conn, d: Conn) returns (next: State)
    requires Reached(st) && Carries(st.w.pool, c.port, c.hello) && Carries(st.w.pool, d.port, d.hello)
    requires c.id !in st.w.seen && d.id !in st.w.seen && c.id != d.id
    ensures Reached(next) && next.marking == st.marking && next.releasing == st.releasing
    ensures next.w.waiting == st.w.waiting + {c, d} && next.w.seen == st.w.seen + {c.id, d.id}
    ensures next.w.desk == st.w.desk && next.w.pool == st.w.pool && next.w.running == st.w.running
  {
    next := Comes(st, c);
    next := Comes(next, d);
  }

  lemma FourCome(port: int, sid: string, c1: Conn, d1: Conn, c2: Conn, d2: Conn) returns (st: State)
    requires port > 0 && sid != ""
    requires c1 == Conn(1, port, Server, sid) && d1 == Conn(2, port, Client, sid)
    requires c2 == Conn(3, port, Server, sid) && d2 == Conn(4, port, Client, sid)
    ensures Reached(st) && st.marking == None && st.releasing == {} && st.w.desk == EMPTY_DESK
    ensures c1 in st.w.waiting && d1 in st.w.waiting && c2 in st.w.waiting && d2 in st.w.waiting
    ensures Carries(st.w.pool, port, sid) && WellFormed(st.w.pool)
  {
    st := ReachesReserved(port, sid);
    st := PairComes(st, c1, d1);
    st := PairComes(st, c2, d2);
  }

  lemma Frees(st: State, t: Session) returns (next: State)
    requires Reached(st) && t in st.releasing && HasPort(st.w, t) && WellFormed(st.w.pool)
    ensures Reached(next) && next.w.running == st.w.running && next.w.desk == st.w.desk
    ensures t.port !in next.w.pool.alloc && StatusOf(next.w.pool, t.port) == Some(Idle)
  {
    next := Reaches(st, Free(t));
  }

  /**
   Such a release can come late: two connections with the ID of a session that is just ending
   are joined before its callback releases the port. The release then takes the port from the
   new session, which is still running and filed, and any other attempt may reserve it.
   */
  lemma LateReleaseTakesPort(port: int, sid: string) returns (st: State, s: Session)
    requires port > 0 && sid != ""
    ensures Reached(st) && s in st.w.running && s.port == port && s.sessionID == sid
    ensures port in st.w.desk.sessions && st.w.desk.sessions[port] == s
    ensures port !in st.w.pool.alloc && StatusOf(st.w.pool, port) == Some(Idle)
  {
    var c1, d1 := Conn(1, port, Server, sid), Conn(2, port, Client, sid);
    var c2, d2 := Conn(3, port, Server, sid), Conn(4, port, Client, sid);
    var first;
    st := FourCome(port, sid, c1, d1, c2, d2);
    st, first := Pair(st, c1, d1);
    st := Ends(st, first);
    st, s := Pair(st, c2, d2);
    st := Frees(st, first);
  }
}
