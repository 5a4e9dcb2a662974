/**
 The v1 reservation manager: reservations filed by session, by port and by owner. Every
 operation is proved to do one thing to the by-session index and to keep the other two in
 step with it. Time is a number passed in; zero is the zero time. Session IDs are passed in
 and are fresh, as `newSessionID` is assumed to make them.
 */
module Reservations {
  import opened Iteration

  /** A control connection; only its identity matters here. */
  class Client {}

  const SECOND: int := 1_000_000_000
  const MIN_INT64: int := -0x8000_0000_0000_0000
  const TWO_64: int := 0x1_0000_0000_0000_0000

  datatype Reservation = Reservation(
    owner: Client, requestID: string, sessionID: string, zmqPort: int, srtPort: int, expiresAt: int)

  datatype Request = Request(requestID: string, needZMQ: bool, needSRT: bool, ttlSeconds: int)

  datatype Error = NoOwner | NothingNeeded | BothNeeded | NoFreePort

  datatype Outcome = Granted(reservation: Reservation) | Refused(error: Error)

  /** 64-bit wrap-around. */
  function Wrap64(n: int): int {
    (n - MIN_INT64) % TWO_64 + MIN_INT64
  }

  /** The lifetime of a reservation: the multiplication wraps, and what is not positive becomes 30 s. */
  function Lifetime(ttlSeconds: int): (ttl: int)
    ensures ttl > 0
    ensures 0 < ttlSeconds <= 9_223_372_036 ==> ttl == ttlSeconds * SECOND
    ensures -9_223_372_036 <= ttlSeconds <= 0 ==> ttl == 30_000_000_000
  {
    var ttl := Wrap64(ttlSeconds * SECOND);
    if ttl <= 0 then 30 * SECOND else ttl
  }

  lemma Remainder(a: int, r: int, q: int)
    requires a == r + 0x1_0000_0000_0000_0000 * q && 0 <= r < 0x1_0000_0000_0000_0000
    ensures a % 0x1_0000_0000_0000_0000 == r
  {
  }

  /** `t` is what the 64-bit product comes to; if that is not positive, the lifetime is 30 s. */
  lemma LifetimeExactly(ttlSeconds: int, t: int)
    requires -0x8000_0000_0000_0000 <= t < 0x8000_0000_0000_0000
    requires (ttlSeconds * 1_000_000_000 - t) % 0x1_0000_0000_0000_0000 == 0
    ensures Lifetime(ttlSeconds) == if t > 0 then t else 30_000_000_000
  {
    var n := ttlSeconds * SECOND;
    Remainder(n - MIN_INT64, t - MIN_INT64, (n - t) / TWO_64);
  }

  predicate Expired(r: Reservation, now: int) {
    r.expiresAt != 0 && now > r.expiresAt
  }

  /** The port a reservation holds; it holds exactly one. */
  function PortOf(r: Reservation): int {
    if r.zmqPort > 0 then r.zmqPort else r.srtPort
  }

  predicate OnePort(r: Reservation) {
    (r.zmqPort > 0 && r.srtPort == 0) || (r.zmqPort == 0 && r.srtPort > 0)
  }

  /** Each reservation is filed under its own ID and holds one port, and no two hold the same. */
  ghost predicate Sound(bySession: map<string, Reservation>) {
    && (forall sid <- bySession ::
          var r := bySession[sid];
          sid != "" && r.sessionID == sid && OnePort(r) && r.expiresAt > 0)
    && (forall sid <- bySession, tid <- bySession :: PortOf(bySession[sid]) == PortOf(bySession[tid]) ==> sid == tid)
  }

  /** The port index holds exactly the ports of the reservations. */
  ghost predicate PortIndex(bySession: map<string, Reservation>, byPort: map<int, string>) {
    && (forall sid <- bySession :: PortOf(bySession[sid]) in byPort && byPort[PortOf(bySession[sid])] == sid)
    && (forall port <- byPort :: byPort[port] in bySession && PortOf(bySession[byPort[port]]) == port)
  }

  /** The owner index holds exactly the sessions of each owner, and no empty entry. */
  ghost predicate OwnerIndex(bySession: map<string, Reservation>, byOwner: map<Client, set<string>>) {
    && (forall sid <- bySession :: bySession[sid].owner in byOwner && sid in byOwner[bySession[sid].owner])
    && (forall owner <- byOwner :: byOwner[owner] != {})
    && (forall owner <- byOwner, sid <- byOwner[owner] :: sid in bySession && bySession[sid].owner == owner)
  }

  ghost predicate Consistent(
    bySession: map<string, Reservation>, byPort: map<int, string>, byOwner: map<Client, set<string>>)
  {
    Sound(bySession) && PortIndex(bySession, byPort) && OwnerIndex(bySession, byOwner)
  }

  /** The three indexes describe the same set of reservations: one of them determines the other two. */
  lemma IndexesDetermined(
    bySession: map<string, Reservation>, byPort: map<int, string>, byPort': map<int, string>,
    byOwner: map<Client, set<string>>, byOwner': map<Client, set<string>>)
    requires Consistent(bySession, byPort, byOwner) && Consistent(bySession, byPort', byOwner')
    ensures byPort == byPort' && byOwner == byOwner'
  {
    forall port
      ensures port in byPort <==> port in byPort'
      ensures port in byPort ==> byPort[port] == byPort'[port]
    {
      if port in byPort {
        assert PortOf(bySession[byPort[port]]) == port;
      }
      if port in byPort' {
        assert PortOf(bySession[byPort'[port]]) == port;
      }
    }
    forall owner
      ensures owner in byOwner <==> owner in byOwner'
      ensures owner in byOwner ==> byOwner[owner] == byOwner'[owner]
    {
      if owner in byOwner {
        OwnerEntry(bySession, byOwner, owner);
        var sid :| sid in byOwner[owner];
        assert bySession[sid].owner == owner;
      }
      if owner in byOwner' {
        OwnerEntry(bySession, byOwner', owner);
        var sid :| sid in byOwner'[owner];
        assert bySession[sid].owner == owner;
      }
    }
  }

  ghost function OwnedBy(bySession: map<string, Reservation>, owner: Client): set<string> {
    set sid | sid in bySession && bySession[sid].owner == owner
  }

  lemma OwnerEntry(bySession: map<string, Reservation>, byOwner: map<Client, set<string>>, owner: Client)
    requires OwnerIndex(bySession, byOwner)
    ensures OwnedBy(bySession, owner) == if owner in byOwner then byOwner[owner] else {}
  {
  }

  /** Deleting one reservation from all three indexes. */
  lemma DeleteConsistent(
    bySession: map<string, Reservation>, byPort: map<int, string>, byOwner: map<Client, set<string>>, sid: string)
    requires Consistent(bySession, byPort, byOwner) && sid in bySession
    ensures
      var r := bySession[sid];
      var rest := byOwner[r.owner] - {sid};
      Consistent(bySession - {sid}, byPort - {PortOf(r)},
                 if rest == {} then byOwner - {r.owner} else byOwner[r.owner := rest])
  {
  }

  lemma InsertSound(bySession: map<string, Reservation>, byPort: map<int, string>, r: Reservation)
    requires Sound(bySession) && PortIndex(bySession, byPort)
    requires r.sessionID !in bySession && r.sessionID != "" && OnePort(r) && PortOf(r) !in byPort && r.expiresAt > 0
    ensures Sound(bySession[r.sessionID := r])
    ensures PortIndex(bySession[r.sessionID := r], byPort[PortOf(r) := r.sessionID])
  {
  }

  lemma InsertOwner(bySession: map<string, Reservation>, byOwner: map<Client, set<string>>, r: Reservation)
    requires OwnerIndex(bySession, byOwner) && r.sessionID !in bySession
    ensures
      var set' := (if r.owner in byOwner then byOwner[r.owner] else {}) + {r.sessionID};
      OwnerIndex(bySession[r.sessionID := r], byOwner[r.owner := set'])
  {
  }

  /** Filing one new reservation in all three indexes. */
  lemma InsertConsistent(
    bySession: map<string, Reservation>, byPort: map<int, string>, byOwner: map<Client, set<string>>, r: Reservation)
    requires Consistent(bySession, byPort, byOwner)
    requires r.sessionID !in bySession && r.sessionID != "" && OnePort(r) && PortOf(r) !in byPort && r.expiresAt > 0
    ensures
      var set' := (if r.owner in byOwner then byOwner[r.owner] else {}) + {r.sessionID};
      Consistent(bySession[r.sessionID := r], byPort[PortOf(r) := r.sessionID], byOwner[r.owner := set'])
  {
    InsertSound(bySession, byPort, r);
    InsertOwner(bySession, byOwner, r);
  }

  /** Whether a candidate port may be granted. */
  predicate Free(port: int, byPort: map<int, string>, busy: int -> bool) {
    port > 0 && port !in byPort && !busy(port)
  }

  /** `port` is the first free port of the list, or the list has none. */
  ghost predicate FirstFree(port: int, found: bool, list: seq<int>, byPort: map<int, string>, busy: int -> bool) {
    if found then
      exists i :: 0 <= i < |list| && list[i] == port && Free(port, byPort, busy)
                  && forall j :: 0 <= j < i ==> !Free(list[j], byPort, busy)
    else
      forall p <- list :: !Free(p, byPort, busy)
  }

  /** The deadline is not strictly past; zero means none. */
  ghost predicate InTime(r: Reservation, now: int) {
    r.expiresAt == 0 || now <= r.expiresAt
  }

  /** The reservations that an operation at time `now` finds. */
  ghost function Live(bySession: map<string, Reservation>, now: int): map<string, Reservation> {
    map sid | sid in bySession && InTime(bySession[sid], now) :: bySession[sid]
  }

  /** The reservations left when the sweep has still to look at those in `todo`. */
  ghost function Swept(bySession: map<string, Reservation>, todo: set<string>, now: int): map<string, Reservation> {
    map sid | sid in bySession && (sid in todo || !Expired(bySession[sid], now)) :: bySession[sid]
  }

  lemma SweptMore(bySession: map<string, Reservation>, todo: set<string>, sid: string, now: int)
    requires sid in todo && sid in bySession
    ensures
      var m := Swept(bySession, todo, now);
      && sid in m && m[sid] == bySession[sid]
      && Swept(bySession, todo - {sid}, now) == if Expired(m[sid], now) then m - {sid} else m
  {
  }

  /** The reservations left when those in `all` are being deleted and those in `todo` are still there. */
  ghost function Without(bySession: map<string, Reservation>, all: set<string>, todo: set<string>)
    : map<string, Reservation>
  {
    map sid | sid in bySession && (sid in todo || sid !in all) :: bySession[sid]
  }

  lemma WithoutMore(bySession: map<string, Reservation>, all: set<string>, todo: set<string>, sid: string)
    requires sid in todo && todo <= all && sid in bySession
    ensures
      var m := Without(bySession, all, todo);
      sid in m && m[sid] == bySession[sid] && Without(bySession, all, todo - {sid}) == m - {sid}
  {
  }

  lemma WithoutOwned(bySession: map<string, Reservation>, owner: Client)
    ensures
      var m := Without(bySession, OwnedBy(bySession, owner), {});
      m == bySession - OwnedBy(bySession, owner) && OwnedBy(m, owner) == {}
  {
  }

  /** A port that may be granted: positive, not busy, held by no live reservation. */
  ghost predicate Grantable(port: int, live: map<string, Reservation>, busy: int -> bool) {
    port > 0 && !busy(port) && forall sid <- live :: PortOf(live[sid]) != port
  }

  /** A port is free exactly when it is positive, not busy, and no reservation holds it. */
  lemma FreeIsUnheld(bySession: map<string, Reservation>, byPort: map<int, string>, busy: int -> bool)
    requires PortIndex(bySession, byPort)
    ensures forall p :: Free(p, byPort, busy) <==> Grantable(p, bySession, busy)
  {
  }

  /** What `Acquire` does to the reservations, and what it answers. */
  ghost predicate AcquireSpec(
    owner: Client?, req: Request, now: int, sid: string, busy: int -> bool, list: seq<int>,
    before: map<string, Reservation>, after: map<string, Reservation>, out: Outcome)
  {
    if owner == null || req.needZMQ == req.needSRT then
      && after == before
      && out == Refused(if owner == null then NoOwner else if req.needZMQ then BothNeeded else NothingNeeded)
    else
      var live := Live(before, now);
      match out
      case Refused(error) =>
        error == NoFreePort && after == live && forall p <- list :: !Grantable(p, live, busy)
      case Granted(r) =>
        && after == live[sid := r]
        && r.owner == owner && r.sessionID == sid && r.requestID == req.requestID
        && OnePort(r) && (r.zmqPort > 0 <==> req.needZMQ)
        && r.expiresAt == now + Lifetime(req.ttlSeconds) > now
        && exists i :: 0 <= i < |list| && list[i] == PortOf(r) && Grantable(list[i], live, busy)
                       && forall j :: 0 <= j < i ==> !Grantable(list[j], live, busy)
  }

  /* Over whole runs. */

  /** An operation with its answer; `Acquire` may have either list. */
  datatype Op =
    | Acquire(owner: Client?, req: Request, now: int, sid: string, busy: int -> bool, list: seq<int>, out: Outcome)
    | Release(owner: Client?, sid: string)
    | ReleaseAll(owner: Client?)
    | ReleasePort(port: int)

  /** What the methods of the manager do to the reservations. */
  ghost predicate Does(before: map<string, Reservation>, op: Op, after: map<string, Reservation>) {
    match op
    case Acquire(owner, req, now, sid, busy, list, out) =>
      sid !in before && AcquireSpec(owner, req, now, sid, busy, list, before, after, out)
    case Release(owner, sid) =>
      after == if owner != null && sid in before && before[sid].owner == owner then before - {sid} else before
    case ReleaseAll(owner) =>
      after == map sid | sid in before && (owner == null || before[sid].owner != owner) :: before[sid]
    case ReleasePort(port) => after == map sid | sid in before && PortOf(before[sid]) != port :: before[sid]
  }

  ghost predicate ManagerRun(run: seq<map<string, Reservation>>, ops: seq<Op>) {
    && |run| == |ops| + 1
    && (forall i {:trigger ops[i]} :: 0 <= i < |ops| ==> Does(run[i], ops[i], run[i + 1]))
  }

  /** The operation ends a reservation: its own release, its owner's, its port's, or a sweep after its deadline. */
  ghost predicate EndsReservation(op: Op, r: Reservation) {
    match op
    case Acquire(owner, req, now, _, _, _, _) => now > r.expiresAt
    case Release(owner, sid) => owner == r.owner && sid == r.sessionID
    case ReleaseAll(owner) => owner == r.owner
    case ReleasePort(port) => port == PortOf(r)
  }

  lemma DoesKeep(before: map<string, Reservation>, op: Op, after: map<string, Reservation>, r: Reservation)
    requires Does(before, op, after) && r.sessionID in before && before[r.sessionID] == r
    requires !EndsReservation(op, r)
    ensures r.sessionID in after && after[r.sessionID] == r
    ensures op.Acquire? && op.out.Granted? ==> PortOf(op.out.reservation) != PortOf(r)
  {
    if op.Acquire? {
      assert InTime(r, op.now);
      assert op.out.Granted? && !(op.owner == null || op.req.needZMQ == op.req.needSRT) ==> r.sessionID in Live(before, op.now);
    }
  }

  /** A granted reservation stands until it is released or its deadline is past. */
  lemma {:induction false} GrantHolds(
    run: seq<map<string, Reservation>>, ops: seq<Op>, i: nat, n: nat, r: Reservation)
    requires ManagerRun(run, ops) && i < n <= |ops|
    requires ops[i].Acquire? && ops[i].out == Granted(r)
    requires forall k {:trigger ops[k]} :: i < k < n ==> !EndsReservation(ops[k], r)
    ensures r.sessionID in run[n] && run[n][r.sessionID] == r
    ensures r.expiresAt == ops[i].now + Lifetime(ops[i].req.ttlSeconds)
  {
    assert Does(run[i], ops[i], run[i + 1]);
    if i + 1 < n {
      GrantHolds(run, ops, i, n - 1, r);
      DoesKeep(run[n - 1], ops[n - 1], run[n], r);
    }
  }

  /**
   Two grants of one port are separated: before the second, or in it, the first reservation was
   released, or the clock had passed its deadline.
   */
  lemma NoDoubleGrant(
    run: seq<map<string, Reservation>>, ops: seq<Op>, i: nat, j: nat, r: Reservation, later: Reservation)
    requires ManagerRun(run, ops) && i < j < |ops|
    requires ops[i].Acquire? && ops[i].out == Granted(r)
    requires ops[j].Acquire? && ops[j].out == Granted(later) && PortOf(later) == PortOf(r)
    ensures exists k {:trigger ops[k]} :: i < k <= j && EndsReservation(ops[k], r)
  {
    if forall k {:trigger ops[k]} :: i < k <= j ==> !EndsReservation(ops[k], r) {
      GrantHolds(run, ops, i, j, r);
      DoesKeep(run[j], ops[j], run[j + 1], r);
      assert false;
    }
  }

  class PortManager {
    var zmqPorts: seq<int>
    var srtPorts: seq<int>
    var bySession: map<string, Reservation>
    var byPort: map<int, string>
    var byOwner: map<Client, set<string>>

    ghost predicate Valid()
      reads this
    {
      Consistent(bySession, byPort, byOwner)
    }

    constructor ()
      ensures Valid() && bySession == map[] && zmqPorts == srtPorts == []
    {
      zmqPorts, srtPorts := [], [];
      bySession, byPort, byOwner := map[], map[], map[];
    }

    /** Forgets one reservation. */
    method DeleteReservation(r: Reservation)
      requires Valid() && r.sessionID in bySession && bySession[r.sessionID] == r
      modifies this`bySession, this`byPort, this`byOwner
      ensures Valid()
      ensures bySession == old(bySession) - {r.sessionID}
      ensures byPort == old(byPort) - {PortOf(r)}
    {
      DeleteConsistent(bySession, byPort, byOwner, r.sessionID);
      bySession := bySession - {r.sessionID};
      if r.zmqPort > 0 {
        byPort := byPort - {r.zmqPort};
      }
      if r.srtPort > 0 {
        byPort := byPort - {r.srtPort};
      }
      if r.owner in byOwner {
        var rest := byOwner[r.owner] - {r.sessionID};
        byOwner := if rest == {} then byOwner - {r.owner} else byOwner[r.owner := rest];
      }
    }

    /** Removes exactly the reservations whose deadline is strictly past, deleting while iterating. */
    method Sweep(now: int)
      requires Valid()
      modifies this`bySession, this`byPort, this`byOwner
      ensures Valid() && bySession == Live(old(bySession), now)
      ensures forall sid :: sid in bySession <==>
                sid in old(bySession) && (old(bySession)[sid].expiresAt == 0 || now <= old(bySession)[sid].expiresAt)
      ensures forall sid <- bySession :: bySession[sid] == old(bySession)[sid]
    {
      var todo := bySession.Keys;
      while todo != {}
        invariant Valid() && todo <= bySession.Keys
        invariant bySession == Swept(old(bySession), todo, now)
      {
        var sid := Pick(todo);
        SweptMore(old(bySession), todo, sid, now);
        todo := todo - {sid};
        if Expired(bySession[sid], now) {
          DeleteReservation(bySession[sid]);
        }
      }
    }

    method PickFreePort(list: seq<int>, busy: int -> bool) returns (port: int, found: bool)
      ensures FirstFree(port, found, list, byPort, busy)
      ensures found <==> port != 0
    {
      for i := 0 to |list|
        invariant forall j :: 0 <= j < i ==> !Free(list[j], byPort, busy)
      {
        if list[i] > 0 && list[i] !in byPort && !busy(list[i]) {
          return list[i], true;
        }
      }
      return 0, false;
    }

    /**
     Sweeps, then grants the first free port of the requested list. It fails on a bad request,
     which changes nothing, or when every positive port of the list is busy or held by an
     unexpired reservation.
     */
    method Acquire(owner: Client?, req: Request, now: int, sid: string, busy: int -> bool) returns (out: Outcome)
      requires Valid() && now > 0 && sid != "" && sid !in bySession
      modifies this`bySession, this`byPort, this`byOwner
      ensures Valid()
      ensures AcquireSpec(owner, req, now, sid, busy, if req.needZMQ then zmqPorts else srtPorts,
                          old(bySession), bySession, out)
    {
      out := AcquireFrom(owner, req, now, sid, busy, if req.needZMQ then zmqPorts else srtPorts);
    }

    /** The same for the ports on which one end is already waiting. */
    method AcquireFromReady(owner: Client?, req: Request, now: int, sid: string, busy: int -> bool,
                            zmqReady: seq<int>, srtReady: seq<int>)
      returns (out: Outcome)
      requires Valid() && now > 0 && sid != "" && sid !in bySession
      modifies this`bySession, this`byPort, this`byOwner
      ensures Valid()
      ensures AcquireSpec(owner, req, now, sid, busy, if req.needZMQ then zmqReady else srtReady,
                          old(bySession), bySession, out)
    {
      out := AcquireFrom(owner, req, now, sid, busy, if req.needZMQ then zmqReady else srtReady);
    }

    method AcquireFrom(owner: Client?, req: Request, now: int, sid: string, busy: int -> bool, list: seq<int>)
      returns (out: Outcome)
      requires Valid() && now > 0 && sid != "" && sid !in bySession
      modifies this`bySession, this`byPort, this`byOwner
      ensures Valid()
      ensures AcquireSpec(owner, req, now, sid, busy, list, old(bySession), bySession, out)
    {
      if owner == null {
        return Refused(NoOwner);
      }
      if !req.needZMQ && !req.needSRT {
        return Refused(NothingNeeded);
      }
      if req.needZMQ && req.needSRT {
        return Refused(BothNeeded);
      }
      Sweep(now);
      var port, found := PickFreePort(list, busy);
      FreeIsUnheld(bySession, byPort, busy);
      if !found {
        return Refused(NoFreePort);
      }
      var r := Reservation(owner, req.requestID, sid, if req.needZMQ then port else 0,
                           if req.needZMQ then 0 else port, now + Lifetime(req.ttlSeconds));
      InsertConsistent(bySession, byPort, byOwner, r);
      bySession := bySession[sid := r];
      if r.zmqPort > 0 {
        byPort := byPort[r.zmqPort := sid];
      }
      if r.srtPort > 0 {
        byPort := byPort[r.srtPort := sid];
      }
      byOwner := byOwner[owner := (if owner in byOwner then byOwner[owner] else {}) + {sid}];
      return Granted(r);
    }

    /** Releases a reservation for its owner only. */
    method Release(owner: Client?, sid: string) returns (ok: bool)
      requires Valid()
      modifies this`bySession, this`byPort, this`byOwner
      ensures Valid()
      ensures ok <==> owner != null && sid in old(bySession) && old(bySession)[sid].owner == owner
      ensures bySession == if ok then old(bySession) - {sid} else old(bySession)
    {
      if owner == null || sid == "" {
        return false;
      }
      if sid !in bySession || bySession[sid].owner != owner {
        return false;
      }
      DeleteReservation(bySession[sid]);
      return true;
    }

    /** Releases everything an owner holds; the owner's set shrinks while it is iterated over. */
    method ReleaseAllForOwner(owner: Client?) returns (n: nat)
      requires Valid()
      modifies this`bySession, this`byPort, this`byOwner
      ensures Valid()
      ensures owner == null ==> n == 0 && bySession == old(bySession)
      ensures owner != null ==>
        && n == |OwnedBy(old(bySession), owner)|
        && (forall sid :: sid in bySession <==> sid in old(bySession) && old(bySession)[sid].owner != owner)
        && bySession == old(bySession) - OwnedBy(old(bySession), owner)
        && owner !in byOwner
    {
      n := 0;
      if owner == null {
        return;
      }
      var held := if owner in byOwner then byOwner[owner] else {};
      OwnerEntry(bySession, byOwner, owner);
      WithoutOwned(bySession, owner);
      n := ReleaseEach(held);
      assert owner !in byOwner by {
        OwnerEntry(bySession, byOwner, owner);
      }
      assert byOwner - {owner} == byOwner;
      byOwner := byOwner - {owner};
    }

    method ReleaseEach(all: set<string>) returns (n: nat)
      requires Valid() && all <= bySession.Keys
      modifies this`bySession, this`byPort, this`byOwner
      ensures Valid() && n == |all| && bySession == Without(old(bySession), all, {})
    {
      var todo := all;
      n := 0;
      while todo != {}
        invariant Valid() && todo <= all && n + |todo| == |all|
        invariant bySession == Without(old(bySession), all, todo)
      {
        var sid := Pick(todo);
        WithoutMore(old(bySession), all, todo, sid);
        DeleteReservation(bySession[sid]);
        n := n + 1;
        todo := todo - {sid};
      }
    }

    /** Releases the reservation that holds a port, if there is one. */
    method ReleaseByPort(port: int)
      requires Valid()
      modifies this`bySession, this`byPort, this`byOwner
      ensures Valid() && port !in byPort
      ensures bySession == map sid | sid in old(bySession) && PortOf(old(bySession)[sid]) != port :: old(bySession)[sid]
    {
      if port <= 0 {
        return;
      }
      if port !in byPort {
        return;
      }
      DeleteReservation(bySession[byPort[port]]);
    }
  }
}
