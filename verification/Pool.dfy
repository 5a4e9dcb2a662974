/** The pool object: two maps updated in place. Each method is proved to do what `PortPool.Apply` says. */
module Pools {
  import opened Options
  import opened Sequences
  import opened Iteration
  import opened PortPool

  datatype Error = Unavailable | Conflict | BadRequest

  /** Counts and lists of the ports by status. */
  datatype Snapshot = Snapshot(
    total: nat, idle: seq<int>, reserved: seq<int>, occupied: seq<int>, blocked: seq<int>)

  /** The check of `NewPool`. */
  predicate ValidRange(start: int, end: int) {
    0 < start <= end <= 65535
  }

  /** `list` is exactly the ports with this status, in increasing order. */
  ghost predicate Lists(list: seq<int>, ports: seq<int>, state: map<int, Status>, status: Status) {
    && Increasing(list)
    && (forall port :: port in list <==> port in ports && port in state && state[port] == status)
  }

  lemma ListsMore(list: seq<int>, ports: seq<int>, state: map<int, Status>, status: Status, port: int)
    requires Lists(list, ports, state, status) && Increasing(ports + [port]) && port in state
    ensures Lists(if state[port] == status then list + [port] else list, ports + [port], state, status)
  {
    forall q | q in list
      ensures q < port
    {
      var k :| 0 <= k < |ports| && ports[k] == q;
      assert (ports + [port])[k] == q && (ports + [port])[|ports|] == port;
    }
    var list' := list + [port];
    IncreasingMore(list, port);
    forall q
      ensures q in list' <==> q in list || q == port
      ensures q in ports + [port] <==> q in ports || q == port
    {
    }
  }

  /** The pool when the expiry sweep has handled the ports in `done`. */
  ghost function Swept(p: PoolState, done: set<int>, now: int, maxAge: int): PoolState {
    p.(state := map port | port in p.state ::
         if port in done && Expired(p, port, now, maxAge) then Idle else p.state[port],
       alloc := map port | port in p.alloc && !(port in done && Expired(p, port, now, maxAge)) :: p.alloc[port])
  }

  lemma SweptNone(p: PoolState, now: int, maxAge: int)
    ensures Swept(p, p.state.Keys - p.state.Keys, now, maxAge) == p
  {
    assert Swept(p, p.state.Keys - p.state.Keys, now, maxAge).state == p.state;
    assert Swept(p, p.state.Keys - p.state.Keys, now, maxAge).alloc == p.alloc;
  }

  lemma SweptAll(p: PoolState, now: int, maxAge: int)
    ensures Swept(p, p.state.Keys - {}, now, maxAge) == Apply(p, Op.Expire(now, maxAge))
  {
    var a, b := Swept(p, p.state.Keys - {}, now, maxAge), Apply(p, Op.Expire(now, maxAge));
    assert a.state == b.state;
    assert a.alloc == b.alloc;
  }

  lemma SweptMore(p: PoolState, done: set<int>, port: int, now: int, maxAge: int)
    requires port in p.state && port !in done
    ensures
      var a, b := Swept(p, done, now, maxAge), Swept(p, done + {port}, now, maxAge);
      && b.state == (if Expired(p, port, now, maxAge) then a.state[port := Idle] else a.state)
      && b.alloc == (if Expired(p, port, now, maxAge) then a.alloc - {port} else a.alloc)
      && a.state[port] == p.state[port] && AllocOf(a, port) == AllocOf(p, port)
  {
  }

  /** The allocation the sweep reports for a port: the one it frees, unless that has no session. */
  ghost function Reported(p: PoolState, port: int, now: int, maxAge: int): Option<Allocation> {
    if Expired(p, port, now, maxAge) && port in p.alloc && p.alloc[port].sessionID != "" then AllocOf(p, port)
    else None
  }

  /** `list` holds what the sweep reports for the ports in `done`, each once. */
  ghost predicate Reports(list: seq<Allocation>, p: PoolState, done: set<int>, now: int, maxAge: int) {
    && (forall a :: a in list <==> a.port in done && Reported(p, a.port, now, maxAge) == Some(a))
    && (forall i, j :: 0 <= i < j < |list| ==> list[i] != list[j])
  }

  lemma ReportsMore(list: seq<Allocation>, p: PoolState, done: set<int>, port: int, now: int, maxAge: int)
    requires port in p.alloc ==> p.alloc[port].port == port
    requires Reports(list, p, done, now, maxAge) && port !in done
    ensures
      var a := Reported(p, port, now, maxAge);
      Reports(if a.Some? then list + [a.value] else list, p, done + {port}, now, maxAge)
  {
    var a := Reported(p, port, now, maxAge);
    if a.Some? {
      assert a.value !in list;
      forall b
        ensures b in list + [a.value] <==> b in list || b == a.value
      {
      }
    }
  }

  class Pool {
    const ports: seq<int>
    var state: map<int, Status>
    var alloc: map<int, Allocation>

    ghost function View(): PoolState
      reads this
    {
      PoolState(ports, state, alloc)
    }

    ghost predicate Valid()
      reads this
    {
      WellFormed(View())
    }

    constructor (start: int, end: int)
      requires ValidRange(start, end)
      ensures Valid() && alloc == map[]
      ensures forall port :: port in state <==> start <= port <= end
      ensures forall port <- state :: state[port].Idle?
    {
      var list: seq<int>, idle: map<int, Status> := [], map[];
      for i := start to end + 1
        invariant |list| == i - start && forall k :: 0 <= k < |list| ==> list[k] == start + k
        invariant forall port :: port in idle <==> port in list
        invariant forall port :: port in idle <==> start <= port < i
        invariant forall port <- idle :: idle[port].Idle?
      {
        assert i in list + [i];
        list := list + [i];
        idle := idle[i := Idle];
      }
      ports := list;
      state := idle;
      alloc := map[];
    }

    /** Hands out the first idle port. */
    method Reserve(sessionID: string, serverID: string, clientID: string, now: int) returns (r: Option<Allocation>)
      requires Valid()
      modifies this
      ensures Valid()
      ensures View() == Apply(old(View()), Op.Reserve(sessionID, serverID, clientID, now))
      ensures r == match Granted(old(View()), Op.Reserve(sessionID, serverID, clientID, now))
                   case None => None
                   case Some(port) => Some(Allocation(port, sessionID, serverID, clientID, now))
      ensures r.Some? ==>
                && r.value == Allocation(r.value.port, sessionID, serverID, clientID, now)
                && r.value.port in ports && old(state)[r.value.port].Idle?
                && (forall q <- ports :: old(state)[q].Idle? ==> r.value.port <= q)
                && state == old(state)[r.value.port := Status.Reserved]
                && alloc == old(alloc)[r.value.port := r.value]
      ensures r.None? ==> state == old(state) && alloc == old(alloc) && forall q <- ports :: !old(state)[q].Idle?
    {
      GrantIsSmallest(ports, state);
      var i := 0;
      while i < |ports|
        invariant 0 <= i <= |ports|
        invariant unchanged(this)
        invariant FirstIdle(ports[i..], state) == FirstIdle(ports, state)
      {
        var port := ports[i];
        if state[port] == Idle {
          var a := Allocation(port, sessionID, serverID, clientID, now);
          state := state[port := Status.Reserved];
          alloc := alloc[port := a];
          ApplyWellFormed(old(View()), Op.Reserve(sessionID, serverID, clientID, now));
          return Some(a);
        }
        i := i + 1;
      }
      return None;
    }

    method MarkOccupied(port: int, sessionID: string) returns (r: Option<Error>)
      requires Valid()
      modifies this
      ensures Valid()
      ensures View() == Apply(old(View()), Op.MarkOccupied(port, sessionID))
      ensures r == if MayOccupy(old(View()), port, sessionID) then None else Some(Conflict)
      ensures r.None? <==>
                port in old(state) && old(state)[port].Reserved? && old(alloc)[port].sessionID == sessionID
      ensures state == (if r.None? then old(state)[port := Status.Occupied] else old(state)) && alloc == old(alloc)
    {
      if port !in state || state[port] != Status.Reserved {
        return Some(Conflict);
      }
      if alloc[port].sessionID != sessionID {
        return Some(Conflict);
      }
      state := state[port := Status.Occupied];
      return None;
    }

    method Release(port: int, sessionID: string) returns (r: Option<Error>)
      requires Valid()
      modifies this
      ensures Valid()
      ensures View() == Apply(old(View()), Op.Release(port, sessionID))
      ensures r == if port !in old(state) then Some(BadRequest)
                   else if old(state)[port].Idle? || MayRelease(old(View()), port, sessionID) then None
                   else Some(Conflict)
      ensures r == Some(Conflict) <==>
                && port in old(state) && !old(state)[port].Idle? && sessionID != ""
                && (port in old(alloc) ==> old(alloc)[port].sessionID != sessionID)
      ensures if r.None? then state == old(state)[port := Idle] && alloc == old(alloc) - {port}
              else state == old(state) && alloc == old(alloc)
    {
      if port !in state {
        return Some(BadRequest);
      }
      if state[port] == Idle {
        return None;
      }
      if sessionID != "" && (if port in alloc then alloc[port].sessionID else "") != sessionID {
        return Some(Conflict);
      }
      alloc := alloc - {port};
      state := state[port := Idle];
      return None;
    }

    method Block(port: int) returns (r: Option<Error>)
      requires Valid()
      modifies this
      ensures Valid()
      ensures View() == Apply(old(View()), Op.Block(port))
      ensures r == if port in old(state) then None else Some(BadRequest)
      ensures if r.None? then state == old(state)[port := Status.Blocked] && alloc == old(alloc) - {port}
              else state == old(state) && alloc == old(alloc)
    {
      if port !in state {
        return Some(BadRequest);
      }
      alloc := alloc - {port};
      state := state[port := Status.Blocked];
      return None;
    }

    method TouchReservation(port: int, sessionID: string, now: int)
      requires Valid()
      modifies this
      ensures Valid()
      ensures View() == Apply(old(View()), Op.Touch(port, sessionID, now))
      ensures state == old(state)
      ensures alloc ==
              if sessionID != "" && port in old(state) && old(state)[port].Reserved? && old(alloc)[port].sessionID == sessionID
              then old(alloc)[port := old(alloc)[port].(reservedAt := now)] else old(alloc)
    {
      if port <= 0 || sessionID == "" {
        return;
      }
      if port !in state || state[port] != Status.Reserved {
        return;
      }
      if port !in alloc || alloc[port].sessionID != sessionID {
        return;
      }
      alloc := alloc[port := alloc[port].(reservedAt := now)];
    }

    /** Sweeps the map while changing it; the overdue allocations are returned, in no particular order. */
    method ReleaseExpiredReservations(now: int, maxAge: int) returns (released: seq<Allocation>)
      requires Valid()
      modifies this
      ensures Valid()
      ensures View() == Apply(old(View()), Op.Expire(now, maxAge))
      ensures Reports(released, old(View()), old(state).Keys, now, maxAge)
      ensures forall port <- old(state) ::
                port in state && state[port] == if Overdue(old(View()), port, now, maxAge) then Idle else old(state)[port]
      ensures forall port <- old(alloc) :: !Overdue(old(View()), port, now, maxAge) ==>
                port in alloc && alloc[port] == old(alloc)[port]
      ensures forall a :: a in released <==>
                && a.port in old(alloc) && old(alloc)[a.port] == a && a.sessionID != ""
                && old(state)[a.port].Reserved? && now - a.reservedAt > maxAge
    {
      released := [];
      var todo := state.Keys;
      ghost var was := View();
      SweptNone(was, now, maxAge);
      while todo != {}
        invariant todo <= was.state.Keys
        invariant View() == Swept(was, was.state.Keys - todo, now, maxAge)
        invariant Reports(released, was, was.state.Keys - todo, now, maxAge)
      {
        var port := Pick(todo);
        var a := SweepOne(port, now, maxAge, was, was.state.Keys - todo);
        ReportsMore(released, was, was.state.Keys - todo, port, now, maxAge);
        assert was.state.Keys - (todo - {port}) == was.state.Keys - todo + {port};
        todo := todo - {port};
        if a.Some? {
          released := released + [a.value];
        }
      }
      SweptAll(was, now, maxAge);
      ApplyWellFormed(was, Op.Expire(now, maxAge));
      ExpiryEverywhere(was, now, maxAge);
    }

    /** The body of the sweep for one port, which the sweep has not reached before. */
    method SweepOne(port: int, now: int, maxAge: int, ghost was: PoolState, ghost done: set<int>)
      returns (a: Option<Allocation>)
      requires WellFormed(was) && port in was.state && port !in done && View() == Swept(was, done, now, maxAge)
      modifies this
      ensures View() == Swept(was, done + {port}, now, maxAge)
      ensures a == Reported(was, port, now, maxAge)
    {
      a := None;
      SweptMore(was, done, port, now, maxAge);
      if state[port] == Status.Reserved {
        if alloc[port].sessionID == "" {
          state := state[port := Idle];
          alloc := alloc - {port};
        } else if now - alloc[port].reservedAt > maxAge {
          a := Some(alloc[port]);
          state := state[port := Idle];
          alloc := alloc - {port};
        }
      }
    }

    /** The lists come out in increasing order, so the sorting that follows them in the source changes nothing. */
    method TakeSnapshot() returns (s: Snapshot)
      requires Valid()
      ensures s.total == |ports| == |s.idle| + |s.reserved| + |s.occupied| + |s.blocked|
      ensures Lists(s.idle, ports, state, Idle) && Lists(s.reserved, ports, state, Status.Reserved)
      ensures Lists(s.occupied, ports, state, Status.Occupied) && Lists(s.blocked, ports, state, Status.Blocked)
      ensures forall port :: port in s.idle <==> port in state && state[port].Idle?
      ensures forall port :: port in s.reserved <==> port in state && state[port].Reserved?
      ensures forall port :: port in s.occupied <==> port in state && state[port].Occupied?
      ensures forall port :: port in s.blocked <==> port in state && state[port].Blocked?
    {
      s := Snapshot(|ports|, [], [], [], []);
      for i := 0 to |ports|
        invariant s.total == |ports| && i == |s.idle| + |s.reserved| + |s.occupied| + |s.blocked|
        invariant Lists(s.idle, ports[..i], state, Idle) && Lists(s.reserved, ports[..i], state, Status.Reserved)
        invariant Lists(s.occupied, ports[..i], state, Status.Occupied)
        invariant Lists(s.blocked, ports[..i], state, Status.Blocked)
      {
        var port := ports[i];
        assert ports[..i + 1] == ports[..i] + [port];
        ListsMore(s.idle, ports[..i], state, Idle, port);
        ListsMore(s.reserved, ports[..i], state, Status.Reserved, port);
        ListsMore(s.occupied, ports[..i], state, Status.Occupied, port);
        ListsMore(s.blocked, ports[..i], state, Status.Blocked, port);
        match state[port]
        case Idle => s := s.(idle := s.idle + [port]);
        case Reserved => s := s.(reserved := s.reserved + [port]);
        case Occupied => s := s.(occupied := s.occupied + [port]);
        case Blocked => s := s.(blocked := s.blocked + [port]);
      }
      assert ports[..|ports|] == ports;
    }
  }

  /** A pool with every port of the range idle, unless the range is invalid. */
  method NewPool(start: int, end: int) returns (r: Option<Pool>)
    ensures r.Some? <==> 0 < start <= end <= 65535
    ensures r.Some? ==>
      && fresh(r.value) && r.value.Valid() && r.value.alloc == map[]
      && (forall port :: port in r.value.state <==> start <= port <= end)
      && (forall port <- r.value.state :: r.value.state[port].Idle?)
  {
    if start <= 0 || end <= 0 || end < start || end > 65535 {
      return None;
    }
    var p := new Pool(start, end);
    r := Some(p);
  }
}
