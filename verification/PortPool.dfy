/**
 The v4 port pool: which ports are idle, reserved, occupied or blocked, and what each
 allocation is bound to. `PoolState` is the pool's two maps; `Apply` is what one locked
 operation does to them. Time is a number passed in.
 */
module PortPool {
  import opened Options
  import opened Sequences

  datatype Status = Idle | Reserved | Occupied | Blocked

  datatype Allocation = Allocation(
    port: int, sessionID: string, serverID: string, clientID: string, reservedAt: int)

  datatype PoolState = PoolState(ports: seq<int>, state: map<int, Status>, alloc: map<int, Allocation>)

  /** Every port has a status, and exactly the reserved and occupied ones have an allocation. */
  ghost predicate WellFormed(p: PoolState) {
    && Increasing(p.ports) && (forall port <- p.ports :: port > 0)
    && (forall port :: port in p.state <==> port in p.ports)
    && (forall port :: port in p.alloc <==> port in p.state && (p.state[port].Reserved? || p.state[port].Occupied?))
    && (forall port <- p.alloc :: p.alloc[port].port == port)
  }

  function StatusOf(p: PoolState, port: int): Option<Status> {
    if port in p.state then Some(p.state[port]) else None
  }

  function AllocOf(p: PoolState, port: int): Option<Allocation> {
    if port in p.alloc then Some(p.alloc[port]) else None
  }

  predicate Carries(p: PoolState, port: int, sessionID: string) {
    port in p.alloc && p.alloc[port].sessionID == sessionID
  }

  /** The first port of the list that is idle. */
  function FirstIdle(ports: seq<int>, state: map<int, Status>): (r: Option<int>)
    ensures r.Some? ==> r.value in ports && r.value in state && state[r.value].Idle?
    ensures r.None? ==> forall port <- ports :: !(port in state && state[port].Idle?)
  {
    if ports == [] then None
    else if ports[0] in state && state[ports[0]].Idle? then Some(ports[0])
    else FirstIdle(ports[1..], state)
  }

  datatype Op =
    | Reserve(sessionID: string, serverID: string, clientID: string, now: int)
    | MarkOccupied(port: int, sessionID: string)
    | Release(port: int, sessionID: string)
    | Block(port: int)
    | Touch(port: int, sessionID: string, now: int)
    | Expire(now: int, maxAge: int)

  /** Whether the expiry sweep frees this port. */
  predicate Expired(p: PoolState, port: int, now: int, maxAge: int) {
    && port in p.state && p.state[port].Reserved?
    && (port in p.alloc ==>
          p.alloc[port].sessionID == "" || now - p.alloc[port].reservedAt > maxAge)
  }

  predicate MayOccupy(p: PoolState, port: int, sessionID: string) {
    port in p.state && p.state[port].Reserved? && Carries(p, port, sessionID)
  }

  predicate MayRelease(p: PoolState, port: int, sessionID: string) {
    && port in p.state && !p.state[port].Idle?
    && (sessionID == "" || Carries(p, port, sessionID))
  }

  predicate MayTouch(p: PoolState, port: int, sessionID: string) {
    port > 0 && sessionID != "" && MayOccupy(p, port, sessionID)
  }

  function Apply(p: PoolState, op: Op): PoolState {
    match op
    case Reserve(sid, srv, cli, now) =>
      (match FirstIdle(p.ports, p.state)
       case None => p
       case Some(port) =>
         p.(state := p.state[port := Reserved], alloc := p.alloc[port := Allocation(port, sid, srv, cli, now)]))
    case MarkOccupied(port, sid) =>
      if MayOccupy(p, port, sid) then p.(state := p.state[port := Occupied]) else p
    case Release(port, sid) =>
      if MayRelease(p, port, sid) then p.(state := p.state[port := Idle], alloc := p.alloc - {port}) else p
    case Block(port) =>
      if port in p.state then p.(state := p.state[port := Blocked], alloc := p.alloc - {port}) else p
    case Touch(port, sid, now) =>
      if MayTouch(p, port, sid) then p.(alloc := p.alloc[port := p.alloc[port].(reservedAt := now)]) else p
    case Expire(now, maxAge) =>
      p.(state := map port | port in p.state :: if Expired(p, port, now, maxAge) then Idle else p.state[port],
         alloc := map port | port in p.alloc && !Expired(p, port, now, maxAge) :: p.alloc[port])
  }

  /** The port a step hands out, if it hands one out. */
  function Granted(p: PoolState, op: Op): Option<int> {
    if op.Reserve? then FirstIdle(p.ports, p.state) else None
  }

  lemma ApplyWellFormed(p: PoolState, op: Op)
    requires WellFormed(p)
    ensures WellFormed(Apply(p, op)) && Apply(p, op).ports == p.ports
  {
  }

  /** A grant is the smallest idle port; a failed grant means that none is idle. */
  lemma {:induction false} GrantIsSmallest(ports: seq<int>, state: map<int, Status>)
    requires Increasing(ports)
    ensures
      match FirstIdle(ports, state)
      case Some(port) => forall q <- ports :: q in state && state[q].Idle? ==> port <= q
      case None => forall q <- ports :: !(q in state && state[q].Idle?)
  {
    if ports != [] {
      GrantIsSmallest(ports[1..], state);
      forall q | q in ports && q in state && state[q].Idle?
        ensures FirstIdle(ports, state).Some? && FirstIdle(ports, state).value <= q
      {
        if q != ports[0] {
          assert q in ports[1..];
        }
      }
    }
  }

  /** An operation carrying a session ID leaves every port bound to another session alone. */
  lemma OtherSessionsUntouched(p: PoolState, op: Op, port: int)
    requires WellFormed(p) && port in p.alloc
    requires op.Reserve? || op.MarkOccupied? || op.Release? || op.Touch?
    requires op.sessionID != "" && op.sessionID != p.alloc[port].sessionID
    ensures StatusOf(Apply(p, op), port) == StatusOf(p, port)
    ensures AllocOf(Apply(p, op), port) == AllocOf(p, port)
  {
  }

  /** A reservation without a session, or held for longer than `maxAge`. */
  ghost predicate Overdue(p: PoolState, port: int, now: int, maxAge: int) {
    && port in p.state && p.state[port].Reserved?
    && port in p.alloc && (p.alloc[port].sessionID == "" || now - p.alloc[port].reservedAt > maxAge)
  }

  /** Expiry frees exactly the overdue reservations; occupied and blocked ports keep their state. */
  lemma ExpiryIsExact(p: PoolState, now: int, maxAge: int, port: int)
    requires WellFormed(p) && port in p.state
    ensures
      var p' := Apply(p, Expire(now, maxAge));
      && StatusOf(p', port) == (if Overdue(p, port, now, maxAge) then Some(Idle) else StatusOf(p, port))
      && AllocOf(p', port) == (if Overdue(p, port, now, maxAge) then None else AllocOf(p, port))
  {
  }

  lemma ExpiryEverywhere(p: PoolState, now: int, maxAge: int)
    requires WellFormed(p)
    ensures
      var p' := Apply(p, Expire(now, maxAge));
      && (forall port <- p.state ::
            port in p'.state && p'.state[port] == if Overdue(p, port, now, maxAge) then Idle else p.state[port])
      && (forall port <- p.alloc :: !Overdue(p, port, now, maxAge) ==> port in p'.alloc && p'.alloc[port] == p.alloc[port])
      && (forall port :: port in p.state ==> (Expired(p, port, now, maxAge) <==> Overdue(p, port, now, maxAge)))
  {
  }

  /**
   What a port was granted for stays what it is: while the port keeps an allocation and is not
   granted anew, that names the same session, server and client, and only a renewal for its own
   session moves its time.
   */
  lemma AllocationIsFixed(p: PoolState, op: Op, port: int)
    requires WellFormed(p) && port in Apply(p, op).alloc && Granted(p, op) != Some(port)
    ensures port in p.alloc
    ensures
      var a, b := p.alloc[port], Apply(p, op).alloc[port];
      && b.port == a.port && b.sessionID == a.sessionID && b.serverID == a.serverID && b.clientID == a.clientID
      && (b.reservedAt != a.reservedAt ==> op.Touch? && op.port == port && op.sessionID == a.sessionID)
  {
  }

  /** A grant records exactly what was asked for, at the time it was asked. */
  lemma GrantRecords(p: PoolState, op: Op, port: int)
    requires Granted(p, op) == Some(port)
    ensures AllocOf(Apply(p, op), port) == Some(Allocation(port, op.sessionID, op.serverID, op.clientID, op.now))
    ensures forall q :: q != port ==> AllocOf(Apply(p, op), q) == AllocOf(p, q) && StatusOf(Apply(p, op), q) == StatusOf(p, q)
  {
  }

  /** A run: the states the pool goes through while the operations are done one by one. */
  ghost predicate PoolRun(run: seq<PoolState>, ops: seq<Op>) {
    && |run| == |ops| + 1
    && (forall i {:trigger ops[i]} :: 0 <= i < |ops| ==> run[i + 1] == Apply(run[i], ops[i]))
  }

  /** Step `k` of the run returns `port` to Idle. */
  ghost predicate Frees(run: seq<PoolState>, k: int, port: int) {
    && 0 <= k < |run| - 1
    && StatusOf(run[k], port) != Some(Idle)
    && StatusOf(run[k + 1], port) == Some(Idle)
  }

  lemma {:induction false} RunWellFormed(run: seq<PoolState>, ops: seq<Op>, n: nat)
    requires PoolRun(run, ops) && n <= |ops|
    requires WellFormed(run[0])
    ensures WellFormed(run[n]) && run[n].ports == run[0].ports
  {
    if n > 0 {
      RunWellFormed(run, ops, n - 1);
      ApplyWellFormed(run[n - 1], ops[n - 1]);
    }
  }

  /** If a port is not idle after `i` steps and idle after `j`, a step in between returned it. */
  lemma {:induction false} SomeStepFrees(run: seq<PoolState>, i: nat, j: nat, port: int) returns (k: nat)
    requires i <= j < |run|
    requires StatusOf(run[i], port) != Some(Idle) && StatusOf(run[j], port) == Some(Idle)
    ensures i <= k < j && Frees(run, k, port)
  {
    if StatusOf(run[j - 1], port) == Some(Idle) {
      k := SomeStepFrees(run, i, j - 1, port);
    } else {
      k := j - 1;
    }
  }

  lemma GrantReserves(p: PoolState, op: Op, port: int)
    requires Granted(p, op) == Some(port)
    ensures StatusOf(p, port) == Some(Idle) && StatusOf(Apply(p, op), port) == Some(Reserved)
  {
  }

  /** Two grants of one port are separated by a step that returned it to Idle. */
  lemma {:induction false} GrantsSeparated(run: seq<PoolState>, ops: seq<Op>, i: nat, j: nat, port: int)
    requires PoolRun(run, ops) && i < j < |ops|
    requires Granted(run[i], ops[i]) == Some(port)
    requires Granted(run[j], ops[j]) == Some(port)
    ensures exists k :: i < k < j && Frees(run, k, port)
  {
    GrantReserves(run[i], ops[i], port);
    GrantReserves(run[j], ops[j], port);
    var k := SomeStepFrees(run, i + 1, j, port);
  }
}
