/** The server object: three maps changed under its lock. Each method is proved against a lock section of `Pairing`. */
module TcpServers {
  import opened Options
  import opened Iteration
  import opened PortPool
  import Pairing
  import Pools

  /** The pool with the reservations of these ports renewed: their time is `now`, nothing else changes. */
  ghost function TouchAll(p: PoolState, ports: set<int>, now: int): PoolState {
    p.(alloc := map port | port in p.alloc ::
         if port in ports && MayTouch(p, port, p.alloc[port].sessionID) then p.alloc[port].(reservedAt := now)
         else p.alloc[port])
  }

  lemma TouchNone(p: PoolState, now: int)
    ensures forall ports: set<int> :: TouchAll(p, ports - ports, now) == p
  {
    forall ports: set<int>
      ensures TouchAll(p, ports - ports, now) == p
    {
      assert TouchAll(p, ports - ports, now).alloc == p.alloc;
    }
  }

  lemma TouchOneMore(p: PoolState, done: set<int>, port: int, now: int)
    ensures
      var q := TouchAll(p, done, now);
      TouchAll(p, done + {port}, now) ==
      if port in q.alloc then Apply(q, Op.Touch(port, q.alloc[port].sessionID, now)) else q
  {
    var q := TouchAll(p, done, now);
    var r := if port in q.alloc then Apply(q, Op.Touch(port, q.alloc[port].sessionID, now)) else q;
    assert TouchAll(p, done + {port}, now).alloc == r.alloc;
  }

  lemma TouchTwice(p: PoolState, a: set<int>, b: set<int>, now: int)
    ensures TouchAll(TouchAll(p, a, now), b, now) == TouchAll(p, a + b, now)
    ensures TouchAll(p, a, now).alloc.Keys == p.alloc.Keys
  {
    assert TouchAll(TouchAll(p, a, now), b, now).alloc == TouchAll(p, a + b, now).alloc;
  }

  /** The pending ends left when those in `todo` have still to be looked at. */
  ghost function Kept(pending: map<int, Pairing.Conn>, todo: set<int>, bound: set<int>): map<int, Pairing.Conn> {
    map port | port in pending && (port in todo || port in bound) :: pending[port]
  }

  lemma KeptLess(pending: map<int, Pairing.Conn>, todo: set<int>, bound: set<int>, port: int)
    requires port in todo
    ensures
      var kept := Kept(pending, todo, bound);
      Kept(pending, todo - {port}, bound) == if port in bound then kept else kept - {port}
  {
  }

  class TcpServer {
    const pool: Pools.Pool
    var pendingS: map<int, Pairing.Conn>
    var pendingC: map<int, Pairing.Conn>
    var sessions: map<int, Pairing.Session>
    var nextID: nat

    ghost function View(): Pairing.Desk
      reads this
    {
      Pairing.Desk(pendingS, pendingC, sessions)
    }

    /** What every lock section keeps; see `Pairing.Exclusive`. */
    ghost predicate Valid()
      reads this, pool
    {
      pool.Valid() && Pairing.Exclusive(View())
    }

    constructor (pool: Pools.Pool)
      requires pool.Valid()
      ensures Valid() && this.pool == pool && View() == Pairing.EMPTY_DESK
    {
      this.pool := pool;
      pendingS, pendingC, sessions := map[], map[], map[];
      nextID := 0;
    }

    /** `handleConn` after the hello; `spawn` says that a `tryPair` goroutine was started for the port. */
    method HandleConn(c: Pairing.Conn) returns (spawn: bool)
      requires Valid()
      modifies this
      ensures Valid() && nextID == old(nextID)
      ensures spawn <==> Pairing.Admits(pool.View(), c) && Pairing.Accepts(old(View()), c)
      ensures View() == if spawn then Pairing.Park(old(View()), c) else old(View())
      ensures spawn <==>
        && c.port in pool.alloc && pool.alloc[c.port].sessionID == c.hello && c.port !in old(sessions)
        && ((c.role == Pairing.Server && c.port !in old(pendingS)) || (c.role == Pairing.Client && c.port !in old(pendingC)))
      ensures pendingS == if spawn && c.role == Pairing.Server then old(pendingS)[c.port := c] else old(pendingS)
      ensures pendingC == if spawn && c.role == Pairing.Client then old(pendingC)[c.port := c] else old(pendingC)
      ensures sessions == old(sessions)
    {
      Pairing.ParkExclusive(View(), c);
      if c.port !in pool.alloc || pool.alloc[c.port].sessionID != c.hello {
        return false;
      }
      if c.port in sessions {
        return false;
      }
      if c.role == Pairing.Server {
        if c.port in pendingS {
          return false;
        }
        pendingS := pendingS[c.port := c];
        return true;
      }
      if c.role == Pairing.Client {
        if c.port in pendingC {
          return false;
        }
        pendingC := pendingC[c.port := c];
        return true;
      }
      return false;
    }

    /** Joins the two pending ends of a port into a session and marks the port occupied. */
    method TryPair(port: int) returns (s: Option<Pairing.Session>)
      requires Valid()
      modifies this, pool
      ensures Valid()
      ensures View() == Pairing.TryPair(old(View()), port, AllocOf(old(pool.View()), port), old(nextID))
      ensures s == Pairing.Paired(old(View()), port, AllocOf(old(pool.View()), port), old(nextID))
      ensures nextID == old(nextID) + (if s.Some? then 1 else 0)
      ensures pool.View() ==
        if s.Some? then Apply(old(pool.View()), Op.MarkOccupied(port, s.value.sessionID)) else old(pool.View())
      ensures
        var both := port !in old(sessions) && port in old(pendingS) && port in old(pendingC);
        && (s.Some? <==> both && port in old(pool.alloc))
        && (s.Some? ==>
              && s.value.port == port && s.value.sessionID == old(pool.alloc)[port].sessionID && s.value.id == old(nextID)
              && s.value.fe == old(pendingC)[port] && s.value.be == old(pendingS)[port])
        && pendingS == (if both then old(pendingS) - {port} else old(pendingS))
        && pendingC == (if both then old(pendingC) - {port} else old(pendingC))
        && sessions == (if s.Some? then old(sessions)[port := s.value] else old(sessions))
      ensures s.Some? ==> port in pool.state && pool.state[port].Occupied? && pool.alloc == old(pool.alloc)
    {
      Pairing.TryPairExclusive(View(), port, AllocOf(pool.View(), port), nextID);
      if port in sessions || port !in pendingS || port !in pendingC {
        return None;
      }
      var sc, cc := pendingS[port], pendingC[port];
      pendingS, pendingC := pendingS - {port}, pendingC - {port};
      if port !in pool.alloc {
        return None;
      }
      var sess := Pairing.Session(nextID, port, pool.alloc[port].sessionID, cc, sc);
      sessions := sessions[port := sess];
      nextID := nextID + 1;
      var _ := pool.MarkOccupied(port, sess.sessionID);
      return Some(sess);
    }

    /** The stop callback of a session. */
    method SessionStopped(s: Pairing.Session)
      requires Valid()
      modifies this, pool
      ensures Valid()
      ensures View() == Pairing.Forget(old(View()), s.port) && nextID == old(nextID)
      ensures pool.View() == Apply(old(pool.View()), Op.Release(s.port, s.sessionID))
      ensures sessions == old(sessions) - {s.port} && pendingS == old(pendingS) && pendingC == old(pendingC)
    {
      sessions := sessions - {s.port};
      var _ := pool.Release(s.port, s.sessionID);
    }

    /** Drops pending ends whose port has lost its allocation and keeps the reservations of the others alive. */
    method MaintainPending(now: int)
      requires Valid()
      modifies this, pool
      ensures Valid()
      ensures View() == Pairing.Maintained(old(View()), old(pool.View())) && nextID == old(nextID)
      ensures pool.View() == TouchAll(old(pool.View()), old(pendingS).Keys + old(pendingC).Keys, now)
      ensures forall port ::
                port in pendingS <==> port in old(pendingS) && port in old(pool.alloc)
      ensures forall port <- pendingS :: pendingS[port] == old(pendingS)[port]
      ensures forall port ::
                port in pendingC <==> port in old(pendingC) && port in old(pool.alloc)
      ensures forall port <- pendingC :: pendingC[port] == old(pendingC)[port]
      ensures sessions == old(sessions) && pool.state == old(pool.state) && pool.alloc.Keys == old(pool.alloc).Keys
      ensures forall port <- pool.alloc ::
                var a := old(pool.alloc)[port];
                pool.alloc[port] ==
                if (port in old(pendingS) || port in old(pendingC)) && old(pool.state)[port].Reserved? && a.sessionID != ""
                then a.(reservedAt := now) else a
    {
      Pairing.MaintainedExclusive(View(), pool.View());
      TouchTwice(pool.View(), pendingS.Keys, pendingC.Keys, now);
      pendingS := MaintainSide(pendingS, now);
      pendingC := MaintainSide(pendingC, now);
      assert View() == Pairing.Maintained(old(View()), old(pool.View()));
    }

    /** One of the two loops: the map is thinned out while it is iterated over, in no particular order. */
    method MaintainSide(pending: map<int, Pairing.Conn>, now: int) returns (kept: map<int, Pairing.Conn>)
      requires pool.Valid()
      modifies pool
      ensures pool.Valid() && pool.View() == TouchAll(old(pool.View()), pending.Keys, now)
      ensures kept == map port | port in pending && port in old(pool.alloc) :: pending[port]
    {
      kept := pending;
      var todo := pending.Keys;
      TouchNone(pool.View(), now);
      while todo != {}
        invariant todo <= pending.Keys
        invariant pool.Valid() && pool.View() == TouchAll(old(pool.View()), pending.Keys - todo, now)
        invariant kept == Kept(pending, todo, old(pool.alloc).Keys)
      {
        var port := Pick(todo);
        KeptLess(pending, todo, old(pool.alloc).Keys, port);
        TouchOneMore(old(pool.View()), pending.Keys - todo, port, now);
        assert pending.Keys - (todo - {port}) == pending.Keys - todo + {port};
        todo := todo - {port};
        if port !in pool.alloc {
          kept := kept - {port};
        } else {
          pool.TouchReservation(port, pool.alloc[port].sessionID, now);
        }
      }
      assert pending.Keys - {} == pending.Keys;
    }

    /** Forgets everything; the pending connections are closed and the sessions stopped, each once. */
    method StopAll() returns (closed: set<Pairing.Conn>, stopped: set<Pairing.Session>)
      requires Valid()
      modifies this
      ensures Valid() && View() == Pairing.EMPTY_DESK && nextID == old(nextID)
      ensures closed == old(pendingS).Values + old(pendingC).Values
      ensures stopped == old(sessions).Values
    {
      closed, stopped := pendingS.Values + pendingC.Values, sessions.Values;
      pendingS, pendingC, sessions := map[], map[], map[];
    }
  }
}
