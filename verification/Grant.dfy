/**
 `tryPairOnce` of the v4 hub: choose a server with free capacity, reserve a port in each
 pool that is asked for, and undo the first reservation when the second fails.
 */
module Grant {
  import opened Options
  import opened Sequences
  import opened Iteration
  import opened PortPool
  import opened Pools

  datatype ServerInfo = ServerInfo(id: string, token: string, maxConn: int)

  datatype Candidate = Candidate(server: ServerInfo, remaining: int)

  /** String order, character by character. */
  predicate Less(a: string, b: string) {
    b != [] && (a == [] || a[0] < b[0] || (a[0] == b[0] && Less(a[1..], b[1..])))
  }

  lemma {:induction false} LessTotal(a: string, b: string)
    ensures Less(a, b) || Less(b, a) || a == b
  {
    if a != [] && b != [] {
      LessTotal(a[1..], b[1..]);
      if a[0] == b[0] && a[1..] == b[1..] {
        assert a == [a[0]] + a[1..] && b == [b[0]] + b[1..];
      }
    }
  }

  lemma {:induction false} LessAsymmetric(a: string, b: string)
    ensures !(Less(a, b) && Less(b, a))
  {
    if a != [] && b != [] {
      LessAsymmetric(a[1..], b[1..]);
    }
  }

  lemma {:induction false} LessTransitive(a: string, b: string, c: string)
    requires Less(a, b) && Less(b, c)
    ensures Less(a, c)
  {
    if a != [] && a[0] == b[0] == c[0] {
      LessTransitive(a[1..], b[1..], c[1..]);
    }
  }

  /** The usual order of strings: `a` is a proper prefix of `b`, or smaller where they first differ. */
  ghost predicate Precedes(a: string, b: string) {
    || (|a| < |b| && a == b[..|a|])
    || (exists k :: DiffersAt(a, b, k))
  }

  ghost predicate DiffersAt(a: string, b: string, k: nat) {
    k < |a| && k < |b| && a[..k] == b[..k] && a[k] < b[k]
  }

  lemma DiffersAfter(c: char, x: string, d: char, y: string, k: nat)
    ensures DiffersAt([c] + x, [d] + y, k) <==> if k == 0 then c < d else c == d && DiffersAt(x, y, k - 1)
  {
    var a, b := [c] + x, [d] + y;
    if k > 0 && k < |a| && k < |b| {
      assert a[..k] == [c] + x[..k - 1] && b[..k] == [d] + y[..k - 1];
      assert a[..k][0] == c && b[..k][0] == d;
      assert a[..k][1..] == x[..k - 1] && b[..k][1..] == y[..k - 1];
    }
  }

  lemma PrefixAfter(c: char, x: string, d: char, y: string)
    ensures
      (|[c] + x| < |[d] + y| && [c] + x == ([d] + y)[..|[c] + x|]) <==> c == d && |x| < |y| && x == y[..|x|]
  {
    var a, b := [c] + x, [d] + y;
    if |x| < |y| {
      assert b[..|a|] == [d] + y[..|x|];
      assert a[0] == c && a[1..] == x && b[..|a|][0] == d && b[..|a|][1..] == y[..|x|];
    }
  }

  lemma PrecedesAfter(c: char, x: string, d: char, y: string)
    ensures Precedes([c] + x, [d] + y) <==> c < d || (c == d && Precedes(x, y))
  {
    PrefixAfter(c, x, d, y);
    if k: nat :| DiffersAt([c] + x, [d] + y, k) {
      DiffersAfter(c, x, d, y, k);
    }
    if c < d {
      DiffersAfter(c, x, d, y, 0);
    }
    if k: nat :| c == d && DiffersAt(x, y, k) {
      DiffersAfter(c, x, d, y, k + 1);
    }
  }

  lemma {:induction false} LessIsPrecedes(a: string, b: string)
    ensures Less(a, b) <==> Precedes(a, b)
  {
    if a != [] && b != [] {
      LessIsPrecedes(a[1..], b[1..]);
      PrecedesAfter(a[0], a[1..], b[0], b[1..]);
      assert a == [a[0]] + a[1..] && b == [b[0]] + b[1..];
    } else {
      assert |a| == 0 ==> a == b[..0];
    }
  }

  /** The order of the candidate list: more remaining capacity first, then the smaller ID. */
  predicate Before(x: Candidate, y: Candidate) {
    if x.remaining != y.remaining then x.remaining > y.remaining else Less(x.server.id, y.server.id)
  }

  lemma BeforeTransitive(x: Candidate, y: Candidate, z: Candidate)
    requires Before(x, y) && Before(y, z)
    ensures Before(x, z)
  {
    if x.remaining == y.remaining == z.remaining {
      LessTransitive(x.server.id, y.server.id, z.server.id);
    }
  }

  /** A server ID appears once: candidates come from a map keyed by ID. */
  ghost predicate DistinctIDs(cands: seq<Candidate>) {
    forall i, j :: 0 <= i < j < |cands| ==> cands[i].server.id != cands[j].server.id
  }

  /** Where sorting the candidates puts first: nothing comes before it. */
  ghost predicate Head(x: Candidate, cands: seq<Candidate>) {
    x in cands && forall y <- cands :: y == x || Before(x, y)
  }

  /** Every other candidate has less capacity, or as much and an ID that comes later. */
  ghost predicate Best(x: Candidate, cands: seq<Candidate>) {
    && x in cands
    && forall y <- cands :: y == x || y.remaining < x.remaining
                            || (y.remaining == x.remaining && Precedes(x.server.id, y.server.id))
  }

  lemma HeadIsBest(x: Candidate, cands: seq<Candidate>)
    ensures Head(x, cands) <==> Best(x, cands)
  {
    forall y | y in cands
      ensures Before(x, y) <==>
              y.remaining < x.remaining || (y.remaining == x.remaining && Precedes(x.server.id, y.server.id))
    {
      LessIsPrecedes(x.server.id, y.server.id);
    }
  }

  /** The first candidate in sorted order. */
  method First(cands: seq<Candidate>) returns (best: Candidate)
    requires cands != [] && DistinctIDs(cands)
    ensures Head(best, cands) && Best(best, cands)
  {
    best := cands[0];
    for i := 1 to |cands|
      invariant best in cands[..i]
      invariant forall y <- cands[..i] :: y == best || Before(best, y)
    {
      ghost var was := best;
      var c := cands[i];
      LessTotal(c.server.id, best.server.id);
      if Before(c, best) {
        best := c;
        forall y <- cands[..i]
          ensures Before(c, y)
        {
          if y != was {
            BeforeTransitive(c, was, y);
          }
        }
      }
      assert cands[..i + 1] == cands[..i] + [c];
    }
    assert cands[..|cands|] == cands;
    HeadIsBest(best, cands);
  }

  /**
   The choice does not depend on the order in which the server map was iterated over, and it
   has the most capacity left, with the smallest ID among those.
   */
  lemma ChoiceIsUnique(x: Candidate, y: Candidate, cands: seq<Candidate>, other: seq<Candidate>)
    requires Best(x, cands) && Best(y, other)
    requires forall c :: c in cands <==> c in other
    ensures x == y
    ensures forall c <- cands :: c.remaining <= x.remaining
    ensures forall c <- cands :: c.remaining == x.remaining && c != x ==> Precedes(x.server.id, c.server.id)
  {
    if x != y {
      LessIsPrecedes(x.server.id, y.server.id);
      LessIsPrecedes(y.server.id, x.server.id);
      LessAsymmetric(x.server.id, y.server.id);
    }
  }

  /** The occupied ports of a server, as `poolOccupiedPorts` counts them. */
  ghost function OccupiedBy(p: PoolState, serverID: string): set<int> {
    set port | port in p.ports && port in p.state && p.state[port].Occupied?
               && port in p.alloc && p.alloc[port].serverID == serverID
  }

  method PoolOccupiedPorts(pool: Pool, serverID: string) returns (out: seq<int>)
    requires pool.Valid()
    ensures forall port :: port in out <==> port in OccupiedBy(pool.View(), serverID)
    ensures Increasing(out) && |out| == |OccupiedBy(pool.View(), serverID)|
    ensures forall port :: port in out <==>
              port in pool.state && pool.state[port].Occupied? && pool.alloc[port].serverID == serverID
  {
    var snap := pool.TakeSnapshot();
    out := [];
    for i := 0 to |snap.occupied|
      invariant forall port :: port in out <==>
        port in snap.occupied[..i] && port in pool.alloc && pool.alloc[port].serverID == serverID
      invariant Increasing(out)
    {
      var port := snap.occupied[i];
      assert snap.occupied[..i + 1] == snap.occupied[..i] + [port];
      if port in pool.alloc && pool.alloc[port].serverID == serverID {
        forall q <- out
          ensures q < port
        {
          assert q in snap.occupied[..i];
        }
        IncreasingMore(out, port);
        assert forall q :: q in out + [port] <==> q in out || q == port;
        out := out + [port];
      }
    }
    assert snap.occupied[..|snap.occupied|] == snap.occupied;
    IncreasingCount(out, OccupiedBy(pool.View(), serverID));
  }

  lemma {:induction false} IncreasingCount(s: seq<int>, elements: set<int>)
    requires Increasing(s) && forall x :: x in s <==> x in elements
    ensures |s| == |elements|
  {
    if s == [] {
      forall x ensures x !in elements {
        assert x !in s;
      }
      assert elements == {};
    } else {
      var n := |s| - 1;
      assert s == s[..n] + [s[n]];
      IncreasingCount(s[..n], elements - {s[n]});
    }
  }

  datatype ClientInfo = ClientInfo(id: string, token: string)

  datatype Request = Request(requestID: string, serverID: string, needZMQ: bool, needSRT: bool)

  /** What the two ends are told; a port that was not asked for is zero. */
  datatype PairGrant = PairGrant(
    requestID: string, sessionID: string, serverID: string, clientID: string,
    serverToken: string, clientToken: string, zmqPort: int, srtPort: int)

  datatype Outcome = Failed(error: Error) | Paired(grant: PairGrant)

  ghost function Remaining(s: ServerInfo, zmq: PoolState, srt: PoolState): int {
    s.maxConn - (|OccupiedBy(zmq, s.id)| + |OccupiedBy(srt, s.id)|)
  }

  /** The candidates: the wanted server, or every server, with capacity left. */
  ghost function Candidates(servers: map<string, ServerInfo>, wanted: string, zmq: PoolState, srt: PoolState)
    : set<Candidate>
  {
    set id | id in servers && (wanted == "" || id == wanted) && Remaining(servers[id], zmq, srt) > 0 ::
      Candidate(servers[id], Remaining(servers[id], zmq, srt))
  }

  /** Builds the candidate list; the server map is iterated over in no particular order. */
  method CollectCandidates(servers: map<string, ServerInfo>, wanted: string, zmq: Pool, srt: Pool)
    returns (cands: seq<Candidate>)
    requires zmq.Valid() && srt.Valid()
    requires forall id <- servers :: servers[id].id == id
    ensures DistinctIDs(cands)
    ensures forall c :: c in cands <==> c in Candidates(servers, wanted, zmq.View(), srt.View())
    ensures forall c :: c in cands <==>
              && c.server.id in servers && c.server == servers[c.server.id] && (wanted == "" || c.server.id == wanted)
              && c.remaining == c.server.maxConn - |OccupiedBy(zmq.View(), c.server.id)| - |OccupiedBy(srt.View(), c.server.id)|
              && c.remaining > 0
  {
    var todo := if wanted == "" then servers.Keys else if wanted in servers then {wanted} else {};
    cands := [];
    while todo != {}
      invariant todo <= servers.Keys && (wanted != "" ==> todo <= {wanted})
      invariant DistinctIDs(cands)
      invariant forall c :: c in cands <==>
        c in Candidates(servers, wanted, zmq.View(), srt.View()) && c.server.id !in todo
    {
      var id := Pick(todo);
      var usedZMQ := PoolOccupiedPorts(zmq, id);
      var usedSRT := PoolOccupiedPorts(srt, id);
      var rem := servers[id].maxConn - (|usedZMQ| + |usedSRT|);
      todo := todo - {id};
      if rem > 0 {
        var c := Candidate(servers[id], rem);
        assert forall d :: d in cands + [c] <==> d in cands || d == c;
        cands := cands + [c];
      }
    }
  }

  /** `port` is what a reservation took from `p`, if one was asked for; otherwise nothing happened. */
  ghost predicate Took(p: PoolState, p': PoolState, asked: bool, port: int, op: Op)
    requires op.Reserve?
  {
    if asked then
      && port in p.ports && StatusOf(p, port) == Some(Idle) && (forall q <- p.ports :: StatusOf(p, q) == Some(Idle) ==> port <= q)
      && p'.ports == p.ports && p'.state == p.state[port := Reserved]
      && p'.alloc == p.alloc[port := Allocation(port, op.sessionID, op.serverID, op.clientID, op.now)]
    else port == 0 && p' == p
  }

  /** Releasing what was just reserved restores the pool. */
  lemma ReserveThenRelease(p: PoolState, op: Op)
    requires WellFormed(p) && op.Reserve? && Granted(p, op).Some?
    ensures Apply(Apply(p, op), Op.Release(Granted(p, op).value, op.sessionID)) == p
  {
    var q := Apply(Apply(p, op), Op.Release(Granted(p, op).value, op.sessionID));
    assert q.state == p.state;
    assert q.alloc == p.alloc;
  }

  /** The server is wanted and has capacity left. */
  ghost predicate CanServe(s: ServerInfo, wanted: string, zmq: PoolState, srt: PoolState) {
    (wanted == "" || s.id == wanted) && Remaining(s, zmq, srt) > 0
  }

  /** Of the servers that can serve, the one with the most capacity left, and among those the smallest ID. */
  ghost predicate Chosen(id: string, servers: map<string, ServerInfo>, wanted: string, zmq: PoolState, srt: PoolState) {
    && id in servers && CanServe(servers[id], wanted, zmq, srt)
    && forall other <- servers :: other != id && CanServe(servers[other], wanted, zmq, srt) ==>
         || Remaining(servers[other], zmq, srt) < Remaining(servers[id], zmq, srt)
         || (Remaining(servers[other], zmq, srt) == Remaining(servers[id], zmq, srt) && Precedes(id, other))
  }

  lemma BestIsChosen(best: Candidate, cands: seq<Candidate>, servers: map<string, ServerInfo>, wanted: string,
                     zmq: PoolState, srt: PoolState)
    requires forall id <- servers :: servers[id].id == id
    requires forall c :: c in cands <==> c in Candidates(servers, wanted, zmq, srt)
    requires Best(best, cands)
    ensures Chosen(best.server.id, servers, wanted, zmq, srt) && best.server == servers[best.server.id]
  {
    forall other | other in servers && other != best.server.id && CanServe(servers[other], wanted, zmq, srt)
      ensures
        || Remaining(servers[other], zmq, srt) < Remaining(best.server, zmq, srt)
        || (Remaining(servers[other], zmq, srt) == Remaining(best.server, zmq, srt) && Precedes(best.server.id, other))
    {
      assert Candidate(servers[other], Remaining(servers[other], zmq, srt)) in cands;
    }
  }

  /** The server an attempt goes to, if there is one. */
  method ChooseServer(servers: map<string, ServerInfo>, wanted: string, zmq: Pool, srt: Pool)
    returns (r: Option<ServerInfo>)
    requires zmq.Valid() && srt.Valid()
    requires forall id <- servers :: servers[id].id == id
    ensures r.None? <==> forall id <- servers :: !CanServe(servers[id], wanted, zmq.View(), srt.View())
    ensures r.Some? ==>
              && r.value.id in servers && r.value == servers[r.value.id]
              && Chosen(r.value.id, servers, wanted, zmq.View(), srt.View())
  {
    var cands := CollectCandidates(servers, wanted, zmq, srt);
    if cands == [] {
      forall id | id in servers ensures !CanServe(servers[id], wanted, zmq.View(), srt.View()) {
        assert Candidate(servers[id], Remaining(servers[id], zmq.View(), srt.View())) !in cands;
      }
      return None;
    }
    var best := First(cands);
    BestIsChosen(best, cands, servers, wanted, zmq.View(), srt.View());
    return Some(best.server);
  }

  /** Reserves a port in each pool asked for, or, failing that, in none. */
  method ReserveBoth(server: string, client: string, zmq: Pool, srt: Pool, req: Request, sid: string, now: int)
    returns (ok: bool, zmqPort: int, srtPort: int)
    requires zmq.Valid() && srt.Valid() && zmq != srt && sid != ""
    modifies zmq, srt
    ensures zmq.Valid() && srt.Valid()
    ensures !ok <==>
      || (req.needZMQ && forall q <- zmq.ports :: !old(zmq.state)[q].Idle?)
      || (req.needSRT && forall q <- srt.ports :: !old(srt.state)[q].Idle?)
    ensures !ok ==> zmq.View() == old(zmq.View()) && srt.View() == old(srt.View())
    ensures ok ==>
      && Took(old(zmq.View()), zmq.View(), req.needZMQ, zmqPort, Op.Reserve(sid, server, client, now))
      && Took(old(srt.View()), srt.View(), req.needSRT, srtPort, Op.Reserve(sid, server, client, now))
  {
    ghost var op := Op.Reserve(sid, server, client, now);
    zmqPort, srtPort := 0, 0;
    if req.needZMQ {
      var a := zmq.Reserve(sid, server, client, now);
      if a.None? {
        return false, 0, 0;
      }
      zmqPort := a.value.port;
    }
    if req.needSRT {
      var a := srt.Reserve(sid, server, client, now);
      if a.None? {
        if zmqPort != 0 {
          ReserveThenRelease(old(zmq.View()), op);
          var _ := zmq.Release(zmqPort, sid);
        }
        return false, 0, 0;
      }
      srtPort := a.value.port;
    }
    ok := true;
  }

  /**
   One attempt with nobody else at the pools. A failed attempt leaves both pools exactly as
   they were; a successful one has reserved the smallest idle port in each pool asked for, for
   the chosen server and the client, and tells both ends.
   */
  method TryPairOnce(servers: map<string, ServerInfo>, zmq: Pool, srt: Pool, req: Request, client: ClientInfo,
                     sid: string, now: int)
    returns (out: Outcome)
    requires zmq.Valid() && srt.Valid() && zmq != srt && sid != ""
    requires forall id <- servers :: servers[id].id == id
    modifies zmq, srt
    ensures zmq.Valid() && srt.Valid()
    ensures out.Failed? ==> zmq.View() == old(zmq.View()) && srt.View() == old(srt.View())
    ensures out == Failed(BadRequest) <==>
      && (exists id <- servers :: CanServe(servers[id], req.serverID, old(zmq.View()), old(srt.View())))
      && !req.needZMQ && !req.needSRT
    ensures out == Failed(Unavailable) <==>
      || (forall id <- servers :: !CanServe(servers[id], req.serverID, old(zmq.View()), old(srt.View())))
      || (req.needZMQ && forall q <- zmq.ports :: !old(zmq.state)[q].Idle?)
      || (req.needSRT && forall q <- srt.ports :: !old(srt.state)[q].Idle?)
    ensures out.Failed? ==> out.error.BadRequest? || out.error.Unavailable?
    ensures out.Paired? ==>
      var g := out.grant;
      && Chosen(g.serverID, servers, req.serverID, old(zmq.View()), old(srt.View()))
      && g.serverToken == servers[g.serverID].token
      && g.requestID == req.requestID && g.sessionID == sid && g.clientID == client.id && g.clientToken == client.token
      && Took(old(zmq.View()), zmq.View(), req.needZMQ, g.zmqPort, Op.Reserve(sid, g.serverID, client.id, now))
      && Took(old(srt.View()), srt.View(), req.needSRT, g.srtPort, Op.Reserve(sid, g.serverID, client.id, now))
      && (req.needZMQ || req.needSRT)
  {
    var server := ChooseServer(servers, req.serverID, zmq, srt);
    if server.None? {
      return Failed(Unavailable);
    }
    var ok, zmqPort, srtPort := ReserveBoth(server.value.id, client.id, zmq, srt, req, sid, now);
    if !ok {
      return Failed(Unavailable);
    }
    if zmqPort == 0 && srtPort == 0 {
      return Failed(BadRequest);
    }
    return Paired(PairGrant(req.requestID, sid, server.value.id, client.id, server.value.token, client.token, zmqPort, srtPort));
  }

  /* What a grant does to the capacities, once its port is marked. */

  /** The pool when a port has been reserved and then marked occupied for its session. */
  lemma ReservedAndMarked(p: PoolState, op: Op, port: int)
    requires WellFormed(p) && op.Reserve? && Granted(p, op) == Some(port)
    ensures
      var q := Apply(Apply(p, op), Op.MarkOccupied(port, op.sessionID));
      && q.ports == p.ports && q.state == p.state[port := Occupied]
      && q.alloc == p.alloc[port := Allocation(port, op.sessionID, op.serverID, op.clientID, op.now)]
      && port in p.ports && port !in p.alloc
  {
    var r := Apply(p, op);
    assert r.state == p.state[port := Reserved];
    assert r.state[port := Occupied] == p.state[port := Occupied];
  }

  lemma OccupiedMore(p: PoolState, q: PoolState, port: int, a: Allocation, serverID: string)
    requires q.ports == p.ports && q.state == p.state[port := Occupied] && q.alloc == p.alloc[port := a]
    requires port in p.ports && port !in p.alloc
    ensures port !in OccupiedBy(p, serverID)
    ensures OccupiedBy(q, serverID) == OccupiedBy(p, serverID) + (if serverID == a.serverID then {port} else {})
  {
  }

  /**
   A port that was reserved for a server and then marked occupied for its session counts for
   that server, which has one place less, and for no other.
   */
  lemma GrantThenOccupied(p: PoolState, op: Op, port: int, serverID: string)
    requires WellFormed(p) && op.Reserve? && Granted(p, op) == Some(port)
    ensures
      var q := Apply(Apply(p, op), Op.MarkOccupied(port, op.sessionID));
      && OccupiedBy(q, serverID) == OccupiedBy(p, serverID) + (if serverID == op.serverID then {port} else {})
      && |OccupiedBy(q, serverID)| == |OccupiedBy(p, serverID)| + (if serverID == op.serverID then 1 else 0)
  {
    ReservedAndMarked(p, op, port);
    OccupiedMore(p, Apply(Apply(p, op), Op.MarkOccupied(port, op.sessionID)), port,
                 Allocation(port, op.sessionID, op.serverID, op.clientID, op.now), serverID);
  }

  /** Reserving alone takes no place: only occupied ports are counted. */
  lemma ReservingCountsNothing(p: PoolState, op: Op, serverID: string)
    requires WellFormed(p) && op.Reserve?
    ensures OccupiedBy(Apply(p, op), serverID) == OccupiedBy(p, serverID)
  {
  }

  /** Releasing the port gives the place back. */
  lemma ReleaseFreesPlace(p: PoolState, port: int, sid: string, serverID: string)
    requires WellFormed(p) && port in OccupiedBy(p, serverID) && p.alloc[port].sessionID == sid
    ensures OccupiedBy(Apply(p, Op.Release(port, sid)), serverID) == OccupiedBy(p, serverID) - {port}
  {
  }

  /* The same attempt while other goroutines use the pools. */

  /** Where the attempt stands. */
  datatype Phase =
    | AtZMQ
    | AtSRT(zmqPort: int)
    | AtUndo(zmqPort: int)
    | Won(zmqPort: int, srtPort: int)
    | Lost

  datatype Shared = Shared(zmq: PoolState, srt: PoolState, phase: Phase)

  /** A pool step of the attempt, or of somebody else. */
  datatype Event = Advance(now: int) | OnZMQ(op: Op) | OnSRT(op: Op)

  function Step(w: Shared, e: Event, req: Request, server: string, client: string, sid: string): Shared {
    match e
    case OnZMQ(op) => w.(zmq := Apply(w.zmq, op))
    case OnSRT(op) => w.(srt := Apply(w.srt, op))
    case Advance(now) =>
      var op := Op.Reserve(sid, server, client, now);
      (match w.phase
       case AtZMQ =>
         if !req.needZMQ then w.(phase := AtSRT(0))
         else if Granted(w.zmq, op).None? then w.(phase := Lost)
         else w.(zmq := Apply(w.zmq, op), phase := AtSRT(Granted(w.zmq, op).value))
       case AtSRT(port) =>
         if !req.needSRT then w.(phase := if port != 0 then Won(port, 0) else Lost)
         else if Granted(w.srt, op).Some? then w.(srt := Apply(w.srt, op), phase := Won(port, Granted(w.srt, op).value))
         else w.(phase := if port != 0 then AtUndo(port) else Lost)
       case AtUndo(port) => w.(zmq := Apply(w.zmq, Op.Release(port, sid)), phase := Lost)
       case Won(_, _) | Lost => w)
  }

  /** The session ID is fresh: nobody else reserves with it. */
  predicate Foreign(e: Event, sid: string) {
    match e
    case Advance(_) => true
    case OnZMQ(op) => op.Reserve? ==> op.sessionID != sid
    case OnSRT(op) => op.Reserve? ==> op.sessionID != sid
  }

  ghost predicate AttemptRun(run: seq<Shared>, events: seq<Event>, req: Request, server: string, client: string,
                             sid: string)
  {
    && |run| == |events| + 1
    && WellFormed(run[0].zmq) && WellFormed(run[0].srt) && run[0].phase == AtZMQ
    && (forall port :: !Carries(run[0].zmq, port, sid) && !Carries(run[0].srt, port, sid))
    && (forall i {:trigger events[i]} :: 0 <= i < |events| ==>
          Foreign(events[i], sid) && run[i + 1] == Step(run[i], events[i], req, server, client, sid))
  }

  /** Only the port the attempt remembers can carry its session ID, and none once it has failed. */
  ghost predicate Accounted(w: Shared, sid: string) {
    && WellFormed(w.zmq) && WellFormed(w.srt)
    && (!w.phase.Won? ==>
          && (forall port :: !Carries(w.srt, port, sid))
          && (forall port :: Carries(w.zmq, port, sid) ==>
                (w.phase.AtSRT? || w.phase.AtUndo?) && port == w.phase.zmqPort && port != 0))
  }

  /** A step that does not reserve for `sid` gives it no new port. */
  lemma NoNewCarrier(p: PoolState, op: Op, port: int, sid: string)
    requires WellFormed(p) && Carries(Apply(p, op), port, sid)
    requires op.Reserve? ==> op.sessionID != sid || Granted(p, op) != Some(port)
    ensures Carries(p, port, sid)
  {
  }

  lemma StepAccounted(w: Shared, e: Event, req: Request, server: string, client: string, sid: string)
    requires Accounted(w, sid) && Foreign(e, sid) && sid != ""
    ensures Accounted(Step(w, e, req, server, client, sid), sid)
  {
    match e
    case OnZMQ(op) =>
      ApplyWellFormed(w.zmq, op);
      forall port | Carries(Apply(w.zmq, op), port, sid) ensures Carries(w.zmq, port, sid) {
        NoNewCarrier(w.zmq, op, port, sid);
      }
    case OnSRT(op) =>
      ApplyWellFormed(w.srt, op);
      forall port | Carries(Apply(w.srt, op), port, sid) ensures Carries(w.srt, port, sid) {
        NoNewCarrier(w.srt, op, port, sid);
      }
    case Advance(now) => AdvanceAccounted(w, now, req, server, client, sid);
  }

  lemma AdvanceAccounted(w: Shared, now: int, req: Request, server: string, client: string, sid: string)
    requires Accounted(w, sid) && sid != ""
    ensures Accounted(Step(w, Advance(now), req, server, client, sid), sid)
  {
    var op := Op.Reserve(sid, server, client, now);
    ApplyWellFormed(w.zmq, op);
    ApplyWellFormed(w.srt, op);
    match w.phase
    case AtZMQ => OnlyGrantCarries(w.zmq, op);
    case AtUndo(p) => UndoCarries(w.zmq, p, sid);
    case _ =>
  }

  /** In a pool without the session ID, a reservation gives it to the granted port alone. */
  lemma OnlyGrantCarries(p: PoolState, op: Op)
    requires WellFormed(p) && op.Reserve? && forall port :: !Carries(p, port, op.sessionID)
    ensures forall port :: Carries(Apply(p, op), port, op.sessionID) ==> Granted(p, op) == Some(port) && port != 0
  {
    forall port | Carries(Apply(p, op), port, op.sessionID)
      ensures Granted(p, op) == Some(port)
    {
      if Granted(p, op) != Some(port) {
        NoNewCarrier(p, op, port, op.sessionID);
      }
    }
  }

  /** When at most one port carries the session ID, releasing that port for it leaves none. */
  lemma UndoCarries(p: PoolState, undo: int, sid: string)
    requires WellFormed(p) && sid != "" && forall port :: Carries(p, port, sid) ==> port == undo
    ensures
      var p' := Apply(p, Op.Release(undo, sid));
      WellFormed(p') && forall port :: !Carries(p', port, sid)
  {
    ApplyWellFormed(p, Op.Release(undo, sid));
    forall port
      ensures !Carries(Apply(p, Op.Release(undo, sid)), port, sid)
    {
      if Carries(Apply(p, Op.Release(undo, sid)), port, sid) {
        NoNewCarrier(p, Op.Release(undo, sid), port, sid);
      }
    }
  }

  lemma {:induction false} RunAccounted(run: seq<Shared>, events: seq<Event>, n: nat, req: Request, server: string,
                                        client: string, sid: string)
    requires AttemptRun(run, events, req, server, client, sid) && n <= |events| && sid != ""
    ensures Accounted(run[n], sid)
  {
    if n > 0 {
      RunAccounted(run, events, n - 1, req, server, client, sid);
      StepAccounted(run[n - 1], events[n - 1], req, server, client, sid);
    }
  }

  /** All or nothing: once the attempt has failed, no port of either pool carries its session ID, whatever others did. */
  lemma AllOrNothing(run: seq<Shared>, events: seq<Event>, n: nat, req: Request, server: string, client: string,
                     sid: string, port: int)
    requires AttemptRun(run, events, req, server, client, sid) && n <= |events| && sid != ""
    requires run[n].phase == Lost
    ensures !Carries(run[n].zmq, port, sid) && !Carries(run[n].srt, port, sid)
  {
    RunAccounted(run, events, n, req, server, client, sid);
  }

  /* Which ports were granted for the attempt's session ID, in each pool. */

  function ZMQGrant(w: Shared, e: Event, req: Request, server: string, client: string, sid: string): seq<int> {
    match e
    case OnZMQ(op) => if op.Reserve? && op.sessionID == sid then GrantList(w.zmq, op) else []
    case OnSRT(_) => []
    case Advance(now) =>
      if w.phase.AtZMQ? && req.needZMQ then GrantList(w.zmq, Op.Reserve(sid, server, client, now)) else []
  }

  function SRTGrant(w: Shared, e: Event, req: Request, server: string, client: string, sid: string): seq<int> {
    match e
    case OnZMQ(_) => []
    case OnSRT(op) => if op.Reserve? && op.sessionID == sid then GrantList(w.srt, op) else []
    case Advance(now) =>
      if w.phase.AtSRT? && req.needSRT then GrantList(w.srt, Op.Reserve(sid, server, client, now)) else []
  }

  function GrantList(p: PoolState, op: Op): seq<int> {
    match Granted(p, op)
    case None => []
    case Some(port) => [port]
  }

  /** The grants for the session ID made by the first `n` steps, by anybody. */
  function ZMQGrants(run: seq<Shared>, events: seq<Event>, n: nat, req: Request, server: string, client: string,
                     sid: string): seq<int>
    requires n <= |events| < |run|
  {
    if n == 0 then []
    else
      ZMQGrants(run, events, n - 1, req, server, client, sid)
      + ZMQGrant(run[n - 1], events[n - 1], req, server, client, sid)
  }

  function SRTGrants(run: seq<Shared>, events: seq<Event>, n: nat, req: Request, server: string, client: string,
                     sid: string): seq<int>
    requires n <= |events| < |run|
  {
    if n == 0 then []
    else
      SRTGrants(run, events, n - 1, req, server, client, sid)
      + SRTGrant(run[n - 1], events[n - 1], req, server, client, sid)
  }

  function Asked(asked: bool, port: int): seq<int> {
    if asked then [port] else []
  }

  /** What has been granted when the attempt stands at this phase. */
  predicate Entitled(phase: Phase, req: Request, zmq: seq<int>, srt: seq<int>) {
    match phase
    case AtZMQ => zmq == [] && srt == []
    case AtSRT(port) => zmq == Asked(req.needZMQ, port) && srt == [] && (port != 0 <==> req.needZMQ)
    case AtUndo(port) => zmq == [port] && srt == []
    case Won(z, s) =>
      && zmq == Asked(req.needZMQ, z) && srt == Asked(req.needSRT, s)
      && (z != 0 <==> req.needZMQ) && (s != 0 <==> req.needSRT) && (req.needZMQ || req.needSRT)
    case Lost => |zmq| <= 1 && srt == []
  }

  lemma GrantNotZero(p: PoolState, op: Op)
    requires WellFormed(p) && Granted(p, op).Some?
    ensures Granted(p, op).value > 0
  {
  }

  lemma ZMQEntitled(w: Shared, now: int, req: Request, server: string, client: string, sid: string)
    requires WellFormed(w.zmq) && w.phase.AtZMQ?
    ensures
      var e := Advance(now);
      Entitled(Step(w, e, req, server, client, sid).phase, req,
               ZMQGrant(w, e, req, server, client, sid), SRTGrant(w, e, req, server, client, sid))
  {
    var op := Op.Reserve(sid, server, client, now);
    if Granted(w.zmq, op).Some? {
      GrantNotZero(w.zmq, op);
    }
  }

  lemma SRTEntitled(w: Shared, now: int, req: Request, server: string, client: string, sid: string, zmq: seq<int>)
    requires WellFormed(w.srt) && w.phase.AtSRT? && Entitled(w.phase, req, zmq, [])
    ensures
      var e := Advance(now);
      && ZMQGrant(w, e, req, server, client, sid) == []
      && Entitled(Step(w, e, req, server, client, sid).phase, req, zmq, SRTGrant(w, e, req, server, client, sid))
  {
    var op := Op.Reserve(sid, server, client, now);
    if Granted(w.srt, op).Some? {
      GrantNotZero(w.srt, op);
    }
  }

  lemma OthersGrantNothing(w: Shared, e: Event, req: Request, server: string, client: string, sid: string)
    requires Foreign(e, sid) && (e.Advance? ==> !w.phase.AtZMQ? && !w.phase.AtSRT?)
    ensures ZMQGrant(w, e, req, server, client, sid) == [] && SRTGrant(w, e, req, server, client, sid) == []
    ensures
      var phase := Step(w, e, req, server, client, sid).phase;
      phase == w.phase || (w.phase.AtUndo? && phase.Lost?)
  {
  }

  lemma StepEntitled(w: Shared, e: Event, req: Request, server: string, client: string, sid: string,
                     zmq: seq<int>, srt: seq<int>)
    requires WellFormed(w.zmq) && WellFormed(w.srt) && Foreign(e, sid) && Entitled(w.phase, req, zmq, srt)
    ensures
      Entitled(Step(w, e, req, server, client, sid).phase, req,
               zmq + ZMQGrant(w, e, req, server, client, sid), srt + SRTGrant(w, e, req, server, client, sid))
  {
    var z, s := ZMQGrant(w, e, req, server, client, sid), SRTGrant(w, e, req, server, client, sid);
    if e.Advance? && w.phase.AtZMQ? {
      ZMQEntitled(w, e.now, req, server, client, sid);
      assert [] + z == z && [] + s == s;
    } else if e.Advance? && w.phase.AtSRT? {
      SRTEntitled(w, e.now, req, server, client, sid, zmq);
      assert zmq + [] == zmq && [] + s == s;
    } else {
      OthersGrantNothing(w, e, req, server, client, sid);
      assert zmq + [] == zmq && srt + [] == srt;
    }
  }

  /** Step `k` is one of the run's, between well-formed pools. */
  ghost predicate Regular(run: seq<Shared>, events: seq<Event>, k: nat, req: Request, server: string, client: string,
                          sid: string)
    requires k < |events| < |run|
  {
    && Foreign(events[k], sid) && run[k + 1] == Step(run[k], events[k], req, server, client, sid)
    && WellFormed(run[k].zmq) && WellFormed(run[k].srt)
  }

  lemma RunRegular(run: seq<Shared>, events: seq<Event>, k: nat, req: Request, server: string, client: string, sid: string)
    requires AttemptRun(run, events, req, server, client, sid) && k < |events| && sid != ""
    ensures Regular(run, events, k, req, server, client, sid)
  {
    RunAccounted(run, events, k, req, server, client, sid);
    assert Foreign(events[k], sid) && run[k + 1] == Step(run[k], events[k], req, server, client, sid);
  }

  ghost predicate EntitledAt(run: seq<Shared>, events: seq<Event>, n: nat, req: Request, server: string,
                             client: string, sid: string)
    requires n <= |events| < |run|
  {
    Entitled(run[n].phase, req, ZMQGrants(run, events, n, req, server, client, sid),
             SRTGrants(run, events, n, req, server, client, sid))
  }

  lemma EntitledMore(run: seq<Shared>, events: seq<Event>, n: nat, req: Request, server: string, client: string, sid: string)
    requires 0 < n <= |events| < |run|
    requires Regular(run, events, n - 1, req, server, client, sid)
    requires EntitledAt(run, events, n - 1, req, server, client, sid)
    ensures EntitledAt(run, events, n, req, server, client, sid)
  {
    StepEntitled(run[n - 1], events[n - 1], req, server, client, sid,
                 ZMQGrants(run, events, n - 1, req, server, client, sid),
                 SRTGrants(run, events, n - 1, req, server, client, sid));
  }

  lemma {:induction false} AllEntitled(run: seq<Shared>, events: seq<Event>, n: nat, req: Request, server: string,
                                        client: string, sid: string)
    requires n <= |events| < |run| && run[0].phase == AtZMQ
    requires forall k: nat :: k < n ==> Regular(run, events, k, req, server, client, sid)
    ensures EntitledAt(run, events, n, req, server, client, sid)
  {
    if n > 0 {
      AllEntitled(run, events, n - 1, req, server, client, sid);
      EntitledMore(run, events, n, req, server, client, sid);
    }
  }

  lemma RunEntitled(run: seq<Shared>, events: seq<Event>, n: nat, req: Request, server: string, client: string, sid: string)
    requires AttemptRun(run, events, req, server, client, sid) && n <= |events| && sid != ""
    ensures EntitledAt(run, events, n, req, server, client, sid)
  {
    forall k: nat | k < n ensures Regular(run, events, k, req, server, client, sid) {
      RunRegular(run, events, k, req, server, client, sid);
    }
    AllEntitled(run, events, n, req, server, client, sid);
  }

  /**
   Exactly once: when the attempt has succeeded, whatever others did meanwhile, each pool asked
   for has granted exactly one port for its session ID, the one it reports, and the other none.
   */
  lemma ExactlyOneGrant(run: seq<Shared>, events: seq<Event>, n: nat, req: Request, server: string, client: string,
                        sid: string)
    requires AttemptRun(run, events, req, server, client, sid) && n <= |events| && sid != "" && run[n].phase.Won?
    ensures ZMQGrants(run, events, n, req, server, client, sid) == Asked(req.needZMQ, run[n].phase.zmqPort)
    ensures SRTGrants(run, events, n, req, server, client, sid) == Asked(req.needSRT, run[n].phase.srtPort)
    ensures (run[n].phase.zmqPort != 0 <==> req.needZMQ) && (run[n].phase.srtPort != 0 <==> req.needSRT)
    ensures req.needZMQ || req.needSRT
  {
    RunEntitled(run, events, n, req, server, client, sid);
  }
}
