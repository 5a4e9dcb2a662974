/** The control hub's registry: clients by connection, and by ID in one of two role maps. */
module Hub {
  import opened Bytes
  import opened Options

  datatype Role = Server | Client | Unknown

  datatype Refusal = MissingCredentials | InvalidRole | MaxConnectionsReached | DuplicateID

  /** A registering peer; `conn` identifies its connection. */
  class Peer {
    const conn: nat
    const role: Role
    const id: string
    const token: string
    var maxConn: int
    var approved: bool

    constructor (conn: nat, role: Role, id: string, token: string, maxConn: int)
      ensures this.conn == conn && this.role == role && this.id == id && this.token == token
      ensures this.maxConn == maxConn && !approved
    {
      this.conn, this.role, this.id, this.token := conn, role, id, token;
      this.maxConn := maxConn;
      approved := false;
    }
  }

  ghost predicate Ready(c: Peer)
    reads c
  {
    c.approved && c.maxConn >= 1 && c.id != "" && c.token != ""
  }

  /** The map `m` holds, by ID, exactly the peers of one role among `clients`. */
  ghost predicate Holds(clients: map<nat, Peer>, m: map<string, Peer>, role: Role) {
    && (forall id <- m :: m[id].id == id && m[id].role == role && m[id].conn in clients && clients[m[id].conn] == m[id])
    && (forall k <- clients :: clients[k].role == role ==> clients[k].id in m && m[clients[k].id] == clients[k])
  }

  ghost predicate KeyedByConn(clients: map<nat, Peer>) {
    forall k <- clients :: clients[k].conn == k && (clients[k].role == Server || clients[k].role == Client)
  }

  /** The three maps describe one set of peers. */
  ghost predicate Indexed(clients: map<nat, Peer>, servers: map<string, Peer>, fe: map<string, Peer>) {
    && KeyedByConn(clients)
    && Holds(clients, servers, Server)
    && Holds(clients, fe, Client)
    && |clients| == |servers| + |fe|
  }

  /** A registered peer of the same role has the same ID. */
  ghost predicate Taken(clients: map<nat, Peer>, c: Peer) {
    exists k <- clients :: clients[k].role == c.role && clients[k].id == c.id
  }

  lemma NotAmong(clients: map<nat, Peer>, c: Peer)
    requires KeyedByConn(clients) && c.conn !in clients
    ensures forall k <- clients :: clients[k] != c
  {
  }

  lemma TakenIsListed(clients: map<nat, Peer>, servers: map<string, Peer>, fe: map<string, Peer>, c: Peer)
    requires Indexed(clients, servers, fe)
    ensures c.role == Server ==> (Taken(clients, c) <==> c.id in servers)
    ensures c.role == Client ==> (Taken(clients, c) <==> c.id in fe)
  {
  }

  lemma HoldsMore(clients: map<nat, Peer>, m: map<string, Peer>, role: Role, c: Peer)
    requires Holds(clients, m, role) && c.conn !in clients
    ensures c.role == role && c.id !in m ==> Holds(clients[c.conn := c], m[c.id := c], role)
    ensures c.role != role ==> Holds(clients[c.conn := c], m, role)
  {
  }

  lemma HoldsFewer(clients: map<nat, Peer>, m: map<string, Peer>, role: Role, c: Peer)
    requires Holds(clients, m, role) && KeyedByConn(clients) && c.conn in clients && clients[c.conn] == c
    ensures c.role == role ==> c.id in m && m[c.id] == c && Holds(clients - {c.conn}, m - {c.id}, role)
    ensures c.role != role ==> Holds(clients - {c.conn}, m, role)
  {
  }

  lemma FewerByOne<K, V>(m: map<K, V>, k: K)
    requires k in m
    ensures |m - {k}| == |m| - 1
  {
    assert (m - {k}).Keys == m.Keys - {k};
    assert |(m - {k}).Keys| == |m - {k}|;
  }

  lemma IndexedMore(clients: map<nat, Peer>, servers: map<string, Peer>, fe: map<string, Peer>, c: Peer)
    requires Indexed(clients, servers, fe) && c.conn !in clients
    ensures c.role == Server && c.id !in servers ==> Indexed(clients[c.conn := c], servers[c.id := c], fe)
    ensures c.role == Client && c.id !in fe ==> Indexed(clients[c.conn := c], servers, fe[c.id := c])
  {
    HoldsMore(clients, servers, Server, c);
    HoldsMore(clients, fe, Client, c);
  }

  lemma IndexedFewer(clients: map<nat, Peer>, servers: map<string, Peer>, fe: map<string, Peer>, c: Peer)
    requires Indexed(clients, servers, fe) && c.conn in clients && clients[c.conn] == c
    ensures |clients - {c.conn}| < |clients| && (c.role == Server || c.role == Client)
    ensures c.role == Server ==> c.id in servers && servers[c.id] == c && Indexed(clients - {c.conn}, servers - {c.id}, fe)
    ensures c.role == Client ==> c.id in fe && fe[c.id] == c && Indexed(clients - {c.conn}, servers, fe - {c.id})
  {
    HoldsFewer(clients, servers, Server, c);
    HoldsFewer(clients, fe, Client, c);
    FewerByOne(clients, c.conn);
    assert KeyedByConn(clients - {c.conn});
    if c.role == Server {
      FewerByOne(servers, c.id);
    } else {
      FewerByOne(fe, c.id);
    }
  }

  function WithoutServer(servers: map<string, Peer>, c: Peer): map<string, Peer> {
    if c.role == Server && c.id in servers && servers[c.id] == c then servers - {c.id} else servers
  }

  function WithoutFE(fe: map<string, Peer>, c: Peer): map<string, Peer> {
    if c.role != Server && c.id in fe && fe[c.id] == c then fe - {c.id} else fe
  }

  /** A leaving peer takes its own entries with it, if it has any. */
  lemma Departs(clients: map<nat, Peer>, servers: map<string, Peer>, fe: map<string, Peer>, c: Peer)
    requires Indexed(clients, servers, fe) && (c.conn in clients ==> clients[c.conn] == c)
    ensures Indexed(clients - {c.conn}, WithoutServer(servers, c), WithoutFE(fe, c))
    ensures |clients - {c.conn}| <= |clients|
    ensures c.conn in clients && c.role == Server ==> WithoutServer(servers, c) == servers - {c.id}
    ensures c.conn in clients && c.role == Client ==> WithoutFE(fe, c) == fe - {c.id}
    ensures c.conn in clients && c.role == Server ==> WithoutFE(fe, c) == fe
    ensures c.conn in clients && c.role == Client ==> WithoutServer(servers, c) == servers
    ensures c.conn !in clients ==>
              clients - {c.conn} == clients && WithoutServer(servers, c) == servers && WithoutFE(fe, c) == fe
  {
    if c.conn in clients {
      IndexedFewer(clients, servers, fe, c);
    } else {
      assert clients - {c.conn} == clients;
    }
  }

  class Registry {
    const maxConnections: int
    var clients: map<nat, Peer>
    var servers: map<string, Peer>
    var fe: map<string, Peer>

    ghost predicate Valid()
      reads this
    {
      Indexed(clients, servers, fe) && |clients| <= Max(0, maxConnections)
    }

    /** Every registered peer is approved, named, and has room for a connection. */
    ghost predicate Approved()
      reads *
    {
      forall k <- clients :: Ready(clients[k])
    }

    constructor (maxConnections: int)
      ensures Valid() && Approved() && clients == map[] && this.maxConnections == maxConnections
    {
      this.maxConnections := maxConnections;
      clients, servers, fe := map[], map[], map[];
    }

    /** Why a peer is refused, in the order in which the checks are made. */
    ghost function Refuses(c: Peer): Option<Refusal>
      reads this
    {
      if c.id == "" || c.token == "" then Some(MissingCredentials)
      else if c.role != Server && c.role != Client then Some(InvalidRole)
      else if |clients| >= maxConnections then Some(MaxConnectionsReached)
      else if Taken(clients, c) then Some(DuplicateID)
      else None
    }

    /** The peer has been entered under its connection and in the map of its role, and nothing else has changed. */
    twostate predicate Joined(c: Peer)
      reads this
    {
      && clients == old(clients)[c.conn := c]
      && (c.role == Server ==> c.id !in old(servers) && servers == old(servers)[c.id := c] && fe == old(fe))
      && (c.role == Client ==> c.id !in old(fe) && fe == old(fe)[c.id := c] && servers == old(servers))
    }

    /** The peer has gone from every map, and nothing else has changed. */
    twostate predicate Left(c: Peer)
      reads this
    {
      && clients == old(clients) - {c.conn}
      && (c.role == Server ==> servers == old(servers) - {c.id} && fe == old(fe))
      && (c.role == Client ==> fe == old(fe) - {c.id} && servers == old(servers))
    }

    twostate predicate StaysPut()
      reads this
    {
      clients == old(clients) && servers == old(servers) && fe == old(fe)
    }

    /** Enters a peer under its connection and, unless its ID is taken, in the map of its role. */
    method Enter(c: Peer) returns (ok: bool)
      requires Valid() && |clients| < maxConnections && c.conn !in clients && (c.role == Server || c.role == Client)
      modifies this
      ensures Valid()
      ensures ok <==> !Taken(old(clients), c)
      ensures if ok then Joined(c) else unchanged(this)
    {
      IndexedMore(clients, servers, fe, c);
      TakenIsListed(clients, servers, fe, c);
      if c.role == Server {
        if c.id in servers {
          return false;
        }
        servers := servers[c.id := c];
      } else {
        if c.id in fe {
          return false;
        }
        fe := fe[c.id := c];
      }
      clients := clients[c.conn := c];
      ok := true;
    }

    method Approve(c: Peer)
      requires c.id != "" && c.token != "" && c.maxConn >= 1
      requires forall k <- clients :: clients[k] == c || Ready(clients[k])
      modifies c`approved
      ensures Approved()
    {
      c.approved := true;
    }

    /** The part of a registration that runs under the lock. */
    method Admit(c: Peer) returns (r: Option<Refusal>)
      requires Valid() && Approved() && c.conn !in clients
      requires c.id != "" && c.token != "" && c.maxConn >= 1 && (c.role == Server || c.role == Client)
      modifies this, c`approved
      ensures Valid() && Approved()
      ensures r == old(Refuses(c))
      ensures if r.None? then Joined(c) else unchanged(this) && c.approved == old(c.approved)
    {
      if |clients| >= maxConnections {
        return Some(MaxConnectionsReached);
      }
      var ok := Enter(c);
      if !ok {
        return Some(DuplicateID);
      }
      Approve(c);
      r := None;
    }

    /**
     A new connection's peer is registered exactly if its credentials are complete, its role
     is known, there is room, and no registered peer of its role has its ID.
     */
    method ValidateAndRegister(c: Peer) returns (r: Option<Refusal>)
      requires Valid() && Approved() && c.conn !in clients
      modifies this, c
      ensures Valid() && Approved()
      ensures r == old(Refuses(c))
      ensures r == Some(MissingCredentials) <==> c.id == "" || c.token == ""
      ensures r == Some(InvalidRole) <==> c.id != "" && c.token != "" && c.role != Server && c.role != Client
      ensures r == Some(MaxConnectionsReached) <==>
                && c.id != "" && c.token != "" && (c.role == Server || c.role == Client) && |old(clients)| >= maxConnections
      ensures r == Some(DuplicateID) <==>
                && c.id != "" && c.token != "" && |old(clients)| < maxConnections
                && ((c.role == Server && c.id in old(servers)) || (c.role == Client && c.id in old(fe)))
      ensures c.maxConn == if r == Some(MissingCredentials) || old(c.maxConn) > 0 then old(c.maxConn) else 1
      ensures if r.None? then Joined(c) else unchanged(this) && c.approved == old(c.approved)
    {
      if c.id == "" || c.token == "" {
        return Some(MissingCredentials);
      }
      NotAmong(clients, c);
      TakenIsListed(clients, servers, fe, c);
      if c.maxConn <= 0 {
        c.maxConn := 1;
      }
      if c.role != Server && c.role != Client {
        return Some(InvalidRole);
      }
      r := Admit(c);
    }

    /** Takes out what is stored for this peer, and not for another with its ID. */
    method Remove(c: Peer)
      requires Approved()
      modifies this
      ensures Approved()
      ensures clients == old(clients) - {c.conn}
      ensures servers == WithoutServer(old(servers), c) && fe == WithoutFE(old(fe), c)
    {
      clients := clients - {c.conn};
      if c.role == Server {
        if c.id in servers && servers[c.id] == c {
          servers := servers - {c.id};
        }
      } else {
        if c.id in fe && fe[c.id] == c {
          fe := fe - {c.id};
        }
      }
    }

    /**
     A registered peer disappears from every map, and nothing else does; for a peer that is
     gone already nothing happens. A connection belongs to one peer.
     */
    method Unregister(c: Peer)
      requires Valid() && Approved() && (c.conn in clients ==> clients[c.conn] == c)
      modifies this
      ensures Valid() && Approved()
      ensures if c.conn in old(clients) then Left(c) else StaysPut()
    {
      Departs(clients, servers, fe, c);
      Remove(c);
    }
  }
}
