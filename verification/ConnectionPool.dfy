/** The tenant connection pool object, proved against PoolModel. */
module ConnectionPool {
  import Lru
  import opened Optional
  import opened PoolModel

  const READY := 1
  const CONNECTING := 2
  const CLOSED := 0

  class Connection {
    var readyState: int

    constructor (readyState: int)
      ensures this.readyState == readyState
    {
      this.readyState := readyState;
    }

    method Close()
      modifies this
      ensures readyState == CLOSED
    {
      readyState := CLOSED;
    }
  }

  /** Entries do not share a connection. */
  ghost predicate Separate(pool: seq<Entry<Connection>>) {
    forall i, j | 0 <= i < j < |pool| :: pool[i].connection != pool[j].connection
  }

  function ConnectionsOf(pool: seq<Entry<Connection>>): set<Connection> {
    set e | e in pool :: e.connection
  }

  lemma {:induction false} ConnectionAt(pool: seq<Entry<Connection>>, i: nat)
    requires i < |pool|
    ensures pool[i].connection in ConnectionsOf(pool)
  {
    assert pool[i] in pool;
  }

  lemma {:induction false} TouchKeepsConnections(pool: seq<Entry<Connection>>, k: nat, now: int)
    requires k < |pool| && Separate(pool)
    ensures ConnectionsOf(Touched(pool, k, now)) == ConnectionsOf(pool) && Separate(Touched(pool, k, now))
  {
    var pool' := Touched(pool, k, now);
    assert forall i | 0 <= i < |pool| :: pool[i] in pool && pool'[i] in pool' && pool'[i].connection == pool[i].connection;
  }

  lemma {:induction false} RemoveDropsConnection(pool: seq<Entry<Connection>>, k: nat)
    requires k < |pool| && Separate(pool)
    ensures ConnectionsOf(Remove(pool, k)) == ConnectionsOf(pool) - {pool[k].connection} && Separate(Remove(pool, k))
  {
    var rest := Remove(pool, k);
    forall i | 0 <= i < |pool| && i != k ensures pool[i] in rest {
      assert rest[if i < k then i else i - 1] == pool[i];
    }
    assert forall i | 0 <= i < |rest| :: rest[i] == pool[if i < k then i else i + 1];
  }

  lemma {:induction false} AppendAddsConnection(pool: seq<Entry<Connection>>, e: Entry<Connection>)
    requires Separate(pool) && e.connection !in ConnectionsOf(pool)
    ensures ConnectionsOf(pool + [e]) == ConnectionsOf(pool) + {e.connection} && Separate(pool + [e])
  {
    assert e in pool + [e];
    forall i | 0 <= i < |pool| ensures pool[i].connection != e.connection { ConnectionAt(pool, i); }
  }

  class TenantConnectionPool {
    const maxConnections: nat
    var pool: seq<Entry<Connection>>

    constructor (maxConnections: nat)
      ensures Valid() && pool == [] && this.maxConnections == maxConnections
    {
      this.maxConnections := maxConnections;
      pool := [];
    }

    ghost predicate Valid()
      reads this
    {
      Separate(pool)
    }

    function Connections(): set<Connection>
      reads this
    {
      ConnectionsOf(pool)
    }

    /** The scan of `_evictLRU`. */
    method OldestIndex() returns (oldest: int)
      ensures pool == [] ==> oldest == -1
      ensures pool != [] ==> oldest == OldestOf(pool)
    {
      oldest := -1;
      var i := 0;
      while i < |pool|
        invariant 0 <= i <= |pool| && -1 <= oldest < i && (oldest == -1 <==> i == 0)
        invariant oldest >= 0 ==> forall j | 0 <= j < i :: pool[oldest].lastUsed <= pool[j].lastUsed
        invariant forall j | 0 <= j < oldest :: pool[oldest].lastUsed < pool[j].lastUsed
      {
        if oldest == -1 || pool[i].lastUsed < pool[oldest].lastUsed {
          oldest := i;
        }
        i := i + 1;
      }
      if pool != [] {
        OldestIsUnique(pool, oldest);
      }
    }

    /** Closes an entry's connection and removes the entry. */
    method Discard(k: nat)
      requires Valid() && k < |pool|
      modifies this, pool[k].connection
      ensures Valid() && pool == Remove(old(pool), k)
      ensures Connections() == old(Connections()) - {old(pool)[k].connection}
      ensures old(pool)[k].connection.readyState == CLOSED
    {
      RemoveDropsConnection(pool, k);
      pool[k].connection.Close();
      pool := Remove(pool, k);
    }

    /** Removes the entry with the least lastUsed, the first of several, and closes its connection
        and no other. */
    method EvictLRU()
      requires Valid()
      modifies this, Connections()
      ensures Valid() && pool == Evicted(old(pool)) && Connections() <= old(Connections())
      ensures forall c | c in old(Connections()) ::
                if c in Connections() then unchanged(c) else c.readyState == CLOSED
    {
      var oldest := OldestIndex();
      if oldest >= 0 && pool[oldest].tenant.id != "" {
        ConnectionAt(pool, oldest);
        Discard(oldest);
      }
    }

    /** The entry's connection if it is ready; else the entry is removed, its connection left as it is. */
    method Reuse(tenantId: Lru.Tenant, now: int) returns (conn: Connection?)
      requires Valid()
      modifies this`pool
      ensures Valid() && Connections() <= old(Connections())
      ensures conn != null <==> AliveIn(old(pool), tenantId)
      ensures conn != null ==> conn in Connections() && Connections() == old(Connections())
                               && pool == Touched(old(pool), IndexOf(old(pool), tenantId), now)
                               && conn == old(pool)[IndexOf(old(pool), tenantId)].connection
      ensures conn == null ==> pool == Freed(old(pool), tenantId)
      ensures conn == null ==> forall c | c in old(Connections()) :: c in Connections() || IsOf(old(pool), tenantId, c)
    {
      conn := null;
      var k := IndexOf(pool, tenantId);
      if k >= 0 {
        TouchKeepsConnections(pool, k, now);
        pool := Touched(pool, k, now);
        ConnectionAt(pool, k);
        if pool[k].connection.readyState == READY {
          return pool[k].connection;
        }
        RemoveDropsConnection(pool, k);
        assert Remove(pool, k) == Remove(old(pool), k);
        pool := Remove(pool, k);
      }
    }

    /** Opens a connection and inserts it. It need not be ready: the driver returns it while it is
        still connecting, and a connect that fails later leaves it in the pool until it is asked for
        again. */
    method Connect(t: Lru.Tenant, state: int, now: int) returns (conn: Connection)
      requires Valid()
      modifies this`pool
      ensures Valid() && fresh(conn) && conn.readyState == state
      ensures pool == old(pool) + [Entry(t, conn, now)] && Connections() == old(Connections()) + {conn}
    {
      conn := new Connection(state);
      AppendAddsConnection(pool, Entry(t, conn, now));
      pool := pool + [Entry(t, conn, now)];
    }

    /** A miss: make room if the pool is full, then open and insert. `opens` is the ready state of the
        new connection, none if `_openConnection` throws. */
    method Open(t: Lru.Tenant, opens: Option<int>, now: int) returns (conn: Connection?)
      requires Valid()
      modifies this, Connections()
      ensures Valid() && (conn == null <==> opens.None?)
      ensures conn != null ==> fresh(conn) && conn.readyState == opens.value && conn in Connections()
      ensures pool == Vacated(old(pool), maxConnections) + if conn == null then [] else [Entry(t, conn, now)]
      ensures forall c | c in old(Connections()) ::
                if c in Connections() then unchanged(c) else c.readyState == CLOSED
    {
      if |pool| >= maxConnections {
        EvictLRU();
      }
      conn := null;
      if opens.Some? {
        conn := Connect(t, opens.value, now);
      }
    }

    ghost predicate AliveIn(entries: seq<Entry<Connection>>, t: Lru.Tenant)
      reads ConnectionsOf(entries)
    {
      var k := IndexOf(entries, t);
      k >= 0 && (ConnectionAt(entries, k); entries[k].connection.readyState == READY)
    }

    predicate IsOf(entries: seq<Entry<Connection>>, t: Lru.Tenant, c: Connection) {
      IndexOf(entries, t) >= 0 && entries[IndexOf(entries, t)].connection == c
    }

    /** What PoolModel says of the request; the connection returned is the entry's own if that was
        ready, and otherwise new. The evicted connection is closed and no other, not even that of an
        entry removed as dead. */
    method GetConnection(tenantId: Lru.Tenant, opens: Option<int>, tTouch: int, tInsert: int) returns (conn: Connection?)
      requires Valid()
      modifies this, Connections()
      ensures Valid() && (conn != null ==> conn in Connections())
      ensures var alive := old(AliveIn(pool, tenantId));
              && (conn == null <==> !alive && opens.None?)
              && (alive ==> conn.readyState == READY && conn == old(pool)[IndexOf(old(pool), tenantId)].connection)
              && (conn != null && !alive ==> fresh(conn) && conn.readyState == opens.value)
              && pool == After(old(pool), maxConnections,
                               Fetch(tenantId, alive, if conn == null then None else Some(conn), tTouch, tInsert))
      ensures forall c | c in old(Connections()) ::
                if c in Connections() || IsOf(old(pool), tenantId, c) then unchanged(c) else c.readyState == CLOSED
    {
      conn := Reuse(tenantId, tTouch);
      if conn == null {
        conn := Open(tenantId, opens, tInsert);
      }
    }

    /** `closes` is whether closing the connection succeeds; if it does not, the entry stays. */
    method Release(tenantId: Lru.Tenant, closes: bool)
      requires Valid()
      modifies this, Connections()
      ensures Valid() && pool == After(old(pool), maxConnections, Free(tenantId, closes))
      ensures forall c | c in old(Connections()) ::
                if c in Connections() then unchanged(c) else c.readyState == CLOSED
    {
      var k := IndexOf(pool, tenantId);
      if k >= 0 && closes {
        ConnectionAt(pool, k);
        Discard(k);
      }
    }
  }
}
