/**
 * `ConnectionPool` (`connection/pool.py`): a bounded FIFO queue of idle
 * connections, a count of connections checked out and a count of
 * connections ever created. Connections are abstract ids: the n-th
 * connection created is id n. The pool also remembers which connections it
 * has closed, because a closed connection fails the liveness probe that
 * `return_connection` runs. The blocking wait of `get_connection` is an
 * immediate timeout, and creating a connection always succeeds.
 */
module Pool {
  import opened Wrappers

  type ConnId = nat

  datatype PoolError =
    | InvalidDbPath
    | InvalidMaxConnections
    | InvalidTimeout
    | Timeout
    | NoneConnection
    | BodyRaised

  /** The pool's mutable state as a value. */
  datatype PoolState = PoolState(idle: seq<ConnId>, active: int, totalCreated: nat, closed: set<ConnId>)

  function InitialState(): (s: PoolState)
    ensures s.idle == [] && s.active == 0 && s.totalCreated == 0
  {
    PoolState([], 0, 0, {})
  }

  /**
   * What `get`, `return` and `close_connection` keep: the connections the
   * pool accounts for never exceed the maximum nor the connections created,
   * and the queue stays within its bound.
   */
  predicate PoolInv(s: PoolState, maxConnections: nat)
  {
    && s.active + |s.idle| <= maxConnections
    && s.active + |s.idle| <= s.totalCreated
    && |s.idle| <= maxConnections
  }

  /** Every idle connection is one this pool created. */
  predicate IdleOwned(s: PoolState)
  {
    forall i :: 0 <= i < |s.idle| ==> s.idle[i] < s.totalCreated
  }

  /**
   * `get_connection`: an idle connection first (oldest first); else a new
   * one while fewer than the maximum are checked out; else a timeout that
   * changes nothing.
   */
  function GetStep(s: PoolState, maxConnections: nat): (r: (PoolState, Result<ConnId, PoolError>))
    ensures s.idle != [] ==>
      r == (s.(idle := s.idle[1..], active := s.active + 1), Ok(s.idle[0]))
    ensures s.idle == [] && s.active < maxConnections ==>
      r == (s.(active := s.active + 1, totalCreated := s.totalCreated + 1), Ok(s.totalCreated))
    ensures s.idle == [] && s.active >= maxConnections ==> r == (s, Err(Timeout))
    ensures r.0.totalCreated >= s.totalCreated && r.0.closed == s.closed
  {
    if s.idle != [] then
      (s.(idle := s.idle[1..], active := s.active + 1), Ok(s.idle[0]))
    else if s.active < maxConnections then
      (s.(active := s.active + 1, totalCreated := s.totalCreated + 1), Ok(s.totalCreated))
    else
      (s, Err(Timeout))
  }

  /**
   * `return_connection`: None raises; a connection failing the probe is
   * dropped; a live one is queued unless the queue is full, when it is closed.
   * The active count drops by one in every non-raising case.
   */
  function ReturnStep(s: PoolState, maxConnections: nat, conn: Option<ConnId>, healthy: bool): (r: Result<PoolState, PoolError>)
    ensures conn.None? <==> r == Err(NoneConnection)
    ensures r.Ok? ==> r.value.active == s.active - 1 && r.value.totalCreated == s.totalCreated
    ensures r.Ok? && (!healthy || conn.value in s.closed) ==> r.value == s.(active := s.active - 1)
    ensures r.Ok? && healthy && conn.value !in s.closed && |s.idle| < maxConnections ==>
      r.value == s.(idle := s.idle + [conn.value], active := s.active - 1)
    ensures r.Ok? && healthy && conn.value !in s.closed && |s.idle| >= maxConnections ==>
      r.value == s.(active := s.active - 1, closed := s.closed + {conn.value})
  {
    if conn.None? then Err(NoneConnection)
    else
      var c := conn.value;
      if !healthy || c in s.closed then Ok(s.(active := s.active - 1))
      else if |s.idle| < maxConnections then Ok(s.(idle := s.idle + [c], active := s.active - 1))
      else Ok(s.(active := s.active - 1, closed := s.closed + {c}))
  }

  /** `close_connection`: None does nothing; otherwise close it and count it as no longer active. */
  function CloseStep(s: PoolState, conn: Option<ConnId>): (r: PoolState)
    ensures conn.None? ==> r == s
    ensures conn.Some? ==> r == s.(active := s.active - 1, closed := s.closed + {conn.value})
  {
    if conn.None? then s else s.(active := s.active - 1, closed := s.closed + {conn.value})
  }

  function SetOf(xs: seq<ConnId>): (r: set<ConnId>)
    ensures forall x :: x in r <==> x in xs
  {
    set i | 0 <= i < |xs| :: xs[i]
  }

  /** `close_all`: every idle connection is closed, and the active count is reset to zero. */
  function CloseAllStep(s: PoolState): (r: PoolState)
    ensures r.idle == [] && r.active == 0 && r.totalCreated == s.totalCreated
    ensures forall c :: c in r.closed <==> c in s.closed || c in s.idle
  {
    PoolState([], 0, s.totalCreated, s.closed + SetOf(s.idle))
  }

  lemma GetPreservesInv(s: PoolState, maxConnections: nat)
    requires PoolInv(s, maxConnections)
    ensures PoolInv(GetStep(s, maxConnections).0, maxConnections)
  {
  }

  /** A connection handed out is one the pool created, and the rest of the queue stays owned. */
  lemma GetReturnsCreated(s: PoolState, maxConnections: nat)
    requires IdleOwned(s)
    requires GetStep(s, maxConnections).1.Ok?
    ensures GetStep(s, maxConnections).1.value < GetStep(s, maxConnections).0.totalCreated
    ensures IdleOwned(GetStep(s, maxConnections).0)
  {
  }

  /** Any connection may be returned, even one from elsewhere, and the bounds still hold. */
  lemma ReturnPreservesInv(s: PoolState, maxConnections: nat, conn: Option<ConnId>, healthy: bool)
    requires PoolInv(s, maxConnections)
    ensures ReturnStep(s, maxConnections, conn, healthy).Ok? ==>
      PoolInv(ReturnStep(s, maxConnections, conn, healthy).value, maxConnections)
  {
  }

  /** Returning a connection of this pool keeps the queue owned. */
  lemma ReturnKeepsIdleOwned(s: PoolState, maxConnections: nat, c: ConnId, healthy: bool)
    requires IdleOwned(s) && c < s.totalCreated
    ensures IdleOwned(ReturnStep(s, maxConnections, Some(c), healthy).value)
  {
  }

  lemma CloseConnectionPreservesInv(s: PoolState, maxConnections: nat, conn: Option<ConnId>)
    requires PoolInv(s, maxConnections)
    ensures PoolInv(CloseStep(s, conn), maxConnections)
  {
  }

  /** `n` rounds of `get_connection` then `return_connection` of that (healthy) connection. */
  function Cycles(s: PoolState, maxConnections: nat, n: nat): PoolState
    decreases n
  {
    if n == 0 then s
    else
      var (s1, r) := GetStep(s, maxConnections);
      if r.Err? then s else Cycles(ReturnStep(s1, maxConnections, Some(r.value), true).value, maxConnections, n - 1)
  }

  /**
   * Getting and returning a connection any number of times creates exactly
   * one connection, which ends idle, with nothing checked out.
   */
  lemma {:induction false} CyclesReuseOneConnection(maxConnections: nat, n: nat)
    requires maxConnections > 0 && n > 0
    ensures Cycles(InitialState(), maxConnections, n) == PoolState([0], 0, 1, {})
  {
    CyclesFixpoint(maxConnections, n - 1);
  }

  lemma {:induction false} CyclesFixpoint(maxConnections: nat, n: nat)
    requires maxConnections > 0
    ensures Cycles(PoolState([0], 0, 1, {}), maxConnections, n) == PoolState([0], 0, 1, {})
  {
    var one := PoolState([0], 0, 1, {});
    assert one.idle[1..] == [];
    if n > 0 {
      CyclesFixpoint(maxConnections, n - 1);
    }
  }

  /**
   * `close_all` with a connection still checked out, then its return: the
   * active count goes below zero and the connection is queued again.
   */
  lemma CloseAllThenReturnGoesNegative(maxConnections: nat)
    requires maxConnections > 0
    ensures var (s1, r) := GetStep(InitialState(), maxConnections);
      && r == Ok(0)
      && ReturnStep(CloseAllStep(s1), maxConnections, Some(0), true) == Ok(PoolState([0], -1, 1, {}))
  {
    var s1 := GetStep(InitialState(), maxConnections).0;
    assert s1 == PoolState([], 1, 1, {});
    var s2 := CloseAllStep(s1);
    assert s2.closed == {};
    assert s2 == PoolState([], 0, 1, {});
    assert s2.idle + [0] == [0];
  }

  /**
   * `close_connection` does not take a connection out of the idle queue, so
   * a later `get_connection` can hand out a connection the pool has closed.
   */
  lemma ClosedConnectionCanBeHandedOut(maxConnections: nat)
    requires maxConnections > 0
    ensures var (s1, r1) := GetStep(InitialState(), maxConnections);
      var s2 := ReturnStep(s1, maxConnections, Some(0), true);
      r1 == Ok(0) && s2.Ok? &&
      var s3 := CloseStep(s2.value, Some(0));
      var (s4, r4) := GetStep(s3, maxConnections);
      r4 == Ok(0) && 0 in s4.closed
  {
    var (s1, r1) := GetStep(InitialState(), maxConnections);
    var s2 := ReturnStep(s1, maxConnections, Some(0), true);
    assert s2.value.idle == [0];
  }

  /** `get_pool_stats`: the four counters and the two settings it echoes. */
  datatype PoolStats = PoolStats(dbPath: string, activeConnections: int, poolSize: nat, maxConnections: nat,
                                 totalConnectionsCreated: nat, timeout: nat)

  class ConnectionPool {
    const dbPath: string
    const maxConnections: nat
    const timeout: nat
    var idle: seq<ConnId>
    var active: int
    var totalCreated: nat
    var closed: set<ConnId>

    function State(): PoolState
      reads this
    {
      PoolState(idle, active, totalCreated, closed)
    }

    predicate Valid()
      reads this
    {
      dbPath != [] && maxConnections > 0 && timeout > 0 && PoolInv(State(), maxConnections)
    }

    constructor (dbPath: string, maxConnections: nat, timeout: nat)
      requires dbPath != [] && maxConnections > 0 && timeout > 0
      ensures this.dbPath == dbPath && this.maxConnections == maxConnections && this.timeout == timeout
      ensures State() == InitialState() && Valid()
    {
      this.dbPath := dbPath;
      this.maxConnections := maxConnections;
      this.timeout := timeout;
      idle := [];
      active := 0;
      totalCreated := 0;
      closed := {};
    }

    /** `ConnectionPool(...)`: raises for an empty path, a non-positive maximum or a non-positive timeout. */
    static method New(dbPath: string, maxConnections: int, timeout: int) returns (r: Result<ConnectionPool, PoolError>)
      ensures dbPath == [] ==> r == Err(InvalidDbPath)
      ensures dbPath != [] && maxConnections <= 0 ==> r == Err(InvalidMaxConnections)
      ensures dbPath != [] && maxConnections > 0 && timeout <= 0 ==> r == Err(InvalidTimeout)
      ensures r.Ok? <==> dbPath != [] && maxConnections > 0 && timeout > 0
      ensures r.Ok? ==> fresh(r.value) && r.value.Valid()
      ensures r.Ok? ==> r.value.State() == InitialState() && r.value.dbPath == dbPath
      ensures r.Ok? ==> r.value.maxConnections == maxConnections && r.value.timeout == timeout
    {
      if dbPath == [] {
        return Err(InvalidDbPath);
      }
      if maxConnections <= 0 {
        return Err(InvalidMaxConnections);
      }
      if timeout <= 0 {
        return Err(InvalidTimeout);
      }
      var p := new ConnectionPool(dbPath, maxConnections, timeout);
      return Ok(p);
    }

    /** `get_connection`. */
    method GetConnection() returns (r: Result<ConnId, PoolError>)
      requires Valid()
      modifies this
      ensures Valid()
      ensures (State(), r) == GetStep(old(State()), maxConnections)
    {
      if idle != [] {
        var conn := idle[0];
        idle := idle[1..];
        active := active + 1;
        return Ok(conn);
      }
      if active < maxConnections {
        var conn := totalCreated;
        active := active + 1;
        totalCreated := totalCreated + 1;
        return Ok(conn);
      }
      return Err(Timeout);
    }

    /** `return_connection`; `healthy` is false when the connection was broken outside the pool. */
    method ReturnConnection(conn: Option<ConnId>, healthy: bool) returns (r: Result<(), PoolError>)
      requires Valid()
      modifies this
      ensures Valid()
      ensures conn.None? ==> r == Err(NoneConnection) && State() == old(State())
      ensures conn.Some? ==> r == Ok(()) && State() == ReturnStep(old(State()), maxConnections, conn, healthy).value
    {
      if conn.None? {
        return Err(NoneConnection);
      }
      var c := conn.value;
      if !healthy || c in closed {
        active := active - 1;
        return Ok(());
      }
      if |idle| < maxConnections {
        idle := idle + [c];
        active := active - 1;
      } else {
        closed := closed + {c};
        active := active - 1;
      }
      return Ok(());
    }

    /** `close_connection`. */
    method CloseConnection(conn: Option<ConnId>)
      requires Valid()
      modifies this
      ensures Valid()
      ensures State() == CloseStep(old(State()), conn)
    {
      if conn.None? {
        return;
      }
      closed := closed + {conn.value};
      active := active - 1;
    }

    /** `close_all`: drains the idle queue, closing each connection, then sets the active count to zero. */
    method CloseAll()
      requires Valid()
      modifies this
      ensures Valid()
      ensures State() == CloseAllStep(old(State()))
    {
      ghost var drained := idle;
      var i := 0;
      while idle != []
        invariant 0 <= i <= |drained|
        invariant idle == drained[i..]
        invariant closed == old(closed) + SetOf(drained[..i])
        invariant active == old(active) && totalCreated == old(totalCreated)
        decreases |idle|
      {
        var conn := idle[0];
        idle := idle[1..];
        assert drained[..i + 1] == drained[..i] + [conn];
        closed := closed + {conn};
        i := i + 1;
      }
      assert drained[..i] == drained;
      active := 0;
    }

    /**
     * `get_connection_context`: the connection acquired is returned however
     * the body ends; a body that raises passes its error on.
     */
    method GetConnectionContext(bodyRaises: bool, healthy: bool) returns (r: Result<ConnId, PoolError>)
      requires Valid()
      modifies this
      ensures Valid()
      ensures GetStep(old(State()), maxConnections).1.Err? ==> r == Err(Timeout) && State() == old(State())
      ensures GetStep(old(State()), maxConnections).1.Ok? ==>
        && State() == ReturnStep(GetStep(old(State()), maxConnections).0, maxConnections,
                                 Some(GetStep(old(State()), maxConnections).1.value), healthy).value
        && active == old(active)
        && (r.Ok? <==> !bodyRaises)
        && (bodyRaises ==> r == Err(BodyRaised))
    {
      var got := GetConnection();
      if got.Err? {
        return got;
      }
      var conn := got.value;
      var _ := ReturnConnection(Some(conn), healthy);
      if bodyRaises {
        return Err(BodyRaised);
      }
      return Ok(conn);
    }

    /** `get_pool_stats`. */
    method GetPoolStats() returns (stats: PoolStats)
      requires Valid()
      ensures stats == PoolStats(dbPath, active, |idle|, maxConnections, totalCreated, timeout)
      ensures stats.activeConnections + stats.poolSize <= stats.maxConnections
      ensures stats.activeConnections + stats.poolSize <= stats.totalConnectionsCreated
    {
      stats := PoolStats(dbPath, active, |idle|, maxConnections, totalCreated, timeout);
    }
  }
}
