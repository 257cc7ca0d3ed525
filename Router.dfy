/**
 * The router (`router.py`): it checks its arguments, sends a keyed
 * operation to the one shard the strategy picks, fans an unkeyed one out
 * over every shard in shard order, and merges what the shards answer.
 * Each shard's answer (its rows, its affected-row count, its aggregate
 * scalar) is an input of the model, indexed by shard id; every route
 * method also returns the statements it issued, in order. Connection
 * pools are built lazily, one per shard, from the shard registry of the
 * shard manager and the configured pool settings.
 */
module Router {
  import opened Wrappers
  import opened Values
  import opened Seqs
  import opened Sql
  import opened Merge
  import Strategy
  import Pool

  type Row = Entries

  datatype RouterError =
    | InvalidTable                                // table must be a non-empty string
    | InvalidRow                                  // row must be a dictionary
    | InvalidSetValues                            // set_values must be a dictionary
    | InvalidAggExpr                              // agg_expr must be a non-empty string
    | InvalidKey                                  // the strategy rejects the key
    | ShardNotFound(shard: int)                   // no (or empty) registry entry for the shard
    | MissingDbPath(shard: int)                   // the registry entry has no 'db_path'
    | PoolRejected(shard: int, reason: Pool.PoolError)  // ConnectionPool(...) raised
    | TypeError                                   // a shard answer that cannot be added

  /** The SUM and COUNT queries the average path sends to one shard, in that order. */
  function AveragePair(shard: int, table: string, column: string): seq<Statement>
  {
    [AggregateStatement(shard, table, "SUM(" + column + ")"),
     AggregateStatement(shard, table, "COUNT(" + column + ")")]
  }

  /** The average path's statements for shards `0 .. k - 1`. */
  function AverageStatements(table: string, column: string, k: nat): (ss: seq<Statement>)
    ensures |ss| == 2 * k
  {
    if k == 0 then [] else AverageStatements(table, column, k - 1) + AveragePair(k - 1, table, column)
  }

  /** The standard path's statements for shards `0 .. k - 1`: the expression itself on each. */
  function AggregateStatements(table: string, aggExpr: string, k: nat): (ss: seq<Statement>)
    ensures |ss| == k
  {
    if k == 0 then [] else AggregateStatements(table, aggExpr, k - 1) + [AggregateStatement(k - 1, table, aggExpr)]
  }

  /** The first `i` of the standard path's statements for `n` shards are its statements for `i` shards. */
  lemma {:induction false} AggregateStatementsPrefix(table: string, aggExpr: string, n: nat, i: nat)
    requires i <= n
    ensures AggregateStatements(table, aggExpr, n)[..i] == AggregateStatements(table, aggExpr, i)
    decreases n
  {
    if i < n {
      AggregateStatementsPrefix(table, aggExpr, n - 1, i);
      assert AggregateStatements(table, aggExpr, n)[..i] == AggregateStatements(table, aggExpr, n - 1)[..i];
    }
  }

  class Router {
    const strategy: Strategy.HashShardingStrategy
    /** `shard_manager.get_shard_info()`: a dict of facts per shard id. */
    const shardInfo: map<int, Entries>
    /** `shard_manager.config.max_connections_per_shard`. */
    const maxConnections: int
    /** `shard_manager.config.connection_timeout`. */
    const timeout: int
    /** `connection_pools`. */
    var pools: map<int, Pool.ConnectionPool>

    function NumShards(): nat
    {
      strategy.numShards
    }

    /** The shard `get_shard_id` picks for a valid key. */
    function ShardFor(key: Value): int
      requires Strategy.ValidateKey(key)
    {
      Strategy.ShardOf(strategy.numShards, IntOf(key))
    }

    /** The path `_get_connection_pool` builds a pool for, or why it raises. */
    function Setup(shard: int): Result<string, RouterError>
    {
      if shard !in shardInfo || shardInfo[shard] == [] then Err(ShardNotFound(shard))
      else match Lookup(shardInfo[shard], "db_path")
        case None => Err(MissingDbPath(shard))
        case Some(p) =>
          if !p.Str? || p.s == [] then Err(PoolRejected(shard, Pool.InvalidDbPath))
          else if maxConnections <= 0 then Err(PoolRejected(shard, Pool.InvalidMaxConnections))
          else if timeout <= 0 then Err(PoolRejected(shard, Pool.InvalidTimeout))
          else Ok(p.s)
    }

    /** Whether `_get_connection_pool` can build a pool for a shard. */
    function Builds(): int -> bool
    {
      shard => Setup(shard).Ok?
    }

    /** How many shards, from shard 0 on, an all-shard loop gets a pool for before one fails. */
    function Reach(): (k: nat)
      ensures k <= NumShards()
      ensures k < NumShards() ==> Setup(k).Err?
    {
      FirstFailure(Builds(), 0, NumShards())
    }

    /** `Reach` is the first shard without a pool: every shard before it gets one. */
    lemma ReachIsFirstFailure()
      ensures forall j :: 0 <= j < Reach() ==> Setup(j).Ok?
      ensures Reach() < NumShards() ==> Setup(Reach()).Err?
    {
      forall j | 0 <= j < Reach() ensures Setup(j).Ok? {
        FirstFailureIsFirst(Builds(), 0, NumShards(), j);
      }
    }

    /** A shard up to `Reach` whose pool can be built lies before it. */
    lemma ReachPast(i: nat)
      requires i < NumShards() && i <= Reach() && Setup(i).Ok?
      ensures i < Reach()
    {
    }

    /** A shard up to `Reach` whose pool cannot be built is `Reach`. */
    lemma ReachStops(i: nat)
      requires i < NumShards() && i <= Reach() && Setup(i).Err?
      ensures Reach() == i
    {
      if i < Reach() {
        FirstFailureIsFirst(Builds(), 0, NumShards(), i);
      }
    }

    /** Every cached pool was built from its shard's registry entry and the configured settings. */
    predicate Valid()
      reads this, pools.Values
    {
      forall shard :: shard in pools ==>
        && Setup(shard) == Ok(pools[shard].dbPath)
        && pools[shard].maxConnections == maxConnections
        && pools[shard].timeout == timeout
        && pools[shard].Valid()
    }

    /** The cache only grows: a pool, once built, stays the pool of its shard. */
    predicate Keeps(prev: map<int, Pool.ConnectionPool>)
      reads this
    {
      prev.Items <= pools.Items
    }

    constructor (strategy: Strategy.HashShardingStrategy, shardInfo: map<int, Entries>, maxConnections: int, timeout: int)
      ensures this.strategy == strategy && this.shardInfo == shardInfo
      ensures this.maxConnections == maxConnections && this.timeout == timeout
      ensures pools == map[] && Valid()
    {
      this.strategy := strategy;
      this.shardInfo := shardInfo;
      this.maxConnections := maxConnections;
      this.timeout := timeout;
      pools := map[];
    }

    /**
     * `_get_connection_pool`: the cached pool when there is one, otherwise a
     * new pool, cached, or the error that stopped its construction.
     */
    method GetConnectionPool(shard: int) returns (r: Result<Pool.ConnectionPool, RouterError>)
      requires Valid()
      modifies this
      ensures Valid() && Keeps(old(pools))
      ensures r.Ok? <==> Setup(shard).Ok?
      ensures r.Err? ==> r.error == Setup(shard).error && pools == old(pools)
      ensures shard in old(pools) ==> r == Ok(old(pools)[shard]) && pools == old(pools)
      ensures shard !in old(pools) && r.Ok? ==>
        && fresh(r.value) && r.value.State() == Pool.InitialState()
        && pools == old(pools)[shard := r.value]
      ensures r.Ok? ==> shard in pools && pools[shard] == r.value && r.value.Valid()
    {
      if shard in pools {
        return Ok(pools[shard]);
      }
      if shard !in shardInfo || shardInfo[shard] == [] {
        return Err(ShardNotFound(shard));
      }
      var dbPath := Lookup(shardInfo[shard], "db_path");
      if dbPath.None? {
        return Err(MissingDbPath(shard));
      }
      if !dbPath.value.Str? {
        // the `isinstance(db_path, str)` test of the pool constructor
        return Err(PoolRejected(shard, Pool.InvalidDbPath));
      }
      var made := Pool.ConnectionPool.New(dbPath.value.s, maxConnections, timeout);
      if made.Err? {
        return Err(PoolRejected(shard, made.error));
      }
      pools := pools[shard := made.value];
      return Ok(made.value);
    }

    /**
     * `_get_connection_pool` as the all-shard loops use it, shard by shard
     * from shard 0: they go on to the shard's query when it returns and stop
     * with its error when it raises, so the first shard without a pool is
     * where every such loop stops.
     */
    method AcquirePool(shard: nat) returns (r: Result<(), RouterError>)
      requires Valid() && shard < NumShards() && shard <= Reach()
      modifies this
      ensures Valid() && Keeps(old(pools))
      ensures r.Ok? <==> shard < Reach()
      ensures r.Err? ==> shard == Reach() && r.error == Setup(shard).error
    {
      var pool := GetConnectionPool(shard);
      if pool.Err? {
        ReachStops(shard);
        return Err(pool.error);
      }
      ReachPast(shard);
      return Ok(());
    }

    /** `get_connection_for_key`. */
    method GetConnectionForKey(key: Value) returns (r: Result<Pool.ConnectionPool, RouterError>)
      requires Valid()
      modifies this
      ensures Valid() && Keeps(old(pools))
      ensures !Strategy.ValidateKey(key) ==> r == Err(InvalidKey) && pools == old(pools)
      ensures Strategy.ValidateKey(key) ==>
        && (r.Ok? <==> Setup(ShardFor(key)).Ok?)
        && (r.Ok? ==> ShardFor(key) in pools && r.value == pools[ShardFor(key)])
        && (r.Err? ==> r.error == Setup(ShardFor(key)).error)
    {
      if !strategy.GetShardId(key).Ok? {
        return Err(InvalidKey);
      }
      var shard := strategy.GetShardId(key).value;
      r := GetConnectionPool(shard);
    }

    /** What a keyed operation yields: the answer of the key's shard, if it has a pool. */
    predicate RoutedTo<T(==)>(key: Value, r: Result<T, RouterError>, issued: seq<Statement>, answer: T, statement: Statement)
      requires Strategy.ValidateKey(key)
    {
      && (Setup(ShardFor(key)).Err? ==> r == Err(Setup(ShardFor(key)).error) && issued == [])
      && (Setup(ShardFor(key)).Ok? ==> r == Ok(answer) && issued == [statement])
    }

    /**
     * What a loop over all shards yields: the merged answer when every shard
     * has a pool, else the error of the first shard without one; a statement
     * for each shard reached.
     */
    predicate FannedOut<T(==)>(r: Result<T, RouterError>, issued: seq<Statement>, merged: T, statements: seq<Statement>)
      requires |statements| == NumShards()
    {
      && issued == statements[..Reach()]
      && (Reach() < NumShards() ==> r == Err(Setup(Reach()).error))
      && (Reach() == NumShards() ==> r == Ok(merged))
    }

    // ---------------------------------------------------------------- insert

    /** `route_insert`: one INSERT on the key's shard. */
    method RouteInsert(table: string, row: Value, key: Value) returns (r: Result<(), RouterError>, issued: seq<Statement>)
      requires Valid()
      modifies this
      ensures Valid() && Keeps(old(pools))
      ensures table == [] ==> r == Err(InvalidTable)
      ensures table != [] && !row.Dict? ==> r == Err(InvalidRow)
      ensures table != [] && row.Dict? && !Strategy.ValidateKey(key) ==> r == Err(InvalidKey)
      ensures table != [] && row.Dict? && Strategy.ValidateKey(key) ==>
        RoutedTo(key, r, issued, (), InsertStatement(ShardFor(key), table, row.entries))
      ensures r.Err? ==> issued == []
    {
      issued := [];
      if table == [] {
        return Err(InvalidTable), issued;
      }
      if !row.Dict? {
        return Err(InvalidRow), issued;
      }
      if !Strategy.ValidateKey(key) {
        return Err(InvalidKey), issued;
      }
      var shard := strategy.GetShardId(key).value;
      var pool := GetConnectionPool(shard);
      if pool.Err? {
        return Err(pool.error), issued;
      }
      issued := [InsertStatement(shard, table, row.entries)];
      r := Ok(());
    }

    // ---------------------------------------------------------------- select

    /**
     * `route_select`: with a key, the rows of the key's shard; without one
     * (`key` is `Null`), the rows of every shard, concatenated in shard order.
     */
    method RouteSelect(table: string, where: Entries, key: Value, replies: seq<seq<Row>>)
      returns (r: Result<seq<Row>, RouterError>, issued: seq<Statement>)
      requires Valid() && |replies| == NumShards()
      modifies this
      ensures Valid() && Keeps(old(pools))
      ensures table == [] ==> r == Err(InvalidTable) && issued == []
      ensures table != [] && !key.Null? && !Strategy.ValidateKey(key) ==> r == Err(InvalidKey) && issued == []
      ensures table != [] && !key.Null? && Strategy.ValidateKey(key) ==>
        RoutedTo(key, r, issued, replies[ShardFor(key)], SelectStatement(ShardFor(key), table, where))
      ensures table != [] && key.Null? ==>
        FannedOut(r, issued, Concat(replies), seq(NumShards(), i => SelectStatement(i, table, where)))
    {
      issued := [];
      if table == [] {
        return Err(InvalidTable), issued;
      }
      if !key.Null? {
        if !Strategy.ValidateKey(key) {
          return Err(InvalidKey), issued;
        }
        var shard := strategy.GetShardId(key).value;
        var pool := GetConnectionPool(shard);
        if pool.Err? {
          return Err(pool.error), issued;
        }
        issued := [SelectStatement(shard, table, where)];
        return Ok(replies[shard]), issued;
      }
      r, issued := CollectAllShards(seq(NumShards(), i => SelectStatement(i, table, where)), replies);
    }

    /**
     * The loop of `route_select` over `get_all_shard_ids()`: shard by shard,
     * get the pool, issue the shard's statement and append its rows.
     */
    method CollectAllShards<T(==)>(statements: seq<Statement>, replies: seq<seq<T>>)
      returns (r: Result<seq<T>, RouterError>, issued: seq<Statement>)
      requires Valid() && |statements| == |replies| == NumShards()
      modifies this
      ensures Valid() && Keeps(old(pools))
      ensures FannedOut(r, issued, Concat(replies), statements)
    {
      issued := [];
      var ids := strategy.GetAllShardIds();
      var results: seq<T> := [];
      var i := 0;
      while i < |ids|
        invariant 0 <= i <= |ids| == NumShards()
        invariant Valid() && Keeps(old(pools))
        invariant i <= Reach()
        invariant results == ConcatUpTo(replies, i)
        invariant issued == Take(statements, i)
      {
        var shard := i;  // `ids[i]`, since `ids` is `0, 1, ..., NumShards() - 1`
        var pool := AcquirePool(shard);
        if pool.Err? {
          TakeIsPrefix(statements, i);
          return Err(pool.error), issued;
        }
        issued := issued + [statements[shard]];
        results := results + replies[shard];
        i := i + 1;
      }
      ConcatUpToAll(replies, i);
      TakeIsPrefix(statements, i);
      assert replies[..i] == replies;
      r := Ok(results);
    }

    /**
     * The loop of `route_update` and `route_delete` over
     * `get_all_shard_ids()`: shard by shard, get the pool, issue the shard's
     * statement and add its affected-row count.
     */
    method SumAllShards(statements: seq<Statement>, counts: seq<int>)
      returns (r: Result<int, RouterError>, issued: seq<Statement>)
      requires Valid() && |statements| == |counts| == NumShards()
      modifies this
      ensures Valid() && Keeps(old(pools))
      ensures FannedOut(r, issued, Sum(counts), statements)
    {
      issued := [];
      var ids := strategy.GetAllShardIds();
      var totalAffected := 0;
      var i := 0;
      while i < |ids|
        invariant 0 <= i <= |ids| == NumShards()
        invariant Valid() && Keeps(old(pools))
        invariant i <= Reach()
        invariant totalAffected == SumUpTo(counts, i)
        invariant issued == Take(statements, i)
      {
        var shard := i;  // `ids[i]`, since `ids` is `0, 1, ..., NumShards() - 1`
        var pool := AcquirePool(shard);
        if pool.Err? {
          TakeIsPrefix(statements, i);
          return Err(pool.error), issued;
        }
        issued := issued + [statements[shard]];
        totalAffected := totalAffected + counts[shard];
        i := i + 1;
      }
      SumUpToAll(counts, i);
      TakeIsPrefix(statements, i);
      assert counts[..i] == counts;
      r := Ok(totalAffected);
    }

    // ---------------------------------------------------------- update, delete

    /**
     * `route_update`: with a key, the affected count of the key's shard;
     * without one, the sum of every shard's affected count.
     */
    method RouteUpdate(table: string, setValues: Value, where: Entries, key: Value, counts: seq<int>)
      returns (r: Result<int, RouterError>, issued: seq<Statement>)
      requires Valid() && |counts| == NumShards()
      modifies this
      ensures Valid() && Keeps(old(pools))
      ensures table == [] ==> r == Err(InvalidTable) && issued == []
      ensures table != [] && !setValues.Dict? ==> r == Err(InvalidSetValues) && issued == []
      ensures table != [] && setValues.Dict? && !key.Null? && !Strategy.ValidateKey(key) ==>
        r == Err(InvalidKey) && issued == []
      ensures table != [] && setValues.Dict? && !key.Null? && Strategy.ValidateKey(key) ==>
        RoutedTo(key, r, issued, counts[ShardFor(key)], UpdateStatement(ShardFor(key), table, setValues.entries, where))
      ensures table != [] && setValues.Dict? && key.Null? ==>
        FannedOut(r, issued, Sum(counts), seq(NumShards(), i => UpdateStatement(i, table, setValues.entries, where)))
    {
      issued := [];
      if table == [] {
        return Err(InvalidTable), issued;
      }
      if !setValues.Dict? {
        return Err(InvalidSetValues), issued;
      }
      if !key.Null? {
        if !Strategy.ValidateKey(key) {
          return Err(InvalidKey), issued;
        }
        var shard := strategy.GetShardId(key).value;
        var pool := GetConnectionPool(shard);
        if pool.Err? {
          return Err(pool.error), issued;
        }
        issued := [UpdateStatement(shard, table, setValues.entries, where)];
        return Ok(counts[shard]), issued;
      }
      r, issued := SumAllShards(seq(NumShards(), i => UpdateStatement(i, table, setValues.entries, where)), counts);
    }

    /**
     * `route_delete`: with a key, the affected count of the key's shard;
     * without one, the sum of every shard's affected count.
     */
    method RouteDelete(table: string, where: Entries, key: Value, counts: seq<int>)
      returns (r: Result<int, RouterError>, issued: seq<Statement>)
      requires Valid() && |counts| == NumShards()
      modifies this
      ensures Valid() && Keeps(old(pools))
      ensures table == [] ==> r == Err(InvalidTable) && issued == []
      ensures table != [] && !key.Null? && !Strategy.ValidateKey(key) ==> r == Err(InvalidKey) && issued == []
      ensures table != [] && !key.Null? && Strategy.ValidateKey(key) ==>
        RoutedTo(key, r, issued, counts[ShardFor(key)], DeleteStatement(ShardFor(key), table, where))
      ensures table != [] && key.Null? ==>
        FannedOut(r, issued, Sum(counts), seq(NumShards(), i => DeleteStatement(i, table, where)))
    {
      issued := [];
      if table == [] {
        return Err(InvalidTable), issued;
      }
      if !key.Null? {
        if !Strategy.ValidateKey(key) {
          return Err(InvalidKey), issued;
        }
        var shard := strategy.GetShardId(key).value;
        var pool := GetConnectionPool(shard);
        if pool.Err? {
          return Err(pool.error), issued;
        }
        issued := [DeleteStatement(shard, table, where)];
        return Ok(counts[shard]), issued;
      }
      r, issued := SumAllShards(seq(NumShards(), i => DeleteStatement(i, table, where)), counts);
    }
  

    // ------------------------------------------------------------- aggregate

    /**
     * What the average path yields, with `k` the first shard without a pool
     * and `f` the first shard whose SUM or COUNT reply cannot be added: the
     * pool error when `k` comes first, a `TypeError` when `f` does, and
     * otherwise the quotient of the two totals. Each shard reached issues
     * its SUM and its COUNT query before either is added.
     */
    predicate Averaged(r: Result<Entries, RouterError>, issued: seq<Statement>,
                       table: string, aggExpr: string, sums: seq<Value>, counts: seq<Value>)
      requires |sums| == |counts| == NumShards()
    {
      var k := Reach();
      var f := FirstUnaddable(sums, counts);
      && (k < NumShards() && k <= f ==>
            r == Err(Setup(k).error) && issued == AverageStatements(table, AggColumn(aggExpr), k))
      && (f < k ==>
            r == Err(TypeError) && issued == AverageStatements(table, AggColumn(aggExpr), f + 1))
      && (k == NumShards() && f == NumShards() ==>
            && r == Ok([(aggExpr, AverageOf(Total(sums), Total(counts)))])
            && issued == AverageStatements(table, AggColumn(aggExpr), NumShards()))
    }

    /** The pool error of shard `i` is what the average path yields when no earlier shard failed. */
    lemma AveragedAtPoolError(r: Result<Entries, RouterError>, issued: seq<Statement>,
                              table: string, aggExpr: string, sums: seq<Value>, counts: seq<Value>, i: nat)
      requires |sums| == |counts| == NumShards() && i < NumShards()
      requires i == Reach() && i <= FirstUnaddable(sums, counts)
      requires r == Err(Setup(i).error) && issued == AverageStatements(table, AggColumn(aggExpr), i)
      ensures Averaged(r, issued, table, aggExpr, sums, counts)
    {
    }

    /** A reply of shard `i` that cannot be added, after its own queries went out, yields a `TypeError`. */
    lemma AveragedAtTypeError(r: Result<Entries, RouterError>, issued: seq<Statement>,
                              table: string, aggExpr: string, sums: seq<Value>, counts: seq<Value>, i: nat)
      requires |sums| == |counts| == NumShards() && i < NumShards()
      requires i < Reach() && i <= FirstUnaddable(sums, counts)
      requires !(Addable(sums[i]) && Addable(counts[i]))
      requires r == Err(TypeError) && issued == AverageStatements(table, AggColumn(aggExpr), i + 1)
      ensures Averaged(r, issued, table, aggExpr, sums, counts)
    {
      FirstUnaddableStops(sums, counts, i);
    }

    /**
     * `route_aggregate`: checks its arguments and dispatches on the function
     * name of the expression. The replies are what each shard answers to the
     * queries of each path: `sums[i]` and `counts[i]` to the SUM and COUNT
     * queries of the average path, `columns[i]` to the non-null column query
     * of the MAX/MIN path, `scalars[i]` to the expression itself.
     */
    method RouteAggregate(table: string, aggExpr: string,
                          sums: seq<Value>, counts: seq<Value>, columns: seq<seq<int>>, scalars: seq<Value>)
      returns (r: Result<Entries, RouterError>, issued: seq<Statement>)
      requires Valid()
      requires |sums| == |counts| == |columns| == |scalars| == NumShards()
      modifies this
      ensures Valid() && Keeps(old(pools))
      ensures table == [] ==> r == Err(InvalidTable) && issued == []
      ensures table != [] && aggExpr == [] ==> r == Err(InvalidAggExpr) && issued == []
      ensures table != [] && aggExpr != [] && KindOf(aggExpr) == Average ==>
        Averaged(r, issued, table, aggExpr, sums, counts)
      ensures table != [] && aggExpr != [] && KindOf(aggExpr) == Extremum ==>
        FannedOut(r, issued, [(aggExpr, ExtremumOf(AggType(aggExpr) == "MAX", Concat(columns)))],
                  seq(NumShards(), i => NonNullStatement(i, table, AggColumn(aggExpr))))
      ensures table != [] && aggExpr != [] && KindOf(aggExpr) == Standard ==>
        FannedOut(r, issued, [(aggExpr, StandardFold(scalars))],
                  AggregateStatements(table, aggExpr, NumShards()))
    {
      issued := [];
      if table == [] {
        return Err(InvalidTable), issued;
      }
      if aggExpr == [] {
        return Err(InvalidAggExpr), issued;
      }
      var kind := KindOf(aggExpr);
      if kind == Average {
        r, issued := HandleAverage(table, aggExpr, sums, counts);
      } else if kind == Extremum {
        r, issued := HandleExtremum(table, aggExpr, columns);
      } else {
        r, issued := HandleStandard(table, aggExpr, scalars);
      }
    }

    /** `_handle_average_aggregation`. */
    method HandleAverage(table: string, aggExpr: string, sums: seq<Value>, counts: seq<Value>)
      returns (r: Result<Entries, RouterError>, issued: seq<Statement>)
      requires Valid() && |sums| == |counts| == NumShards()
      modifies this
      ensures Valid() && Keeps(old(pools))
      ensures Averaged(r, issued, table, aggExpr, sums, counts)
    {
      var column := AggColumn(aggExpr);
      issued := [];
      var ids := strategy.GetAllShardIds();
      var totalSum := 0.0;
      var totalCount := 0.0;
      var i := 0;
      while i < |ids|
        invariant 0 <= i <= |ids| == NumShards()
        invariant Valid() && Keeps(old(pools))
        invariant i <= Reach() && i <= FirstUnaddable(sums, counts)
        invariant totalSum == TotalUpTo(sums, i) && totalCount == TotalUpTo(counts, i)
        invariant issued == AverageStatements(table, column, i)
      {
        var shard := i;  // `ids[i]`, since `ids` is `0, 1, ..., NumShards() - 1`
        var pool := AcquirePool(shard);
        if pool.Err? {
          r := Err(pool.error);
          AveragedAtPoolError(r, issued, table, aggExpr, sums, counts, i);
          return;
        }
        issued := issued + AveragePair(shard, table, column);
        if !(Addable(sums[shard]) && Addable(counts[shard])) {
          r := Err(TypeError);
          AveragedAtTypeError(r, issued, table, aggExpr, sums, counts, i);
          return;
        }
        FirstUnaddablePast(sums, counts, i);
        totalSum := totalSum + Contribution(sums[shard]);
        totalCount := totalCount + Contribution(counts[shard]);
        i := i + 1;
      }
      TotalUpToAll(sums);
      TotalUpToAll(counts);
      r := Ok([(aggExpr, AverageOf(totalSum, totalCount))]);
    }

    /** `_handle_maxmin_aggregation`: every non-null value of the column, then the largest or smallest. */
    method HandleExtremum(table: string, aggExpr: string, columns: seq<seq<int>>)
      returns (r: Result<Entries, RouterError>, issued: seq<Statement>)
      requires Valid() && |columns| == NumShards()
      modifies this
      ensures Valid() && Keeps(old(pools))
      ensures FannedOut(r, issued, [(aggExpr, ExtremumOf(AggType(aggExpr) == "MAX", Concat(columns)))],
                        seq(NumShards(), i => NonNullStatement(i, table, AggColumn(aggExpr))))
    {
      var isMax := AggType(aggExpr) == "MAX";
      var column := AggColumn(aggExpr);
      var allValues;
      allValues, issued := CollectAllShards(seq(NumShards(), i => NonNullStatement(i, table, column)), columns);
      if allValues.Err? {
        return Err(allValues.error), issued;
      }
      r := Ok([(aggExpr, ExtremumOf(isMax, allValues.value))]);
    }

    /**
     * `_handle_standard_aggregation`: the first shard's reply, then each
     * later reply added to it when both are numbers or put in its place
     * otherwise.
     */
    method HandleStandard(table: string, aggExpr: string, scalars: seq<Value>)
      returns (r: Result<Entries, RouterError>, issued: seq<Statement>)
      requires Valid() && |scalars| == NumShards()
      modifies this
      ensures Valid() && Keeps(old(pools))
      ensures FannedOut(r, issued, [(aggExpr, StandardFold(scalars))],
                        AggregateStatements(table, aggExpr, NumShards()))
    {
      issued := [];
      var ids := strategy.GetAllShardIds();
      var results: Entries := [];
      var i := 0;
      while i < |ids|
        invariant 0 <= i <= |ids| == NumShards()
        invariant Valid() && Keeps(old(pools))
        invariant i <= Reach()
        invariant i == 0 ==> results == []
        invariant i > 0 ==> results == [(aggExpr, StandardFold(scalars[..i]))]
        invariant issued == AggregateStatements(table, aggExpr, i)
      {
        var shard := i;  // `ids[i]`, since `ids` is `0, 1, ..., NumShards() - 1`
        var pool := AcquirePool(shard);
        if pool.Err? {
          AggregateStatementsPrefix(table, aggExpr, NumShards(), i);
          return Err(pool.error), issued;
        }
        issued := issued + [AggregateStatement(shard, table, aggExpr)];
        if i == 0 {
          assert scalars[..1] == [scalars[0]];
        } else {
          StandardFoldStep(scalars, i);
        }
        results := MergeReply(results, aggExpr, scalars[shard]);
        i := i + 1;
      }
      assert scalars[..i] == scalars;
      AggregateStatementsPrefix(table, aggExpr, NumShards(), i);
      r := Ok(results);
    }
  }
}
