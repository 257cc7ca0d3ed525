/**
 * `ShardliteConfig` (`config.py`): five validated settings plus any extra
 * keyword arguments, built from keyword arguments or a dict, turned back
 * into a dict, compared by that dict, and asked for shard file paths. The
 * fields are set once, by the constructor, so a configuration is a value.
 */
module ShardConfig {
  import opened Wrappers
  import opened Values
  import opened Text
  import Helpers

  datatype ConfigError = InvalidConfiguration | InvalidShardId(id: int)

  const NumShardsKey := "num_shards"
  const DbDirKey := "db_dir"
  const TimeoutKey := "connection_timeout"
  const AutoCreateKey := "auto_create_dirs"
  const MaxConnsKey := "max_connections_per_shard"

  /** The constructor's named parameters; any other keyword lands in `additional`. */
  const ParamNames: set<string> := {NumShardsKey, DbDirKey, TimeoutKey, AutoCreateKey, MaxConnsKey}

  /** The settings may hold any value; `Validate` decides whether they are acceptable. */
  datatype Config = Config(
    numShards: Value,
    dbDir: Value,
    connectionTimeout: Value,
    autoCreateDirs: Value,
    maxConnectionsPerShard: Value,
    additional: Entries)

  predicate PositiveInt(v: Value) { IsInt(v) && IntOf(v) > 0 }

  /** `validate`: the chain of type and range checks of the Python `validate`, in its order. */
  predicate Validate(c: Config)
  {
    if !PositiveInt(c.numShards) then false
    else if !(c.dbDir.Str? && c.dbDir.s != []) then false
    else if !PositiveInt(c.connectionTimeout) then false
    else if !c.autoCreateDirs.Bool? then false
    else if !PositiveInt(c.maxConnectionsPerShard) then false
    else true
  }

  /** A configuration the constructor let through. */
  type ValidConfig = c: Config | Validate(c)
    witness Config(Int(4), Str("./data"), Int(30), Bool(true), Int(10), [])

  /** `validate` fails iff some setting is of the wrong type or out of range. */
  lemma ValidateExact(c: Config)
    ensures !Validate(c) <==>
      || !IsInt(c.numShards) || IntOf(c.numShards) <= 0
      || !c.dbDir.Str? || c.dbDir.s == []
      || !IsInt(c.connectionTimeout) || IntOf(c.connectionTimeout) <= 0
      || !c.autoCreateDirs.Bool?
      || !IsInt(c.maxConnectionsPerShard) || IntOf(c.maxConnectionsPerShard) <= 0
  {
  }

  /** No keyword argument can bind one of the named parameters a second time. */
  predicate ExtraKeywords(kwargs: Entries)
  {
    forall i :: 0 <= i < |kwargs| ==> kwargs[i].0 !in ParamNames
  }

  /** `ShardliteConfig(...)`: raises ValueError exactly when `validate` fails. */
  function New(numShards: Value, dbDir: Value, connectionTimeout: Value, autoCreateDirs: Value,
               maxConnectionsPerShard: Value, kwargs: Entries): (r: Result<ValidConfig, ConfigError>)
    requires ExtraKeywords(kwargs)
    ensures var c := Config(numShards, dbDir, connectionTimeout, autoCreateDirs, maxConnectionsPerShard, kwargs);
      && (r.Ok? <==> Validate(c))
      && (r.Ok? ==> r.value == c)
      && (r.Err? ==> r.error == InvalidConfiguration)
  {
    var c := Config(numShards, dbDir, connectionTimeout, autoCreateDirs, maxConnectionsPerShard, kwargs);
    if Validate(c) then Ok(c) else Err(InvalidConfiguration)
  }

  /** The defaults `ShardliteConfig()` uses. */
  function Default(): (c: ValidConfig)
    ensures c.numShards == Int(4) && c.dbDir == Str("./data") && c.connectionTimeout == Int(30)
    ensures c.autoCreateDirs == Bool(true) && c.maxConnectionsPerShard == Int(10)
    ensures c.additional == []
  {
    Config(Int(4), Str("./data"), Int(30), Bool(true), Int(10), [])
  }

  /** `d.get(k, default)`. */
  function GetOr(d: Entries, k: string, default: Value): (v: Value)
    ensures HasKey(d, k) ==> Lookup(d, k) == Some(v)
    ensures !HasKey(d, k) ==> v == default
  {
    match Lookup(d, k)
    case Some(v) => v
    case None => default
  }

  /** The entries whose key is not one of the named parameters, in order. */
  function Extra(d: Entries): (r: Entries)
    ensures ExtraKeywords(r)
    ensures ExtraKeywords(d) ==> r == d
  {
    if d == [] then []
    else (if d[0].0 in ParamNames then [] else [d[0]]) + Extra(d[1..])
  }

  /**
   * How `cls(**config_dict)` binds a dict: each named key present gives its
   * parameter, an absent one leaves the constructor's default, and every
   * other key lands in the extra keywords.
   */
  function Bind(d: Entries): (c: Config)
    ensures HasKey(d, NumShardsKey) ==> Lookup(d, NumShardsKey) == Some(c.numShards)
    ensures HasKey(d, DbDirKey) ==> Lookup(d, DbDirKey) == Some(c.dbDir)
    ensures HasKey(d, TimeoutKey) ==> Lookup(d, TimeoutKey) == Some(c.connectionTimeout)
    ensures HasKey(d, AutoCreateKey) ==> Lookup(d, AutoCreateKey) == Some(c.autoCreateDirs)
    ensures HasKey(d, MaxConnsKey) ==> Lookup(d, MaxConnsKey) == Some(c.maxConnectionsPerShard)
    ensures !HasKey(d, NumShardsKey) ==> c.numShards == Default().numShards
    ensures !HasKey(d, DbDirKey) ==> c.dbDir == Default().dbDir
    ensures !HasKey(d, TimeoutKey) ==> c.connectionTimeout == Default().connectionTimeout
    ensures !HasKey(d, AutoCreateKey) ==> c.autoCreateDirs == Default().autoCreateDirs
    ensures !HasKey(d, MaxConnsKey) ==> c.maxConnectionsPerShard == Default().maxConnectionsPerShard
    ensures c.additional == Extra(d) && ExtraKeywords(c.additional)
  {
    var dflt := Default();
    Config(GetOr(d, NumShardsKey, dflt.numShards), GetOr(d, DbDirKey, dflt.dbDir),
           GetOr(d, TimeoutKey, dflt.connectionTimeout), GetOr(d, AutoCreateKey, dflt.autoCreateDirs),
           GetOr(d, MaxConnsKey, dflt.maxConnectionsPerShard), Extra(d))
  }

  /** `load_from_dict`: the bound configuration, if `validate` accepts it. */
  function LoadFromDict(d: Entries): (r: Result<ValidConfig, ConfigError>)
    ensures r.Ok? <==> Validate(Bind(d))
    ensures r.Ok? ==> r.value == Bind(d)
    ensures r.Err? ==> r.error == InvalidConfiguration
  {
    var c := Bind(d);
    New(c.numShards, c.dbDir, c.connectionTimeout, c.autoCreateDirs, c.maxConnectionsPerShard, c.additional)
  }

  /** `to_dict`: the five settings, then the extra keywords. */
  function ToDict(c: Config): (d: Entries)
    ensures KeysOf(d) == [NumShardsKey, DbDirKey, TimeoutKey, AutoCreateKey, MaxConnsKey] + KeysOf(c.additional)
  {
    Named(c) + c.additional
  }

  /**
   * Python's `==` on two values: numbers compare by value (`1 == 1.0 == True`),
   * lists element by element, dicts key by key in any order, and the others
   * structurally.
   */
  predicate PyEq(a: Value, b: Value)
    decreases a, 1
  {
    if IsNumber(a) && IsNumber(b) then NumOf(a) == NumOf(b)
    else if a.List? && b.List? then
      |a.items| == |b.items| && forall i :: 0 <= i < |a.items| ==> PyEq(a.items[i], b.items[i])
    else if a.Dict? && b.Dict? then DictEq(a.entries, b.entries)
    else a == b
  }

  /** Entry `i` is the first with its key, so it is the one `d[key]` reads. */
  predicate FirstWithKey(d: Entries, i: nat)
    requires i < |d|
  {
    forall j :: 0 <= j < i ==> d[j].0 != d[i].0
  }

  /** Python's `==` on two dicts: the same keys, with equal values, in any order. */
  predicate DictEq(a: Entries, b: Entries)
    decreases Dict(a), 0
  {
    && (forall i :: 0 <= i < |a| && FirstWithKey(a, i) ==>
          Lookup(b, a[i].0).Some? && PyEq(a[i].1, Lookup(b, a[i].0).value))
    && (forall i :: 0 <= i < |b| ==> Lookup(a, b[i].0).Some?)
  }

  /** `__eq__`: two configurations are equal when their dicts are. */
  predicate Equal(a: Config, b: Config)
  {
    DictEq(ToDict(a), ToDict(b))
  }

  lemma {:induction false} LookupPresent(d: Entries, i: nat)
    requires i < |d|
    ensures Lookup(d, d[i].0).Some?
  {
    assert KeysOf(d)[i] == d[i].0;
  }

  /** `d[key]` reads the first entry with that key. */
  lemma {:induction false} LookupFirst(d: Entries, i: nat)
    requires i < |d| && FirstWithKey(d, i)
    ensures Lookup(d, d[i].0) == Some(d[i].1)
  {
    if i > 0 {
      assert d[0].0 != d[i].0;
      assert FirstWithKey(d[1..], i - 1) by {
        forall j | 0 <= j < i - 1 ensures d[1..][j].0 != d[1..][i - 1].0 {
          assert d[1..][j] == d[j + 1];
        }
      }
      LookupFirst(d[1..], i - 1);
    }
  }

  /** Every value equals itself under Python's `==`. */
  lemma {:induction false} PyEqReflexive(v: Value)
    ensures PyEq(v, v)
    decreases v, 1
  {
    if IsNumber(v) {
    } else if v.List? {
      forall i | 0 <= i < |v.items| ensures PyEq(v.items[i], v.items[i]) {
        PyEqReflexive(v.items[i]);
      }
    } else if v.Dict? {
      DictEqReflexive(v.entries);
    }
  }

  /** Every dict equals itself under Python's `==`. */
  lemma {:induction false} DictEqReflexive(d: Entries)
    ensures DictEq(d, d)
    decreases Dict(d), 0
  {
    forall i | 0 <= i < |d| && FirstWithKey(d, i)
      ensures Lookup(d, d[i].0).Some? && PyEq(d[i].1, Lookup(d, d[i].0).value)
    {
      LookupFirst(d, i);
      PyEqReflexive(d[i].1);
    }
    forall i | 0 <= i < |d| ensures Lookup(d, d[i].0).Some? {
      LookupPresent(d, i);
    }
  }

  /** A configuration equals itself under `__eq__`. */
  lemma EqualReflexive(c: Config)
    ensures Equal(c, c)
  {
    DictEqReflexive(ToDict(c));
  }

  /** The index of the entry `d[key]` reads. */
  function KeyIndex(d: Entries, k: string): (j: nat)
    requires HasKey(d, k)
    ensures j < |d| && d[j].0 == k && FirstWithKey(d, j)
  {
    if d[0].0 == k then 0
    else
      var j := KeyIndex(d[1..], k);
      assert forall m :: 0 < m <= j ==> d[m] == d[1..][m - 1];
      1 + j
  }

  /** Python's `==` is symmetric on values. */
  lemma {:induction false} PyEqSymmetric(a: Value, b: Value)
    requires PyEq(a, b)
    ensures PyEq(b, a)
    decreases a, 1
  {
    if IsNumber(a) && IsNumber(b) {
    } else if a.List? && b.List? {
      forall i | 0 <= i < |b.items| ensures PyEq(b.items[i], a.items[i]) {
        PyEqSymmetric(a.items[i], b.items[i]);
      }
    } else if a.Dict? && b.Dict? {
      DictEqSymmetric(a.entries, b.entries);
    }
  }

  /** Python's `==` is symmetric on dicts. */
  lemma {:induction false} DictEqSymmetric(a: Entries, b: Entries)
    requires DictEq(a, b)
    ensures DictEq(b, a)
    decreases Dict(a), 0
  {
    forall i | 0 <= i < |b| && FirstWithKey(b, i)
      ensures Lookup(a, b[i].0).Some? && PyEq(b[i].1, Lookup(a, b[i].0).value)
    {
      var k := b[i].0;
      var j := KeyIndex(a, k);
      LookupFirst(a, j);
      LookupFirst(b, i);
      PyEqSymmetric(a[j].1, b[i].1);
    }
    forall i | 0 <= i < |a| ensures Lookup(b, a[i].0).Some? {
      LookupPresent(a, i);
      var j := KeyIndex(a, a[i].0);
    }
  }

  /** `__eq__` is symmetric. */
  lemma EqualSymmetric(a: Config, b: Config)
    requires Equal(a, b)
    ensures Equal(b, a)
  {
    DictEqSymmetric(ToDict(a), ToDict(b));
  }

  /**
   * `__eq__` compares nested values the Python way: `[1] == [1.0]`, and two
   * dicts holding the same items in another order are equal.
   */
  lemma NestedEquality()
    ensures PyEq(List([Int(1)]), List([Float(1.0)]))
    ensures PyEq(Dict([("a", Int(1)), ("b", Int(2))]), Dict([("b", Int(2)), ("a", Bool(true))]))
    ensures !PyEq(Dict([("a", Int(1))]), Dict([("a", Int(1)), ("b", Int(2))]))
  {
    var x: Entries := [("a", Int(1)), ("b", Int(2))];
    var y: Entries := [("b", Int(2)), ("a", Bool(true))];
    assert Lookup(y, "a") == Some(Bool(true)) by {
      assert y[1..] == [("a", Bool(true))];
    }
    assert Lookup(x, "b") == Some(Int(2)) by {
      assert x[1..] == [("b", Int(2))];
    }
    assert DictEq(x, y);
    var z: Entries := [("a", Int(1)), ("b", Int(2))];
    assert z[1].0 == "b" && z[1..][0].0 == "b";
    assert Lookup([("a", Int(1))], "b") == None by {
      assert [("a", Int(1))][1..] == [];
    }
  }

  /** The five settings, as `to_dict` lists them before the extra keywords. */
  function Named(c: Config): Entries
  {
    [(NumShardsKey, c.numShards), (DbDirKey, c.dbDir), (TimeoutKey, c.connectionTimeout),
     (AutoCreateKey, c.autoCreateDirs), (MaxConnsKey, c.maxConnectionsPerShard)]
  }

  lemma {:induction false} LookupPrefix(a: Entries, b: Entries, k: string)
    requires HasKey(a, k)
    ensures Lookup(a + b, k) == Lookup(a, k)
  {
    if a[0].0 != k {
      assert (a + b)[1..] == a[1..] + b;
      LookupPrefix(a[1..], b, k);
    }
  }

  /** Each named setting is found in the dict under its own key. */
  lemma NamedLookups(c: Config)
    ensures var d := ToDict(c);
      && Lookup(d, NumShardsKey) == Some(c.numShards)
      && Lookup(d, DbDirKey) == Some(c.dbDir)
      && Lookup(d, TimeoutKey) == Some(c.connectionTimeout)
      && Lookup(d, AutoCreateKey) == Some(c.autoCreateDirs)
      && Lookup(d, MaxConnsKey) == Some(c.maxConnectionsPerShard)
  {
    var n := Named(c);
    assert ToDict(c) == n + c.additional;
    assert |NumShardsKey| == 10 && |DbDirKey| == 6 && |TimeoutKey| == 18;
    assert |AutoCreateKey| == 16 && |MaxConnsKey| == 25;
    assert n[1..][1..][1..] == [(AutoCreateKey, c.autoCreateDirs), (MaxConnsKey, c.maxConnectionsPerShard)];
    assert Lookup(n[1..][1..], TimeoutKey) == Some(c.connectionTimeout);
    assert Lookup(n[1..][1..][1..][1..], MaxConnsKey) == Some(c.maxConnectionsPerShard);
    assert Lookup(n[1..][1..][1..], MaxConnsKey) == Some(c.maxConnectionsPerShard);
    assert Lookup(n[1..][1..], MaxConnsKey) == Some(c.maxConnectionsPerShard);
    assert Lookup(n[1..][1..][1..], AutoCreateKey) == Some(c.autoCreateDirs);
    assert Lookup(n[1..][1..], AutoCreateKey) == Some(c.autoCreateDirs);
    assert Lookup(n, NumShardsKey) == Some(c.numShards);
    LookupPrefix(n, c.additional, NumShardsKey);
    assert Lookup(n, DbDirKey) == Some(c.dbDir);
    LookupPrefix(n, c.additional, DbDirKey);
    assert Lookup(n, TimeoutKey) == Some(c.connectionTimeout);
    LookupPrefix(n, c.additional, TimeoutKey);
    assert Lookup(n, AutoCreateKey) == Some(c.autoCreateDirs);
    LookupPrefix(n, c.additional, AutoCreateKey);
    assert Lookup(n, MaxConnsKey) == Some(c.maxConnectionsPerShard);
    LookupPrefix(n, c.additional, MaxConnsKey);
  }

  lemma {:induction false} ExtraOfNamed(d: Entries)
    requires forall i :: 0 <= i < |d| ==> d[i].0 in ParamNames
    ensures Extra(d) == []
  {
    if d != [] {
      ExtraOfNamed(d[1..]);
    }
  }

  /** The extra keywords survive the round trip through a dict. */
  lemma {:induction false} ExtraOfToDict(c: Config)
    requires ExtraKeywords(c.additional)
    ensures Extra(ToDict(c)) == c.additional
  {
    var named := Named(c);
    ExtraAppend(named, c.additional);
    ExtraOfNamed(named);
  }

  lemma {:induction false} ExtraAppend(a: Entries, b: Entries)
    ensures Extra(a + b) == Extra(a) + Extra(b)
  {
    if a == [] {
      assert a + b == b;
    } else {
      assert (a + b)[1..] == a[1..] + b;
      ExtraAppend(a[1..], b);
    }
  }

  /** `load_from_dict(c.to_dict())` rebuilds `c` exactly, so in particular it equals `c`. */
  lemma RoundTrip(c: ValidConfig)
    requires ExtraKeywords(c.additional)
    ensures LoadFromDict(ToDict(c)) == Ok(c)
    ensures Equal(LoadFromDict(ToDict(c)).value, c)
  {
    ExtraOfToDict(c);
    NamedLookups(c);
    EqualReflexive(c);
  }

  /** Every configuration the constructor builds satisfies the round trip's condition. */
  lemma NewExtraKeywords(numShards: Value, dbDir: Value, connectionTimeout: Value, autoCreateDirs: Value,
                         maxConnectionsPerShard: Value, kwargs: Entries)
    requires ExtraKeywords(kwargs)
    requires New(numShards, dbDir, connectionTimeout, autoCreateDirs, maxConnectionsPerShard, kwargs).Ok?
    ensures LoadFromDict(ToDict(New(numShards, dbDir, connectionTimeout, autoCreateDirs, maxConnectionsPerShard, kwargs).value))
         == New(numShards, dbDir, connectionTimeout, autoCreateDirs, maxConnectionsPerShard, kwargs)
  {
    RoundTrip(New(numShards, dbDir, connectionTimeout, autoCreateDirs, maxConnectionsPerShard, kwargs).value);
  }

  function NumShardsOf(c: ValidConfig): int { IntOf(c.numShards) }

  /** `get_shard_file_path`: ids outside `[0, num_shards)` raise; others join `shard_<id>.db` to the directory. */
  function GetShardFilePath(c: ValidConfig, shardId: int): (r: Result<string, ConfigError>)
    ensures r.Ok? <==> 0 <= shardId < NumShardsOf(c)
    ensures r.Err? ==> r.error == InvalidShardId(shardId)
    ensures r.Ok? ==> c.dbDir.s <= r.value && r.value == Helpers.ShardPath(c.dbDir.s, shardId)
  {
    if shardId < 0 || shardId >= NumShardsOf(c) then Err(InvalidShardId(shardId))
    else Ok(Helpers.ShardPath(c.dbDir.s, shardId))
  }

  /** Distinct valid shard ids give distinct file paths. */
  lemma ShardFilePathsDistinct(c: ValidConfig, a: int, b: int)
    requires GetShardFilePath(c, a).Ok? && GetShardFilePath(c, b).Ok?
    requires a != b
    ensures GetShardFilePath(c, a).value != GetShardFilePath(c, b).value
  {
    if GetShardFilePath(c, a).value == GetShardFilePath(c, b).value {
      Helpers.ShardPathInjective(c.dbDir.s, a, b);
    }
  }

  /** The config's path for a shard is the one `get_shard_filename` gives for its directory. */
  lemma ShardFilePathAgreesWithHelper(c: ValidConfig, shardId: int)
    requires 0 <= shardId < NumShardsOf(c)
    ensures GetShardFilePath(c, shardId) == Ok(Helpers.GetShardFilename(shardId, c.dbDir.s).value)
  {
  }

  /** `get_all_shard_paths`: one path per shard id `0 .. num_shards - 1`. */
  function GetAllShardPaths(c: ValidConfig): (paths: map<int, string>)
    ensures forall i :: i in paths <==> 0 <= i < NumShardsOf(c)
    ensures forall i :: i in paths ==> GetShardFilePath(c, i) == Ok(paths[i])
  {
    map i | 0 <= i < NumShardsOf(c) :: GetShardFilePath(c, i).value
  }

  /** No two shards share a path, so the map has `num_shards` distinct values. */
  lemma AllShardPathsDistinct(c: ValidConfig, i: int, j: int)
    requires i in GetAllShardPaths(c) && j in GetAllShardPaths(c) && i != j
    ensures GetAllShardPaths(c)[i] != GetAllShardPaths(c)[j]
  {
    ShardFilePathsDistinct(c, i, j);
  }
}
