/**
 * The hash sharding strategy (`HashShardingStrategy`) together with the
 * behaviour it inherits from `ShardingStrategy`: key validation, key-range
 * validation and the sample key distribution. A key goes to shard
 * `abs(key) % numShards`.
 */
module Strategy {
  import opened Wrappers
  import opened Values
  import opened Seqs

  type Pos = n: int | n > 0 witness 1

  datatype StrategyError =
    | InvalidNumShards(n: int)     // constructor: num_shards must be positive
    | InvalidKey                   // a key that is not an int
    | InvalidKeyRange              // bad keys or start_key > end_key

  function Abs(k: int): nat { if k < 0 then -k else k }

  /** The routing formula of `get_shard_id`. */
  function ShardOf(n: Pos, k: int): nat
  {
    Abs(k) % n
  }

  /** `validate_key`: `isinstance(key, int)`. */
  predicate ValidateKey(key: Value) { IsInt(key) }

  /** `validate_key_range`: both keys valid and `start_key <= end_key`. */
  predicate ValidateKeyRange(startKey: Value, endKey: Value)
  {
    ValidateKey(startKey) && ValidateKey(endKey) && IntOf(startKey) <= IntOf(endKey)
  }

  datatype HashShardingStrategy = HashShardingStrategy(numShards: Pos)
  {
    function GetNumShards(): Pos { numShards }

    /** `get_shard_id`: raises for a key that is not an int. */
    function GetShardId(key: Value): (r: Result<nat, StrategyError>)
      ensures r.Ok? <==> ValidateKey(key)
      ensures r.Err? ==> r.error == InvalidKey
    {
      if !ValidateKey(key) then Err(InvalidKey) else Ok(ShardOf(numShards, IntOf(key)))
    }

    /** `get_all_shard_ids`: `list(range(num_shards))`. */
    function GetAllShardIds(): seq<int>
    {
      Range(0, numShards)
    }

    /** `get_shard_range`: every shard, once the range itself is valid. */
    function GetShardRange(startKey: Value, endKey: Value): (r: Result<seq<int>, StrategyError>)
      ensures r.Ok? <==> ValidateKeyRange(startKey, endKey)
      ensures r.Err? ==> r.error == InvalidKeyRange
    {
      if !ValidateKeyRange(startKey, endKey) then Err(InvalidKeyRange) else Ok(GetAllShardIds())
    }

    /** `get_optimal_shard_range`: exact shard set for ranges narrower than the shard count. */
    method GetOptimalShardRange(startKey: Value, endKey: Value) returns (r: Result<seq<int>, StrategyError>)
      ensures r.Err? <==> !ValidateKeyRange(startKey, endKey)
      ensures r.Err? ==> r.error == InvalidKeyRange
      ensures r.Ok? ==> forall k :: IntOf(startKey) <= k <= IntOf(endKey) ==> ShardOf(numShards, k) in r.value
      ensures r.Ok? && IntOf(endKey) - IntOf(startKey) < numShards ==>
        && StrictlyIncreasing(r.value)
        && forall x :: x in r.value ==>
             exists k :: IntOf(startKey) <= k <= IntOf(endKey) && ShardOf(numShards, k) == x
      ensures r.Ok? && IntOf(endKey) - IntOf(startKey) >= numShards ==> r.value == GetAllShardIds()
    {
      if !ValidateKeyRange(startKey, endKey) {
        return Err(InvalidKeyRange);
      }
      var lo, hi := IntOf(startKey), IntOf(endKey);
      if hi - lo < numShards {
        var shards: set<int> := {};
        var key := lo;
        while key < hi + 1
          invariant lo <= key <= hi + 1
          invariant forall k :: lo <= k < key ==> ShardOf(numShards, k) in shards
          invariant forall x :: x in shards ==> exists k :: lo <= k < key && ShardOf(numShards, k) == x
        {
          shards := shards + {ShardOf(numShards, key)};
          key := key + 1;
        }
        return Ok(SortedBelow(shards, numShards));
      }
      AllShardIdsExact(this);
      return Ok(GetAllShardIds());
    }

    /** `get_shard_for_key_range`: the first `size` shard ids, capped at all of them. */
    method GetShardForKeyRange(keyRangeSize: int) returns (r: seq<int>)
      ensures keyRangeSize <= 0 ==> r == []
      ensures 0 < keyRangeSize < numShards ==> r == Range(0, keyRangeSize)
      ensures keyRangeSize >= numShards ==> r == GetAllShardIds()
    {
      if keyRangeSize <= 0 {
        return [];
      }
      if keyRangeSize < numShards {
        var shards: set<int> := {};
        var bound := if keyRangeSize < numShards then keyRangeSize else numShards;
        var i := 0;
        while i < bound
          invariant 0 <= i <= bound
          invariant forall x :: x in shards <==> 0 <= x < i
        {
          assert i % numShards == i;
          shards := shards + {i % numShards};
          i := i + 1;
        }
        r := SortedBelow(shards, numShards);
        SortedBelowPrefix(shards, numShards, keyRangeSize);
        return r;
      }
      return GetAllShardIds();
    }

    /** `get_shard_distribution(num_keys)`: per-shard count of the keys `0 .. num_keys - 1`. */
    method GetShardDistribution(numKeys: int) returns (distribution: seq<int>)
      ensures |distribution| == numShards
      ensures forall j :: 0 <= j < numShards ==> distribution[j] == KeysOnShard(numKeys, numShards, j)
    {
      distribution := seq(numShards, _ => 0);
      var i := 0;
      while i < numKeys
        invariant 0 <= i <= if numKeys < 0 then 0 else numKeys
        invariant |distribution| == numShards
        invariant forall j :: 0 <= j < numShards ==> distribution[j] == KeysOnShard(i, numShards, j)
      {
        var shardId := ShardOf(numShards, i);
        distribution := distribution[shardId := distribution[shardId] + 1];
        i := i + 1;
      }
    }
  }

  /** The number of keys `k` in `[0, m)` that the hash strategy sends to shard `j`. */
  function KeysOnShard(m: int, n: Pos, j: int): nat
    decreases if m < 0 then 0 else m
  {
    if m <= 0 then 0 else KeysOnShard(m - 1, n, j) + (if (m - 1) % n == j then 1 else 0)
  }

  lemma {:induction false} AllShardIdsExact(s: HashShardingStrategy)
    ensures |s.GetAllShardIds()| == s.numShards
    ensures StrictlyIncreasing(s.GetAllShardIds()) && NoDuplicates(s.GetAllShardIds())
    ensures forall x :: x in s.GetAllShardIds() <==> 0 <= x < s.numShards
  {
    var r := s.GetAllShardIds();
    forall x | 0 <= x < s.numShards ensures x in r { assert r[x] == x; }
  }

  /** Sorting the set `{0, ..., m - 1}` gives `[0, ..., m - 1]`. */
  lemma {:induction false} SortedBelowPrefix(s: set<int>, n: nat, m: nat)
    requires m <= n
    requires forall x :: x in s <==> 0 <= x < m
    ensures SortedBelow(s, n) == Range(0, m)
  {
    SortedBelowInitial(s, n, m);
  }

  lemma {:induction false} SortedBelowInitial(s: set<int>, n: nat, m: nat)
    requires forall x :: x in s <==> 0 <= x < m
    ensures SortedBelow(s, n) == Range(0, if n < m then n else m)
    decreases n
  {
    if n > 0 {
      SortedBelowInitial(s, n - 1, m);
      if n - 1 < m {
        assert n - 1 in s;
        RangeSnoc(0, n - 1);
      } else {
        assert n - 1 !in s;
      }
    }
  }

  /** Every shard id lies in `[0, numShards)`. */
  lemma ShardIdInRange(s: HashShardingStrategy, key: Value)
    requires ValidateKey(key)
    ensures 0 <= s.GetShardId(key).value < s.numShards
  {
  }

  /** A key and its negation share a shard, because of `abs`. */
  lemma ShardIdSymmetric(s: HashShardingStrategy, k: int)
    ensures s.GetShardId(Int(-k)) == s.GetShardId(Int(k))
  {
  }

  /** On non-negative keys the formula is the plain `key % numShards`. */
  lemma ShardIdNonNegative(s: HashShardingStrategy, k: int)
    requires k >= 0
    ensures s.GetShardId(Int(k)) == Ok(k % s.numShards)
  {
  }

  /**
   * With two shards `abs(k) % 2 == k % 2` for every key, so a test comparing
   * against `k % 2` cannot tell the two formulas apart.
   */
  lemma {:induction false} TwoShardsAgreeWithModulo(k: int)
    ensures ShardOf(2, k) == k % 2
  {
    if k < 0 {
      var q, r := (-k) / 2, (-k) % 2;
      if r == 0 {
        DivModUnique(k, 2, -q, 0);
      } else {
        DivModUnique(k, 2, -q - 1, 1);
      }
    }
  }

  /**
   * With more than two shards the class docstring's `key % num_shards` and the
   * code's `abs(key) % num_shards` send key -1 to different shards (Python's
   * `%` with a positive divisor agrees with Dafny's).
   */
  lemma DocstringFormulaDiffers(n: Pos)
    requires n > 2
    ensures ShardOf(n, -1) == 1 && (-1) % n == n - 1 && ShardOf(n, -1) != (-1) % n
  {
  }

  /** `validate_key_range` holds exactly for two int keys in order. */
  lemma ValidateKeyRangeExact(a: int, b: int, v: Value)
    ensures ValidateKeyRange(Int(a), Int(b)) <==> a <= b
    ensures !IsInt(v) ==> !ValidateKeyRange(v, Int(b)) && !ValidateKeyRange(Int(a), v)
  {
  }

  /** The constructor: `num_shards <= 0` raises. */
  function New(numShards: int): (r: Result<HashShardingStrategy, StrategyError>)
    ensures r.Ok? <==> numShards > 0
    ensures r.Ok? ==> r.value.GetNumShards() == numShards
    ensures r.Err? ==> r.error == InvalidNumShards(numShards)
  {
    if numShards <= 0 then Err(InvalidNumShards(numShards)) else Ok(HashShardingStrategy(numShards))
  }

  function DistributionSpec(m: int, n: Pos): (d: seq<int>)
    ensures |d| == n
  {
    seq(n, j => KeysOnShard(m, n, j))
  }

  /** One more key adds one to the entry of its shard. */
  lemma DistributionStep(m: nat, n: Pos)
    ensures DistributionSpec(m + 1, n) == DistributionSpec(m, n)[m % n := DistributionSpec(m, n)[m % n] + 1]
  {
  }

  /** The sample distribution accounts for every key exactly once. */
  lemma {:induction false} DistributionSum(m: int, n: Pos)
    ensures Sum(DistributionSpec(m, n)) == if m < 0 then 0 else m
    decreases if m < 0 then 0 else m
  {
    if m <= 0 {
      ZerosSum(DistributionSpec(m, n));
    } else {
      DistributionSum(m - 1, n);
      DistributionStep(m - 1, n);
      SumIncrement(DistributionSpec(m - 1, n), (m - 1) % n);
    }
  }

  lemma {:induction false} ZerosSum(s: seq<int>)
    requires forall i :: 0 <= i < |s| ==> s[i] == 0
    ensures Sum(s) == 0
  {
    if s != [] {
      ZerosSum(s[1..]);
    }
  }

  lemma DivModUnique(a: int, n: Pos, q: int, r: int)
    requires a == n * q + r && 0 <= r < n
    ensures a / n == q && a % n == r
  {
    var q0, r0 := a / n, a % n;
    assert n * q0 + r0 == n * q + r;
    if q0 > q {
      MulMonotone(n, q + 1, q0);
      assert false;
    } else if q0 < q {
      MulMonotone(n, q0 + 1, q);
      assert false;
    }
  }

  lemma DivModIdentity(a: int, n: Pos)
    ensures a == n * (a / n) + a % n && 0 <= a % n < n
  {
  }

  lemma MulAddOne(n: Pos, q: int)
    ensures n * (q + 1) == n * q + n
  {
  }

  lemma MulMonotone(n: Pos, x: int, y: int)
    requires x <= y
    ensures n * x <= n * y
  {
  }

  /**
   * Closed form of the sample distribution: the first `m % n` shards get
   * `m / n + 1` keys and the others `m / n`.
   */
  lemma {:induction false} KeysOnShardClosedForm(m: nat, n: Pos, j: int)
    requires 0 <= j < n
    ensures KeysOnShard(m, n, j) == m / n + (if j < m % n then 1 else 0)
  {
    if m > 0 {
      KeysOnShardClosedForm(m - 1, n, j);
      var q, r := (m - 1) / n, (m - 1) % n;
      DivModIdentity(m - 1, n);
      if r + 1 < n {
        assert m == n * q + (r + 1);
        DivModUnique(m, n, q, r + 1);
      } else {
        MulAddOne(n, q);
        assert m == n * (q + 1) + 0;
        DivModUnique(m, n, q + 1, 0);
      }
    }
  }

}
