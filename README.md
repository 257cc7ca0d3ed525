# shardlite, modelled in Dafny

shardlite is a Python library that spreads integer-keyed rows over several
SQLite files ("shards"). A hash strategy sends key `k` to shard
`abs(k) % num_shards`. A router runs inserts, selects, updates, deletes and
aggregates on the key's shard, or on every shard in turn, merging what the
shards answer. Each shard has a lazily built connection pool. A two-phase-commit
coordinator drives prepare, commit and rollback across the shards a
transaction names. The library also has configuration, transaction metrics
and SQL helper functions.

This project models that core and proves its properties. One Dafny module
stands for each source file:

- `Strategy` stands for `strategy/hash_strategy.py` and `strategy/base.py`.
- `Helpers` stands for `utils/helpers.py`.
- `ShardConfig` stands for `config.py`.
- `TxLog` stands for the counters of `transaction/logger.py`.
- `Pool` stands for `connection/pool.py`.
- `Sql`, `Merge` and `Router` together stand for `router.py`.
- `Coordinator` stands for `transaction/coordinator.py`.

`Wrappers`, `Values`, `Text` and `Seqs` hold the shared vocabulary:

- Option and Result;
- Python's dynamic values and dicts, where a dict is a list of entries in insertion order;
- ASCII string functions;
- sums, ranges and concatenation of sequences.

The modules follow the form of the Python code:

- The pure functions are Dafny functions with lemmas.
- The objects that change state are classes with `modifies` clauses: `ConnectionPool`, `Router`, `TransactionContext`, `ParallelTransactionCoordinator` and `TransactionMetrics`.
- Each such method is tied to a function of the old state, whose properties are proved as lemmas.
- The Python loops are `while` loops with invariants: the router's fan-outs and merges, the pool's drain, the coordinator's phases, and the helpers' clause builders and aggregators.

What SQLite answers is an input of the model:

- each shard's rows, affected-row count or aggregate reply;
- each shard's prepare vote, commit acknowledgement or rollback outcome.

These inputs are indexed by shard id, or by shard key in key order. Every
router operation also returns the statements it issued, so the routing
itself can be stated: which shard, which SQL, which parameters, in which
order.

Three places where the code's behaviour is easy to misread:

- MAX/MIN does not combine per-shard extrema: it fetches every non-null value of the column from every shard and takes the extremum of their union (`router.py:348-375`). `Merge.ExtremumOfShards` states what this gives.
- The standard merge used for SUM and COUNT lets a non-numeric reply replace the running total, for instance the NULL that `SUM` gives on an empty shard (`router.py:389-398`). `Merge.StandardLastNonNumberWins` and `Merge.StandardForgetsBeforeNonNumber` state this.
- The docstring of `HashShardingStrategy` gives `key % num_shards`, while the code uses `abs(key) % num_shards`. `Strategy.DocstringFormulaDiffers` exhibits a key where the two differ.

## Model

| member | source | states |
|---|---|---|
| Strategy.New | shardlite/shardliteCore/strategy/hash_strategy.py:28-41 | the strategy is built exactly when `num_shards > 0`, otherwise the error names the rejected count; `get_num_shards` returns the argument unchanged |
| Strategy.HashShardingStrategy.GetShardId | shardlite/shardliteCore/strategy/hash_strategy.py:43-59 | a shard id is returned exactly for an int key; any other key is rejected with `InvalidKey` |
| Strategy.ShardIdInRange | shardlite/shardliteCore/strategy/hash_strategy.py:59 | every shard id lies in `[0, num_shards)` |
| Strategy.ShardIdSymmetric | shardlite/shardliteCore/strategy/hash_strategy.py:59 | a key and its negation go to the same shard (the `abs`) |
| Strategy.ShardIdNonNegative | shardlite/shardliteCore/strategy/hash_strategy.py:59 | on a non-negative key the shard is `key % num_shards` |
| Strategy.TwoShardsAgreeWithModulo | shardlite/tests/test_sharding_strategy.py:37-42 | with two shards `abs(k) % 2 == k % 2` for every k, so the negative-key test cannot tell the code from the docstring formula |
| Strategy.DocstringFormulaDiffers | shardlite/shardliteCore/strategy/hash_strategy.py:16-17 | with more than two shards key -1 goes to shard 1 under the code but to `n - 1` under the docstring's `key % num_shards` |
| Strategy.HashShardingStrategy.GetShardRange | shardlite/shardliteCore/strategy/hash_strategy.py:61-83 | fails with `InvalidKeyRange` exactly when the range is invalid, otherwise returns all shard ids |
| Strategy.AllShardIdsExact | shardlite/shardliteCore/strategy/hash_strategy.py:85-92 | `get_all_shard_ids` has length `num_shards`, is strictly increasing, has no duplicates and holds exactly `0 .. num_shards - 1` |
| Strategy.HashShardingStrategy.GetOptimalShardRange | shardlite/shardliteCore/strategy/hash_strategy.py:103-128 | fails exactly on an invalid range; the result contains the shard of every key in `[start, end]`; for a range narrower than `num_shards` it is strictly increasing and holds only shards of keys in the range; for a wider range it is all shard ids |
| Strategy.HashShardingStrategy.GetShardForKeyRange | shardlite/shardliteCore/strategy/hash_strategy.py:130-153 | `[]` for a size `<= 0`, `[0, ..., size - 1]` for a size below `num_shards`, all shard ids otherwise |
| Strategy.SortedBelowPrefix | shardlite/shardliteCore/strategy/hash_strategy.py:147-151 | sorting the set `{0, ..., m - 1}` gives the list `[0, ..., m - 1]` |
| Strategy.ValidateKeyRangeExact | shardlite/shardliteCore/strategy/base.py:90-103 | two int keys form a valid range exactly when `start <= end`; a non-int key on either side makes it invalid |
| Strategy.HashShardingStrategy.GetShardDistribution | shardlite/shardliteCore/strategy/base.py:105-124 | the result has one entry per shard and entry `j` counts the keys in `[0, num_keys)` that go to shard `j` |
| Strategy.DistributionSpec | shardlite/shardliteCore/strategy/base.py:118 | the reference distribution has one entry per shard |
| Strategy.DistributionStep | shardlite/shardliteCore/strategy/base.py:120-122 | one more key adds one to the entry of its shard and leaves the others alone |
| Strategy.DistributionSum | shardlite/shardliteCore/strategy/base.py:118-124 | the entries sum to `num_keys` when it is non-negative and to 0 otherwise |
| Strategy.KeysOnShardClosedForm | shardlite/shardliteCore/strategy/base.py:120-122 | for non-negative `m` the first `m % n` shards get `m / n + 1` keys and the others `m / n` |
| Helpers.GetShardFilename | shardlite/shardliteCore/utils/helpers.py:30-51 | succeeds exactly for a non-negative id and a non-empty directory; a negative id and an empty directory fail with their own errors; the path starts with the directory and is `os.path.join(db_dir, "shard_<id>.db")` |
| Helpers.ShardPathShape | shardlite/shardliteCore/utils/helpers.py:50-51 | the path is the directory, a separator that depends only on the directory, then `shard_<id>.db` |
| Helpers.ShardPathInjective | shardlite/shardliteCore/utils/helpers.py:50-51 | different shard ids give different file paths in the same directory |
| Helpers.ValidateSqlIdentifierExact | shardlite/shardliteCore/utils/helpers.py:124-159 | an identifier is valid iff it is non-empty, not a keyword in any letter case, made only of letters, digits and underscores, holds at least one letter or digit, and starts with a letter or underscore |
| Helpers.AllUnderscoresRejected | shardlite/shardliteCore/utils/helpers.py:151-152 | an identifier of underscores only is rejected, because `''.isalnum()` is false |
| Helpers.KeywordRejected | shardlite/shardliteCore/utils/helpers.py:135-148 | an identifier whose upper-case form is in the keyword set is rejected |
| Helpers.ValidIdentifierPlain | shardlite/shardliteCore/utils/helpers.py:151-152 | a valid identifier contains no `?`, space or quote, so it cannot add a placeholder to generated SQL |
| Helpers.KeepIdentChars | shardlite/shardliteCore/utils/helpers.py:179 | the filter keeps only letters, digits and underscores, and leaves a string made only of them unchanged |
| Helpers.KeepIdentCharsAppend | shardlite/shardliteCore/utils/helpers.py:179 | the filter works character by character: filtering `a + b` is filtering `a`, then `b` |
| Helpers.KeepIdentCharsOne | shardlite/shardliteCore/utils/helpers.py:179 | a single character is kept exactly when it is a letter, a digit or `_` |
| Helpers.SanitizeTableName | shardlite/shardliteCore/utils/helpers.py:162-188 | an empty name fails with `EmptyTableName` and a name with no identifier character with `NoValidCharacters`; otherwise the result is the filtered name, prefixed with `t_` when it starts with a digit, so it is non-empty, made only of identifier characters and never starts with a digit |
| Helpers.SanitizeIdempotent | shardlite/shardliteCore/utils/helpers.py:162-188 | sanitising a sanitised name returns it unchanged |
| Helpers.Assignments | shardlite/shardliteCore/utils/helpers.py:215-219 | one `col = ?` item per entry, in dict order |
| Helpers.FirstInvalidColumn | shardlite/shardliteCore/utils/helpers.py:215-217 | none iff every column is a valid identifier; otherwise a column of the dict that is not valid |
| Helpers.AssignmentPlaceholders | shardlite/shardliteCore/utils/helpers.py:218 | items built from `?`-free columns carry exactly one `?` per entry |
| Helpers.JoinAssignments | shardlite/shardliteCore/utils/helpers.py:212-221 | fails on the first invalid column in dict order; otherwise the joined `col = ?` items with the values in the same order, one `?` per value |
| Helpers.ValidJoinPlaceholders | shardlite/shardliteCore/utils/helpers.py:218-221 | joining valid columns with a `?`-free separator gives exactly one `?` per column |
| Helpers.FirstInvalidAfterValidPrefix | shardlite/shardliteCore/utils/helpers.py:215-217 | the first column the loop rejects is the first invalid column of the dict |
| Helpers.BuildWhereClause | shardlite/shardliteCore/utils/helpers.py:191-221 | `("", [])` for no conditions; fails iff some column is invalid, naming the first; otherwise `col = ?` items joined by " AND " with the values in dict order, one `?` per value |
| Helpers.BuildSetClause | shardlite/shardliteCore/utils/helpers.py:224-254 | fails for no values; fails naming the first invalid column; otherwise `col = ?` items joined by ", " with the values in dict order, one `?` per value |
| Helpers.ValidateRowDataExact | shardlite/shardliteCore/utils/helpers.py:257-285 | a row is valid iff it is a non-empty dict whose every key is a valid identifier and whose every value is None, str, int, float or bool |
| Helpers.ValidEntriesExact | shardlite/shardliteCore/utils/helpers.py:273-283 | the item loop accepts exactly the dicts whose every item passes both checks |
| Helpers.MergeResults | shardlite/shardliteCore/utils/helpers.py:288-306 | the result is the concatenation, in order, of the entries that are lists; other entries are skipped |
| Helpers.ListsConcatAppend | shardlite/shardliteCore/utils/helpers.py:302-304 | merging two parts of the result list one after the other is merging the whole |
| Helpers.ListsConcatLength | shardlite/shardliteCore/utils/helpers.py:302-304 | the merge holds as many rows as the lists together: none is dropped or duplicated |
| Helpers.ListsConcatMembers | shardlite/shardliteCore/utils/helpers.py:302-304 | a row is in the merge iff it is in one of the lists |
| Helpers.DictItemsAppend | shardlite/shardliteCore/utils/helpers.py:325-329 | the items of two parts of the result list are the items of the first part, then those of the second |
| Helpers.AggItemsAppend | shardlite/shardliteCore/utils/helpers.py:329-341 | folding items `a + b` is folding `a`, then `b` from that result, and an error in `a` is final |
| Helpers.AggregateInto | shardlite/shardliteCore/utils/helpers.py:329-341 | the inner loop over one dict's items equals the reference fold of those items into the running result |
| Helpers.AggItemsStep | shardlite/shardliteCore/utils/helpers.py:325-341 | folding the results from `i` on is skipping `results[i]` when it is not a dict, else folding its items and then the rest |
| Helpers.AggregateResults | shardlite/shardliteCore/utils/helpers.py:309-345 | the result, or the `TypeError`, is the reference fold of every dict's items in order |
| Helpers.StepOwnKey | shardlite/shardliteCore/utils/helpers.py:330-341 | one item seen from its own key: the step fails iff that key's fold fails at that value, and otherwise the key's fold continues from the stored value |
| Helpers.StepOtherKey | shardlite/shardliteCore/utils/helpers.py:330-341 | one item leaves every other key's value unchanged |
| Helpers.AggItemsKey | shardlite/shardliteCore/utils/helpers.py:329-341 | after a successful fold every key holds the fold of its own values, in order |
| Helpers.AggItemsErrKey | shardlite/shardliteCore/utils/helpers.py:329-341 | a failed fold has a key whose own fold fails |
| Helpers.AggregatePerKey | shardlite/shardliteCore/utils/helpers.py:309-345 | aggregation succeeds iff every key's fold of its values succeeds, and then each key holds its own fold: the first value, combined with the later ones |
| Helpers.PerKeyAfterStep | shardlite/shardliteCore/utils/helpers.py:329-341 | after a successful first step, each key's fold over the items is its fold over the rest from the new state |
| Helpers.FoldKeepsFirst | shardlite/shardliteCore/utils/helpers.py:334-343 | for "avg" or any other unknown kind a key keeps its first value and nothing raises |
| Helpers.FoldSumsInts | shardlite/shardliteCore/utils/helpers.py:334-337 | for "sum" and "count" over ints a key ends with its first value plus the sum of the rest |
| Helpers.FoldMaxInts | shardlite/shardliteCore/utils/helpers.py:338-339 | for "max" over ints a key ends with one of its values, at least as large as every one of them |
| Helpers.FoldMinInts | shardlite/shardliteCore/utils/helpers.py:340-341 | for "min" over ints a key ends with one of its values, no larger than any one of them |
| Helpers.NumberAfterNonNumberRaises | shardlite/shardliteCore/utils/helpers.py:334-341 | a number meeting a held non-number raises `TypeError` for "sum" and "max" and is ignored for "avg" |
| Helpers.CalculateShardDistribution | shardlite/shardliteCore/utils/helpers.py:348-371 | `[]` when either argument is `<= 0`; otherwise one entry per shard, `m // n + 1` for the first `m % n` shards and `m // n` for the rest |
| Helpers.ExpectedMatchesHashDistribution | shardlite/shardliteCore/utils/helpers.py:359-371 | the expected distribution equals the hash strategy's sample distribution of the keys `0 .. m - 1` |
| Helpers.ExpectedDistributionSum | shardlite/shardliteCore/utils/helpers.py:359-371 | the expected distribution's entries sum to `m` |
| ShardConfig.ValidateExact | shardlite/shardliteCore/config.py:106-133 | `validate` fails iff `num_shards`, `connection_timeout` or `max_connections_per_shard` is not a positive int (a bool counts as an int), `db_dir` is not a non-empty string, or `auto_create_dirs` is not a bool |
| ShardConfig.New | shardlite/shardliteCore/config.py:30-59 | construction succeeds iff `validate` accepts the settings, and then keeps exactly the arguments given, the extra keywords included; otherwise it raises the invalid-configuration error |
| ShardConfig.Default | shardlite/shardliteCore/config.py:30-38 | the defaults form a valid configuration: 4 shards in `./data`, a 30-second timeout, directories created automatically, 10 connections per shard, and no extra keywords |
| ShardConfig.GetOr | shardlite/shardliteCore/config.py:94-104 | a key present in the dict gives its value and a missing key gives the parameter's default |
| ShardConfig.Extra | shardlite/shardliteCore/config.py:37-55 | the keys left for `**kwargs` are never named parameters, and a dict without named keys passes through whole |
| ShardConfig.Bind | shardlite/shardliteCore/config.py:94-104 | `cls(**d)` binds each named key present to its parameter, gives each absent one the default of `ShardConfig.Default`, and makes every other key an extra keyword |
| ShardConfig.LoadFromDict | shardlite/shardliteCore/config.py:94-104 | loading succeeds exactly when `validate` accepts the bound configuration, which is then the result; otherwise it raises ValueError |
| ShardConfig.ToDict | shardlite/shardliteCore/config.py:135-150 | the dict's keys are the five settings in order, then the extra keywords |
| ShardConfig.NamedLookups | shardlite/shardliteCore/config.py:142-148 | each of the five settings is found in the dict under its own key |
| ShardConfig.EqualReflexive | shardlite/shardliteCore/config.py:183-187 | a configuration equals itself under `__eq__`, nested lists and dicts included |
| ShardConfig.EqualSymmetric | shardlite/shardliteCore/config.py:183-187 | `__eq__` is symmetric, nested values compared as Python compares them |
| ShardConfig.NestedEquality | shardlite/shardliteCore/config.py:183-187 | nested settings compare the Python way: `[1] == [1.0]`, dicts are equal whatever their key order, and a dict differs from one with an extra key |
| ShardConfig.ExtraOfToDict | shardlite/shardliteCore/config.py:142-149 | the extra keywords come back unchanged from the dict |
| ShardConfig.RoundTrip | shardlite/shardliteCore/config.py:94-187 | `load_from_dict(c.to_dict())` rebuilds `c` exactly and is equal to `c` |
| ShardConfig.NewExtraKeywords | shardlite/shardliteCore/config.py:30-150 | every configuration the constructor builds survives the dict round trip |
| ShardConfig.GetShardFilePath | shardlite/shardliteCore/config.py:152-166 | succeeds iff `0 <= shard_id < num_shards`, otherwise raises naming the id; the path starts with `db_dir` and ends in `shard_<id>.db` |
| ShardConfig.ShardFilePathsDistinct | shardlite/shardliteCore/config.py:165-166 | two different valid shard ids get different paths |
| ShardConfig.ShardFilePathAgreesWithHelper | shardlite/shardliteCore/config.py:165-166 | the configuration's path for a valid shard is the one `get_shard_filename` gives for its directory |
| ShardConfig.GetAllShardPaths | shardlite/shardliteCore/config.py:168-176 | the map's keys are exactly `0 .. num_shards - 1`, each mapped to that shard's path |
| ShardConfig.AllShardPathsDistinct | shardlite/shardliteCore/config.py:168-176 | no two shards in the map share a path |
| TxLog.AllStatesComplete | shardlite/shardliteCore/transaction/logger.py:13-22 | every transaction state is one of the eight the enumeration lists |
| TxLog.ZeroCounts | shardlite/shardliteCore/transaction/logger.py:233-235 | one count per state, every one of them zero |
| TxLog.Fresh | shardlite/shardliteCore/transaction/logger.py:222-238 | fresh counters are consistent, with every count zero and no errors recorded |
| TxLog.BumpState | shardlite/shardliteCore/transaction/logger.py:250 | bumping a state's count keeps the set of states |
| TxLog.Record | shardlite/shardliteCore/transaction/logger.py:240-267 | recording an outcome keeps one count per state |
| TxLog.RecordCounts | shardlite/shardliteCore/transaction/logger.py:249-267 | one record adds one to the total and to its state's count, adds one to the successes for COMMITTED and to the failures for FAILED or ROLLED_BACK, adds one to its error type's count when an error is given, and leaves every other count as it was |
| TxLog.RecordPreservesValid | shardlite/shardliteCore/transaction/logger.py:249-262 | recording keeps the state counts summing to the total, the successes equal to the COMMITTED count and the failures equal to the FAILED plus ROLLED_BACK counts |
| TxLog.SuccessesAndFailuresBounded | shardlite/shardliteCore/transaction/logger.py:224-262 | successes plus failures never exceed the total |
| TxLog.RecordAll | shardlite/shardliteCore/transaction/logger.py:240-267 | recording a sequence of outcomes keeps one count per state |
| TxLog.RecordAllValid | shardlite/shardliteCore/transaction/logger.py:240-267 | after any sequence of records the counters are consistent and the total grew by the number of records |
| TxLog.RecordAllStateCounts | shardlite/shardliteCore/transaction/logger.py:250 | each state's count grew by the number of records with that state |
| TxLog.RecordAllErrorCounts | shardlite/shardliteCore/transaction/logger.py:265-267 | each error type's count grew by the number of records carrying that error type |
| TxLog.RecordAllCounts | shardlite/shardliteCore/transaction/logger.py:240-267 | the three statements above together, for every state and every error type at once |
| TxLog.TransactionMetrics.constructor | shardlite/shardliteCore/transaction/logger.py:222-238 | new metrics hold the fresh counters |
| TxLog.TransactionMetrics.RecordTransaction | shardlite/shardliteCore/transaction/logger.py:240-267 | the object's counters become `Record` of the old ones, and stay consistent |
| TxLog.TransactionMetrics.Reset | shardlite/shardliteCore/transaction/logger.py:288-298 | the counters return to the fresh ones |
| Pool.InitialState | shardlite/shardliteCore/connection/pool.py:70-73 | a new pool has an empty queue, nothing checked out and nothing created |
| Pool.GetStep | shardlite/shardliteCore/connection/pool.py:78-111 | the oldest idle connection is handed out first; with none idle, a new connection is created while fewer than the maximum are checked out; otherwise the call times out and changes nothing |
| Pool.ReturnStep | shardlite/shardliteCore/connection/pool.py:113-142 | `None` raises; otherwise the active count drops by one, and the connection is dropped if it fails the probe, queued if there is room, and closed if the queue is full |
| Pool.CloseStep | shardlite/shardliteCore/connection/pool.py:144-156 | `None` changes nothing; otherwise the connection is closed and the active count drops by one |
| Pool.CloseAllStep | shardlite/shardliteCore/connection/pool.py:158-173 | the queue is emptied, each queued connection is closed and the active count becomes zero |
| Pool.GetPreservesInv | shardlite/shardliteCore/connection/pool.py:78-111 | getting a connection keeps checked-out plus idle connections within the maximum and within the connections created |
| Pool.GetReturnsCreated | shardlite/shardliteCore/connection/pool.py:92-103 | a connection handed out is one the pool created, and the rest of the queue remains the pool's own |
| Pool.ReturnPreservesInv | shardlite/shardliteCore/connection/pool.py:113-142 | returning any connection, even a foreign one, keeps the bounds |
| Pool.ReturnKeepsIdleOwned | shardlite/shardliteCore/connection/pool.py:136-142 | returning one of the pool's connections keeps the queue made of the pool's own connections |
| Pool.CloseConnectionPreservesInv | shardlite/shardliteCore/connection/pool.py:144-156 | closing a connection keeps the bounds |
| Pool.CyclesReuseOneConnection | shardlite/shardliteCore/connection/pool.py:78-142 | getting and returning a connection any number of times creates exactly one connection, which ends idle with nothing checked out |
| Pool.CyclesFixpoint | shardlite/shardliteCore/connection/pool.py:78-142 | from one idle connection, get-and-return cycles leave the pool as it was |
| Pool.CloseAllThenReturnGoesNegative | shardlite/shardliteCore/connection/pool.py:158-173 | `close_all` while a connection is checked out, followed by returning it, leaves the active count at -1 and queues the connection again |
| Pool.ClosedConnectionCanBeHandedOut | shardlite/shardliteCore/connection/pool.py:144-156 | `close_connection` leaves a queued connection in the queue, so `get_connection` can hand out a connection the pool has closed |
| Pool.ConnectionPool.constructor | shardlite/shardliteCore/connection/pool.py:64-76 | the pool keeps its settings and starts in the initial state |
| Pool.ConnectionPool.New | shardlite/shardliteCore/connection/pool.py:36-76 | an empty path, a non-positive maximum and a non-positive timeout each raise their own error, checked in that order; otherwise a fresh pool in the initial state |
| Pool.ConnectionPool.GetConnection | shardlite/shardliteCore/connection/pool.py:78-111 | the new state and the result are those of `GetStep` on the old state, and the bounds hold |
| Pool.ConnectionPool.ReturnConnection | shardlite/shardliteCore/connection/pool.py:113-142 | `None` raises and changes nothing; otherwise the new state is that of `ReturnStep` |
| Pool.ConnectionPool.CloseConnection | shardlite/shardliteCore/connection/pool.py:144-156 | the new state is that of `CloseStep` |
| Pool.ConnectionPool.CloseAll | shardlite/shardliteCore/connection/pool.py:158-173 | the drain loop leaves the state of `CloseAllStep` |
| Pool.ConnectionPool.GetConnectionContext | shardlite/shardliteCore/connection/pool.py:175-193 | a timeout passes through and changes nothing; otherwise the connection goes back to the pool however the body ends, the active count is as before, and a body that raises passes its error on |
| Pool.ConnectionPool.GetPoolStats | shardlite/shardliteCore/connection/pool.py:195-211 | the statistics are the database path, the counters as they stand and the timeout, and checked-out plus idle never exceed the maximum nor the connections created |
| Sql.Marks | shardlite/shardliteCore/router.py:451 | one `?` per column |
| Sql.WhereSuffixCount | shardlite/shardliteCore/router.py:463-468 | the condition part carries exactly one `?` per condition, and none without conditions, provided the column names have no `?` |
| Sql.UpdateHeadCount | shardlite/shardliteCore/router.py:477-478 | the `SET` part carries exactly one `?` per new value, provided the table and column names have no `?` |
| Sql.InsertBalanced | shardlite/shardliteCore/router.py:448-456 | an insert carries one `?` per row value and binds the row's values in column order, provided the table and column names have no `?` |
| Sql.SelectBalanced | shardlite/shardliteCore/router.py:458-470 | a select binds exactly as many parameters as it has placeholders, provided the table and column names have no `?` |
| Sql.UpdateBalanced | shardlite/shardliteCore/router.py:475-490 | an update binds as many parameters as it has placeholders: the new values fill the `SET` part's placeholders and the condition values fill the rest, in that order, provided the table and column names have no `?` |
| Sql.DeleteBalanced | shardlite/shardliteCore/router.py:492-504 | a delete binds exactly as many parameters as it has placeholders, provided the table and column names have no `?` |
| Sql.AggregateBalanced | shardlite/shardliteCore/router.py:508-511 | an aggregate query has no placeholder and binds nothing, provided its expression and table have no `?` |
| Sql.MarkInTableUnbalances | shardlite/shardliteCore/router.py:492-504 | names go into the text unchecked: a delete on table `t?` carries one `?` and binds no parameter |
| Merge.AggTypeIsUpperName | shardlite/shardliteCore/router.py:305 | the aggregate type is the upper-cased text before the first `(` |
| Merge.KindIgnoresArguments | shardlite/shardliteCore/router.py:305 | what follows the first `(` does not change the aggregate type |
| Merge.KindIgnoresCase | shardlite/shardliteCore/router.py:305-318 | the path taken does not depend on letter case |
| Merge.KindOfCall | shardlite/shardliteCore/router.py:305-318 | AVG and AVERAGE take the average path, MAX and MIN the extremum path, and every other name, COUNT, SUM or unknown, the standard path |
| Merge.AggColumnOfCall | shardlite/shardliteCore/router.py:323 | for `NAME(col)` without parentheses inside, the extracted column is `col` |
| Merge.ContributionOfReply | shardlite/shardliteCore/router.py:335-342 | a null reply adds nothing to a running total and a number adds itself, neither raising |
| Merge.FirstUnaddable | shardlite/shardliteCore/router.py:329-342 | the shard where the average loop raises `TypeError`, if any, has a SUM or COUNT reply that `reply or 0` cannot add |
| Merge.FirstUnaddableIsFirst | shardlite/shardliteCore/router.py:329-342 | every shard before that one has addable replies |
| Merge.FirstUnaddableIs | shardlite/shardliteCore/router.py:329-342 | a shard with addable replies everywhere before it and an unaddable one of its own is where the loop raises |
| Merge.FirstUnaddableStops | shardlite/shardliteCore/router.py:335-342 | the loop, reaching an unaddable reply, stops at that shard |
| Merge.FirstUnaddablePast | shardlite/shardliteCore/router.py:335-342 | the loop, reaching addable replies, goes past that shard |
| Merge.AverageOf | shardlite/shardliteCore/router.py:345 | a positive count gives the quotient, a float whose product with the count is the sum; otherwise the integer 0 |
| Merge.SumReplies | shardlite/shardliteCore/router.py:334-335 | one SQL `SUM` reply per shard, in shard order |
| Merge.CountReplies | shardlite/shardliteCore/router.py:338-339 | one SQL `COUNT` reply per shard, in shard order |
| Merge.SumRepliesTotal | shardlite/shardliteCore/router.py:334-342 | truthful SUM replies are all addable and total the sum of every shard's values |
| Merge.CountRepliesTotal | shardlite/shardliteCore/router.py:338-342 | truthful COUNT replies are all addable and total the number of every shard's values |
| Merge.AverageOfUnion | shardlite/shardliteCore/router.py:320-346 | with truthful replies the loop never raises, and the merged average is the average of the union of all shards' values |
| Merge.ExtremumOf | shardlite/shardliteCore/router.py:366-375 | `None` exactly when there are no values; otherwise a value from the list that is at least (MAX) or at most (MIN) every value |
| Merge.ExtremumOfShards | shardlite/shardliteCore/router.py:353-375 | over the shards' value lists, `None` exactly when every shard is empty, otherwise a value some shard holds |
| Merge.MergeReply | shardlite/shardliteCore/router.py:389-398 | a key not yet held takes the shard's value, and a held key takes the merge step of the held value and the new one |
| Merge.StandardFoldStep | shardlite/shardliteCore/router.py:382-398 | one more shard's reply is merged into the value kept for the shards before |
| Merge.StandardSumsInts | shardlite/shardliteCore/router.py:393-395 | integer replies, such as COUNTs, are summed over all shards |
| Merge.StandardLastNonNumberWins | shardlite/shardliteCore/router.py:396-398 | a last reply that is not a number, such as a null SUM, replaces everything accumulated |
| Merge.StandardForgetsBeforeNonNumber | shardlite/shardliteCore/router.py:389-398 | everything up to and including a non-number reply is forgotten |
| Router.AverageStatements | shardlite/shardliteCore/router.py:329-339 | the average path sends two queries per shard reached |
| Router.AggregateStatements | shardlite/shardliteCore/router.py:382-386 | the standard path sends one query per shard reached |
| Router.AggregateStatementsPrefix | shardlite/shardliteCore/router.py:382-386 | the queries for the first `i` shards are a prefix of the queries for all of them |
| Router.Router.Reach | shardlite/shardliteCore/router.py:421-446 | the all-shard loops get pools for shards `0 .. Reach - 1`, and `Reach` is `NumShards` or a shard whose pool cannot be built |
| Router.Router.ReachIsFirstFailure | shardlite/shardliteCore/router.py:421-446 | every shard before `Reach` gets a pool |
| Router.Router.ReachPast | shardlite/shardliteCore/router.py:421-446 | a shard up to `Reach` whose pool can be built lies before `Reach` |
| Router.Router.ReachStops | shardlite/shardliteCore/router.py:421-446 | a shard up to `Reach` whose pool cannot be built is `Reach` |
| Router.Router.constructor | shardlite/shardliteCore/router.py:27-50 | a router starts with no pools |
| Router.Router.GetConnectionPool | shardlite/shardliteCore/router.py:421-446 | a cached pool is returned as it is; otherwise a missing or empty registry entry, a missing `db_path` and each rejection by the pool constructor raise, and a new pool built from `db_path` and the configured settings is cached and returned; no cached pool is ever replaced |
| Router.Router.AcquirePool | shardlite/shardliteCore/router.py:171-172 | the loop step gets a pool exactly for the shards before `Reach`, and stops at `Reach` with that shard's error |
| Router.Router.GetConnectionForKey | shardlite/shardliteCore/router.py:402-419 | an invalid key raises; otherwise the pool of the key's shard, or the error of building it |
| Router.Router.RouteInsert | shardlite/shardliteCore/router.py:103-129 | an empty table, a non-dict row and an invalid key raise, checked in that order; otherwise one INSERT of the row on the key's shard, or the pool error |
| Router.Router.RouteSelect | shardlite/shardliteCore/router.py:131-178 | an empty table and an invalid key raise; a keyed select yields the key's shard's rows; an unkeyed one yields every shard's rows in shard order, or the first pool error with the statements issued before it |
| Router.Router.CollectAllShards | shardlite/shardliteCore/router.py:169-178 | the loop issues each shard's statement in shard order and concatenates the shards' answers, stopping at the first shard without a pool |
| Router.Router.SumAllShards | shardlite/shardliteCore/router.py:222-232 | the loop issues each shard's statement in shard order and sums the affected counts, stopping at the first shard without a pool |
| Router.Router.RouteUpdate | shardlite/shardliteCore/router.py:180-232 | an empty table, non-dict `set_values` and an invalid key raise; a keyed update yields the key's shard's count; an unkeyed one yields the sum over all shards, or the first pool error |
| Router.Router.RouteDelete | shardlite/shardliteCore/router.py:234-281 | an empty table and an invalid key raise; a keyed delete yields the key's shard's count; an unkeyed one yields the sum over all shards, or the first pool error |
| Router.Router.AveragedAtPoolError | shardlite/shardliteCore/router.py:329-330 | a pool error at the first shard without a pool, before any unaddable reply, is the average path's outcome |
| Router.Router.AveragedAtTypeError | shardlite/shardliteCore/router.py:332-342 | an unaddable reply at a shard after its two queries went out, before any pool error, is the average path's `TypeError` |
| Router.Router.RouteAggregate | shardlite/shardliteCore/router.py:283-318 | an empty table and an empty expression raise; AVG and AVERAGE average, MAX and MIN take the extremum, and every other name takes the standard merge |
| Router.Router.HandleAverage | shardlite/shardliteCore/router.py:320-346 | a pool error or a `TypeError`, whichever shard comes first, with the queries issued up to it; otherwise the total of the SUM replies divided by the total of the COUNT replies, or 0 when the count total is not positive |
| Router.Router.HandleExtremum | shardlite/shardliteCore/router.py:348-375 | the largest (MAX) or smallest (MIN) of all shards' non-null values, `None` when there are none, or the first pool error |
| Router.Router.HandleStandard | shardlite/shardliteCore/router.py:377-400 | the first shard's reply, each later one added when both are numbers and put in its place otherwise, or the first pool error |
| Coordinator.WithKey | shardlite/shardliteCore/transaction/coordinator.py:48-56 | the keys after `add_shard_key` are the old ones plus the new key, appended only when it is new; no duplicate is ever introduced and the old keys stay in front in their order |
| Coordinator.WithKeyIdempotent | shardlite/shardliteCore/transaction/coordinator.py:48-56 | adding a key twice is adding it once |
| Coordinator.Collected | shardlite/shardliteCore/transaction/coordinator.py:266-285 | the phase's result dict has exactly the transaction's shard keys as keys |
| Coordinator.CollectedLastWins | shardlite/shardliteCore/transaction/coordinator.py:274-283 | a key's entry is what its last reply recorded: its boolean, or `False` for an exception |
| Coordinator.AllTrueIff | shardlite/shardliteCore/transaction/coordinator.py:157-193 | every shard answering `True` makes `all(...)` true; with distinct keys the converse holds, so one failing shard makes the phase fail |
| Coordinator.DuplicateKeyHidesFailure | shardlite/shardliteCore/transaction/coordinator.py:274-283 | with a key listed twice, a later success hides an exception on the first step of that key |
| Coordinator.FailedKeys | shardlite/shardliteCore/transaction/coordinator.py:324-337 | there are no rollback errors when no shard raised |
| Coordinator.FailedKeysExact | shardlite/shardliteCore/transaction/coordinator.py:324-337 | the rollback errors are exactly the shard keys whose rollback step raised: every such key is listed and every listed key is one of them |
| Coordinator.PrepareStep | shardlite/shardliteCore/transaction/coordinator.py:137-164 | `prepare` raises outside INITIAL and leaves the state; otherwise it returns whether every shard voted yes and moves to PREPARED if so, FAILED if not; it never cleans up |
| Coordinator.CommitStep | shardlite/shardliteCore/transaction/coordinator.py:166-205 | from INITIAL a failed auto-prepare returns `False` in FAILED, still active; then anything but PREPARED raises; otherwise it returns whether every shard committed, ends in COMMITTED exactly when it returns `True` and FAILED otherwise, and is cleaned up |
| Coordinator.RollbackStep | shardlite/shardliteCore/transaction/coordinator.py:207-230 | rollback does nothing in COMMITTED or ROLLED_BACK; otherwise it ends in ROLLED_BACK and is cleaned up, whatever the shards did |
| Coordinator.FinalStatesStay | shardlite/shardliteCore/transaction/coordinator.py:176-230 | COMMITTED and ROLLED_BACK are final: no later prepare, commit or rollback leaves them |
| Coordinator.CommittedNeedsCommit | shardlite/shardliteCore/transaction/coordinator.py:190-196 | a transaction reaches COMMITTED only through a commit whose shards all committed |
| Coordinator.Ids | shardlite/shardliteCore/transaction/coordinator.py:426-427 | the ids of the active contexts, in order |
| Coordinator.Without | shardlite/shardliteCore/transaction/coordinator.py:415-417 | removing an id keeps every other context and nothing else |
| Coordinator.WithoutAppend | shardlite/shardliteCore/transaction/coordinator.py:415-417 | removal works part by part, so the remaining contexts keep their order |
| Coordinator.WithoutAbsent | shardlite/shardliteCore/transaction/coordinator.py:416 | removing an id that is not active changes nothing |
| Coordinator.WithoutIdempotent | shardlite/shardliteCore/transaction/coordinator.py:408-417 | cleaning up twice is cleaning up once |
| Coordinator.WithoutRemovesOne | shardlite/shardliteCore/transaction/coordinator.py:415-417 | with distinct ids, cleanup of an active id removes exactly one context |
| Coordinator.WithoutKeepsDistinct | shardlite/shardliteCore/transaction/coordinator.py:415-417 | cleanup keeps the active ids distinct |
| Coordinator.WithoutLast | shardlite/shardliteCore/transaction/coordinator.py:127-133 | cleaning up the transaction begun last restores the list it was begun on |
| Coordinator.TransactionContext.constructor | shardlite/shardliteCore/transaction/coordinator.py:24-37 | a new context is INITIAL with no keys and no operations |
| Coordinator.TransactionContext.AddOperation | shardlite/shardliteCore/transaction/coordinator.py:39-46 | the operation is appended and nothing else changes |
| Coordinator.TransactionContext.AddShardKey | shardlite/shardliteCore/transaction/coordinator.py:48-56 | the keys become `WithKey` of the old keys and nothing else changes |
| Coordinator.TransactionContext.Exit | shardlite/shardliteCore/transaction/coordinator.py:62-67 | without an exception the exit commits and takes on the commit's state, cleanup and error; with one it rolls back |
| Coordinator.ParallelTransactionCoordinator.constructor | shardlite/shardliteCore/transaction/coordinator.py:82-109 | a new coordinator has no active transactions |
| Coordinator.ParallelTransactionCoordinator.Begin | shardlite/shardliteCore/transaction/coordinator.py:111-135 | empty keys raise and change nothing; otherwise a fresh INITIAL context with a copy of the keys and an id not already active, appended to the active list |
| Coordinator.ParallelTransactionCoordinator.Prepare | shardlite/shardliteCore/transaction/coordinator.py:137-164 | the result and new state are those of `PrepareStep` for the votes collected |
| Coordinator.ParallelTransactionCoordinator.Commit | shardlite/shardliteCore/transaction/coordinator.py:166-205 | the result, new state and active list are those of `CommitStep` for the votes and acknowledgements collected |
| Coordinator.ParallelTransactionCoordinator.Rollback | shardlite/shardliteCore/transaction/coordinator.py:207-230 | the new state and active list are those of `RollbackStep` |
| Coordinator.ParallelTransactionCoordinator.Run | shardlite/shardliteCore/transaction/coordinator.py:232-254 | empty keys raise; otherwise the result, end state and active list are those `RunOutcome` gives |
| Coordinator.ParallelTransactionCoordinator.ExecutePreparePhase | shardlite/shardliteCore/transaction/coordinator.py:256-285 | the result dict is `Collected` of the shard keys and their votes |
| Coordinator.ParallelTransactionCoordinator.ExecuteCommitPhase | shardlite/shardliteCore/transaction/coordinator.py:287-315 | the result dict is `Collected` of the shard keys and their acknowledgements |
| Coordinator.ParallelTransactionCoordinator.ExecuteRollbackPhase | shardlite/shardliteCore/transaction/coordinator.py:317-337 | the errors logged are those of `FailedKeys` |
| Coordinator.ParallelTransactionCoordinator.CleanupTransaction | shardlite/shardliteCore/transaction/coordinator.py:408-417 | the context's id is removed from the active list, which shrinks by one when the id was active |
| Coordinator.ParallelTransactionCoordinator.GetActiveTransactions | shardlite/shardliteCore/transaction/coordinator.py:419-427 | the active ids, distinct, in the order of the active list, which `Begin` appends to and `WithoutAppend` shows cleanup keeps in order |
| Coordinator.CollectReplies | shardlite/shardliteCore/transaction/coordinator.py:274-283 | the loop over the replies builds `Collected` of the keys and replies |
| Coordinator.RunOutcome | shardlite/shardliteCore/transaction/coordinator.py:232-254 | `run` reports `True` exactly when no operation raised, commits exactly when every shard prepared and committed, and leaves the transaction active exactly when the auto-prepare failed |
| Coordinator.RunCommitsAfterFailedOperation | shardlite/shardliteCore/transaction/coordinator.py:248-254 | an operation that raised does not stop the commit |
| Coordinator.RunReportsFailedCommitAsSuccess | shardlite/shardliteCore/transaction/coordinator.py:248-251 | a transaction whose commit failed is still reported as a success |
| Coordinator.IntendedRunOutcome | shardlite/shardliteCore/transaction/coordinator.py:232-254 | success is reported exactly when the transaction committed, which needs every operation, prepare and commit to succeed; an operation that raises rolls the transaction back |
| Values.Add | shardlite/shardliteCore/router.py:393-395 | Python's `+` on two numbers: a number whose value is the sum, and an integer when both operands are integers (booleans counting as integers) |
| Values.Max2 | shardlite/shardliteCore/utils/helpers.py:338-339 | Python's `max` of two numbers: one of the two, at least as large as both |
| Values.Min2 | shardlite/shardliteCore/utils/helpers.py:340-341 | Python's `min` of two numbers: one of the two, no larger than either |
| Values.Lookup | shardlite/shardliteCore/router.py:390-391 | a results dict holds a value for a key exactly when the key is among its keys |
| Values.Store | shardlite/shardliteCore/router.py:391-398 | assigning `results[key]` keeps the key order, appends a new key at the end, and the key then maps to the value stored |
| Values.StoreOther | shardlite/shardliteCore/router.py:391-398 | assigning one key of a results dict leaves every other key's value as it was |
| Text.Upper | shardlite/shardliteCore/router.py:305 | `str.upper` keeps the length and upper-cases letter by letter |
| Text.UpperIdempotent | shardlite/shardliteCore/router.py:305 | upper-casing twice is upper-casing once |
| Text.Remove | shardlite/shardliteCore/utils/helpers.py:152 | `replace('_', '')` leaves no underscore and every other character that was there |
| Text.Find | shardlite/shardliteCore/router.py:323 | `str.find` returns -1 exactly when the character is absent, and otherwise the index of its first occurrence |
| Text.BeforeFirst | shardlite/shardliteCore/router.py:305 | `split('(')[0]` is the longest prefix without the separator: the whole string when it is absent, and the text before its first occurrence otherwise |
| Text.BeforeFirstUnique | shardlite/shardliteCore/router.py:305 | a prefix followed by the separator and free of it is exactly what `split('(')[0]` returns |
| Text.NatToString | shardlite/shardliteCore/utils/helpers.py:50 | a shard id's decimal text is a non-empty run of digits, a single digit exactly for ids below ten |
| Text.NatToStringInjective | shardlite/shardliteCore/utils/helpers.py:50 | distinct shard ids give distinct decimal texts |
| Text.PathJoin | shardlite/shardliteCore/utils/helpers.py:51 | `os.path.join` with an absolute second part returns that part |

## Left out

- SQLite itself is not modelled: `execute`, `commit`, `rollback`, `BEGIN IMMEDIATE` and the PRAGMAs. Each shard's answer is an input, so nothing is said about the data stored, and nothing about cross-shard atomicity beyond the coordinator's state machine.
- Concurrency is not modelled. The thread-pool fan-outs of the coordinator become loops in shard-key order. The locks are dropped, because every call is sequential.
- The blocking `Queue.get(timeout)` of `get_connection` fails at once with `Timeout`; waiting for another thread's return cannot happen in a sequential model.
- Opening a SQLite connection always succeeds. A connection is an abstract id. `check_same_thread` and the per-connection bookkeeping in the pool are not modelled.
- Each router step checks a connection out with `get_connection_context` and returns it. `Router.Router` records only that a pool is obtained, so the router has no pool-timeout path. `Pool.ConnectionPool.GetConnectionContext` states the checkout and return on their own.
- The router's checks that `shard_manager` or `strategy` is `None` are left out: both are always present in the model.
- The thread-pool size (`max_workers`) is left out, because it only affects scheduling.
- Floating-point numbers are exact reals. The average division and Python's mixing of ints and floats are therefore exact, and rounding is not modelled.
- Merge.ExtremumOf: the MAX/MIN path is stated over integer column values only; strings and floats compared by Python's ordering are not modelled.
- Merge.MergeReply: the contract covers a results dict with no entry or with the one entry for the aggregate expression. Those are the only dicts the standard merge builds, because each shard's aggregate reply has the single key `agg_expr`.
- The generic `route` dispatcher (`router.py:52-101`) is a thin switch over the `route_*` methods and is not modelled. A missing `where` is the empty dict.
- Logger I/O and timing are not modelled: the console logger, the `on_*` event hooks, the durations and their average, minimum and maximum, `success_rate` and `get_summary`.
- Transaction ids are natural numbers taken from a counter (`nextId`) rather than uuids, which keeps them distinct.
- Filesystem and glue code are not modelled: `load_from_file`, the shard manager, the `api` façade, the stub modules and the examples.
- Text handling is ASCII only. Python's Unicode `isalnum`, `isalpha` and `upper` are modelled on ASCII letters and digits.
- Strategy.New, Helpers.BuildWhereClause, Helpers.BuildSetClause, Helpers.GetShardFilename, Helpers.ValidateSqlIdentifier, Helpers.SanitizeTableName, Pool.ConnectionPool.New and Router.Router's `Route*` methods: the arguments are typed in the model (an `int`, a `string`, a dict of entries). The `isinstance` guards that raise ValueError or return False for an argument of another type are therefore not modelled: `hash_strategy.py`'s `num_shards`, `helpers.py:44-48`, `134`, `175`, `207-208` and `240-241`, `pool.py:58-62`, and `router.py:116`, `152`, `203`, `255`, `298` and `301`. The empty-value halves of those guards are modelled.
- Python default arguments are not modelled; every caller passes each argument. This covers `max_connections=10` and `timeout=30` of `ConnectionPool` (`pool.py:39-40`) and `num_keys=1000` of `get_shard_distribution` (`base.py:105`). The defaults of `ShardliteConfig` are modelled, by `ShardConfig.Default`.
- `__repr__` and `shutdown` are not modelled.
- The router builds its SQL with the table and column names written into the text unchecked; a name holding `?` gives a statement with more placeholders than parameters (`Sql.MarkInTableUnbalances`). The `Sql` balance lemmas therefore assume names without `?`, and what SQLite does with such a statement is not modelled.
- Coordinator.TransactionContext.Exit: after rolling back on an exception, `__exit__` in `coordinator.py` lets that exception propagate. The model returns the rollback outcome and does not model the re-raise.

## Findings

| source | as written | input that shows it | evidently intended | confidence | as-written member | corrected member |
|---|---|---|---|---|---|---|
| shardlite/shardliteCore/transaction/coordinator.py:248-254 | `run` catches an operation's exception and returns False inside the `with` block, so `__exit__` sees no exception and commits the transaction | one operation that raises, every prepare vote and commit acknowledgement true: the transaction ends COMMITTED | an operation that raises makes the transaction roll back | not executed; medium | Coordinator.RunCommitsAfterFailedOperation | Coordinator.IntendedRunOutcome |
| shardlite/shardliteCore/transaction/coordinator.py:248-251 | `run` returns True before `__exit__` commits, and the commit's result is ignored | no operations, every prepare vote true, one commit acknowledgement false: the transaction ends FAILED and `run` returns True | `run` returns True only when the transaction committed, as its docstring says | not executed; medium | Coordinator.RunReportsFailedCommitAsSuccess | Coordinator.IntendedRunOutcome |
