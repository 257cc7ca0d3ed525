/**
 * The two-phase-commit coordinator (`transaction/coordinator.py`): a
 * transaction context with its state and shard keys, and the coordinator
 * that begins, prepares, commits and rolls back transactions and keeps
 * the list of active ones. What each shard's prepare, commit or rollback
 * step comes back with is an input of the model, one reply per shard key
 * in key order; the thread pool's fan-out is a loop in that order.
 */
module Coordinator {
  import opened Wrappers
  import opened Seqs
  import opened TxLog

  /** What one shard's step came back with: a boolean, or an exception. */
  datatype ShardReply = Returned(ok: bool) | Raised

  /** The entry a phase records for a reply: an exception counts as `False`. */
  predicate Recorded(reply: ShardReply)
  {
    reply == Returned(true)
  }

  /** What a callable handed to `run` does when called: return, or raise. */
  datatype Operation = Operation(raises: bool)

  datatype CoordError =
    | EmptyShardKeys                // begin: shard_keys cannot be empty
    | CannotPrepare(state: TxState) // prepare outside INITIAL
    | CannotCommit(state: TxState)  // commit outside PREPARED (after the auto-prepare)

  // ------------------------------------------------------------ shard keys

  /** `add_shard_key`: the key is appended unless it is already there. */
  function WithKey(keys: seq<int>, key: int): (r: seq<int>)
    ensures forall x :: x in r <==> x in keys || x == key
    ensures NoDuplicates(keys) ==> NoDuplicates(r)
    ensures key in keys ==> r == keys
    ensures |keys| <= |r| && r[..|keys|] == keys
  {
    if key in keys then keys else keys + [key]
  }

  /** Adding a key twice is adding it once. */
  lemma WithKeyIdempotent(keys: seq<int>, key: int)
    ensures WithKey(WithKey(keys, key), key) == WithKey(keys, key)
  {
  }

  // --------------------------------------------------------- phase results

  /**
   * The result dict of a prepare or commit phase: each key maps to what its
   * reply recorded; for a key listed twice the later reply wins.
   */
  function Collected(keys: seq<int>, replies: seq<ShardReply>): (m: map<int, bool>)
    requires |keys| == |replies|
    ensures m.Keys == set i | 0 <= i < |keys| :: keys[i]
    decreases |keys|
  {
    if keys == [] then map[]
    else
      var n := |keys| - 1;
      var prev := Collected(keys[..n], replies[..n]);
      assert (set i | 0 <= i < |keys| :: keys[i]) == (set i | 0 <= i < n :: keys[..n][i]) + {keys[n]};
      prev[keys[n] := Recorded(replies[n])]
  }

  /** `all(results.values())`. */
  predicate AllTrue(m: map<int, bool>)
  {
    forall k :: k in m ==> m[k]
  }

  /** The entry of a key is the reply of its last occurrence. */
  lemma {:induction false} CollectedLastWins(keys: seq<int>, replies: seq<ShardReply>, j: nat)
    requires |keys| == |replies| && j < |keys|
    requires forall l :: j < l < |keys| ==> keys[l] != keys[j]
    ensures keys[j] in Collected(keys, replies)
    ensures Collected(keys, replies)[keys[j]] == Recorded(replies[j])
    decreases |keys|
  {
    var n := |keys| - 1;
    if j < n {
      CollectedLastWins(keys[..n], replies[..n], j);
    }
  }

  /**
   * Every shard agreeing makes the phase succeed; with distinct keys the
   * converse holds too, so one failing shard makes it fail.
   */
  lemma {:induction false} AllTrueIff(keys: seq<int>, replies: seq<ShardReply>)
    requires |keys| == |replies|
    ensures (forall i :: 0 <= i < |replies| ==> Recorded(replies[i])) ==> AllTrue(Collected(keys, replies))
    ensures NoDuplicates(keys) && AllTrue(Collected(keys, replies)) ==>
      forall i :: 0 <= i < |replies| ==> Recorded(replies[i])
    decreases |keys|
  {
    if keys != [] {
      var n := |keys| - 1;
      AllTrueIff(keys[..n], replies[..n]);
      if forall i :: 0 <= i < |replies| ==> Recorded(replies[i]) {
        assert forall i :: 0 <= i < n ==> Recorded(replies[..n][i]);
      }
    }
    if NoDuplicates(keys) && AllTrue(Collected(keys, replies)) {
      var c := Collected(keys, replies);
      forall i | 0 <= i < |replies| ensures Recorded(replies[i]) {
        assert forall l :: i < l < |keys| ==> keys[l] != keys[i];
        CollectedLastWins(keys, replies, i);
        assert c[keys[i]];
      }
    }
  }

  /** With a key listed twice, an exception on its first step is hidden by a later success. */
  lemma DuplicateKeyHidesFailure()
    ensures AllTrue(Collected([3, 3], [Raised, Returned(true)]))
  {
    var keys, replies := [3, 3], [Raised, Returned(true)];
    assert keys[..1] == [3] && replies[..1] == [Raised];
    assert Collected(keys[..1], replies[..1]) == map[3 := false];
  }

  /** The shards whose rollback step raised: the errors the rollback phase logs and otherwise ignores. */
  function FailedKeys(keys: seq<int>, replies: seq<ShardReply>): (r: seq<int>)
    requires |keys| == |replies|
    ensures |r| <= |keys|
    ensures forall x :: x in r ==> x in keys
    ensures (forall i :: 0 <= i < |replies| ==> !replies[i].Raised?) ==> r == []
    decreases |keys|
  {
    if keys == [] then []
    else
      var n := |keys| - 1;
      FailedKeys(keys[..n], replies[..n]) + (if replies[n].Raised? then [keys[n]] else [])
  }

  /** The rollback errors are exactly the keys whose rollback step raised. */
  lemma {:induction false} FailedKeysExact(keys: seq<int>, replies: seq<ShardReply>)
    requires |keys| == |replies|
    ensures forall i :: 0 <= i < |keys| && replies[i].Raised? ==> keys[i] in FailedKeys(keys, replies)
    ensures forall x :: x in FailedKeys(keys, replies) ==>
      exists i :: 0 <= i < |keys| && replies[i].Raised? && keys[i] == x
    decreases |keys|
  {
    if keys != [] {
      var n := |keys| - 1;
      FailedKeysExact(keys[..n], replies[..n]);
      var r := FailedKeys(keys, replies);
      assert r == FailedKeys(keys[..n], replies[..n]) + (if replies[n].Raised? then [keys[n]] else []);
      forall i | 0 <= i < |keys| && replies[i].Raised? ensures keys[i] in r {
        if i < n {
          assert keys[..n][i] == keys[i] && replies[..n][i] == replies[i];
        }
      }
      forall x | x in r ensures exists i :: 0 <= i < |keys| && replies[i].Raised? && keys[i] == x {
        if x in FailedKeys(keys[..n], replies[..n]) {
          var i :| 0 <= i < n && replies[..n][i].Raised? && keys[..n][i] == x;
          assert replies[i].Raised? && keys[i] == x;
        } else {
          assert replies[n].Raised? && keys[n] == x;
        }
      }
    }
  }

  /** One more shard: its key is appended exactly when its rollback raised. */
  lemma FailedKeysStep(keys: seq<int>, replies: seq<ShardReply>, i: nat)
    requires |keys| == |replies| && i < |keys|
    ensures FailedKeys(keys[..i + 1], replies[..i + 1])
         == FailedKeys(keys[..i], replies[..i]) + (if replies[i].Raised? then [keys[i]] else [])
  {
    assert keys[..i + 1][..i] == keys[..i] && replies[..i + 1][..i] == replies[..i];
  }

  // ------------------------------------------------------- state machine

  /** The result and end state of one call, and whether it removed the transaction from the active list. */
  datatype Step<T> = Step(result: Result<T, CoordError>, state: TxState, cleanedUp: bool)

  /** `prepare`: only from INITIAL; PREPARED exactly when every shard voted yes, FAILED otherwise. */
  function PrepareStep(s: TxState, allPrepared: bool): (r: Step<bool>)
    ensures r.result.Err? <==> s != Initial
    ensures r.result.Err? ==> r.result.error == CannotPrepare(s) && r.state == s
    ensures r.result.Ok? ==> r.result.value == allPrepared && (r.state == Prepared <==> allPrepared)
    ensures r.result.Ok? ==> r.state == Prepared || r.state == Failed
    ensures !r.cleanedUp
  {
    if s != Initial then Step(Err(CannotPrepare(s)), s, false)
    else if allPrepared then Step(Ok(true), Prepared, false)
    else Step(Ok(false), Failed, false)
  }

  /**
   * `commit`: from INITIAL it prepares first and gives up, still active,
   * when that fails; then only from PREPARED; COMMITTED exactly when every
   * shard committed, FAILED otherwise, and removed from the active list
   * either way.
   */
  function CommitStep(s: TxState, allPrepared: bool, allCommitted: bool): (r: Step<bool>)
    ensures r.result.Ok? ==> (r.result.value <==> r.state == Committed)
    ensures r.cleanedUp <==> s == Prepared || (s == Initial && allPrepared)
    ensures r.cleanedUp ==> r.result == Ok(allCommitted) && (r.state == Committed || r.state == Failed)
    ensures s == Initial && !allPrepared ==> r.result == Ok(false) && r.state == Failed
    ensures r.result.Err? <==> s != Initial && s != Prepared
    ensures r.result.Err? ==> r.result.error == CannotCommit(s) && r.state == s
  {
    var p := PrepareStep(s, allPrepared);
    if s == Initial && !allPrepared then Step(Ok(false), p.state, false)
    else
      var s' := if s == Initial then p.state else s;
      if s' != Prepared then Step(Err(CannotCommit(s')), s', false)
      else if allCommitted then Step(Ok(true), Committed, true)
      else Step(Ok(false), Failed, true)
  }

  /** `rollback`: nothing in COMMITTED or ROLLED_BACK; otherwise ROLLED_BACK whatever the shards did. */
  function RollbackStep(s: TxState): (r: Step<()>)
    ensures r.result.Ok?
    ensures r.cleanedUp <==> s != Committed && s != RolledBack
    ensures r.state == if r.cleanedUp then RolledBack else s
  {
    if s == Committed || s == RolledBack then Step(Ok(()), s, false)
    else Step(Ok(()), RolledBack, true)
  }

  /** A call on a transaction, with the shard outcomes of its phases. */
  datatype Call = PrepareCall(allPrepared: bool) | CommitCall(allPrepared: bool, allCommitted: bool) | RollbackCall

  function After(s: TxState, c: Call): TxState
  {
    match c
    case PrepareCall(p) => PrepareStep(s, p).state
    case CommitCall(p, q) => CommitStep(s, p, q).state
    case RollbackCall => RollbackStep(s).state
  }

  /** The state after a series of calls on one transaction. */
  function Run(s: TxState, calls: seq<Call>): TxState
    decreases |calls|
  {
    if calls == [] then s else Run(After(s, calls[0]), calls[1..])
  }

  /** COMMITTED and ROLLED_BACK are final: no later call changes them. */
  lemma {:induction false} FinalStatesStay(s: TxState, calls: seq<Call>)
    requires s == Committed || s == RolledBack
    ensures Run(s, calls) == s
    decreases |calls|
  {
    if calls != [] {
      assert After(s, calls[0]) == s;
      FinalStatesStay(s, calls[1..]);
    }
  }

  /** A transaction that ends COMMITTED went through a commit whose shards all committed. */
  lemma {:induction false} CommittedNeedsCommit(s: TxState, calls: seq<Call>)
    requires s != Committed && Run(s, calls) == Committed
    ensures exists i :: 0 <= i < |calls| && calls[i].CommitCall? && calls[i].allCommitted
    decreases |calls|
  {
    var c := calls[0];
    if After(s, c) == Committed {
      assert c.CommitCall? && c.allCommitted;
    } else {
      CommittedNeedsCommit(After(s, c), calls[1..]);
      var i :| 0 <= i < |calls[1..]| && calls[1..][i].CommitCall? && calls[1..][i].allCommitted;
      assert calls[i + 1] == calls[1..][i];
    }
  }

  // --------------------------------------------------------- active list

  /** No two contexts of the list share an id. */
  predicate DistinctIds(txs: seq<TransactionContext>)
  {
    forall i, j :: 0 <= i < j < |txs| ==> txs[i].id != txs[j].id
  }

  function Ids(txs: seq<TransactionContext>): (r: seq<nat>)
    ensures |r| == |txs|
    ensures forall i :: 0 <= i < |txs| ==> r[i] == txs[i].id
  {
    if txs == [] then [] else [txs[0].id] + Ids(txs[1..])
  }

  /** The active list after `del active_transactions[id]`. */
  function Without(txs: seq<TransactionContext>, id: nat): (r: seq<TransactionContext>)
    ensures forall t :: t in r ==> t in txs && t.id != id
    ensures forall t :: t in txs && t.id != id ==> t in r
    ensures |r| <= |txs|
  {
    if txs == [] then []
    else (if txs[0].id == id then [] else [txs[0]]) + Without(txs[1..], id)
  }

  /** Cleanup keeps the remaining contexts in their order: it works part by part. */
  lemma {:induction false} WithoutAppend(a: seq<TransactionContext>, b: seq<TransactionContext>, id: nat)
    ensures Without(a + b, id) == Without(a, id) + Without(b, id)
  {
    if a == [] {
      assert a + b == b;
    } else {
      assert (a + b)[1..] == a[1..] + b;
      WithoutAppend(a[1..], b, id);
    }
  }

  /** Removing an id that is not there changes nothing, so cleanup is idempotent. */
  lemma {:induction false} WithoutAbsent(txs: seq<TransactionContext>, id: nat)
    requires id !in Ids(txs)
    ensures Without(txs, id) == txs
  {
    if txs != [] {
      assert Ids(txs) == [txs[0].id] + Ids(txs[1..]);
      WithoutAbsent(txs[1..], id);
    }
  }

  lemma WithoutIdempotent(txs: seq<TransactionContext>, id: nat)
    ensures Without(Without(txs, id), id) == Without(txs, id)
  {
    WithoutAbsent(Without(txs, id), id);
  }

  /** With distinct ids, cleanup removes exactly one transaction when its id is active. */
  lemma {:induction false} WithoutRemovesOne(txs: seq<TransactionContext>, id: nat)
    requires DistinctIds(txs) && id in Ids(txs)
    ensures |Without(txs, id)| == |txs| - 1
  {
    assert Ids(txs) == [txs[0].id] + Ids(txs[1..]);
    if txs[0].id == id {
      assert id !in Ids(txs[1..]);
      WithoutAbsent(txs[1..], id);
    } else {
      WithoutRemovesOne(txs[1..], id);
    }
  }

  lemma {:induction false} WithoutKeepsDistinct(txs: seq<TransactionContext>, id: nat)
    requires DistinctIds(txs)
    ensures DistinctIds(Without(txs, id))
  {
    if txs != [] {
      var rest := txs[1..];
      WithoutKeepsDistinct(rest, id);
      var tail := Without(rest, id);
      if txs[0].id != id {
        var r := Without(txs, id);
        assert r == [txs[0]] + tail;
        forall t | t in tail ensures t.id != txs[0].id {
          var j :| 0 <= j < |rest| && rest[j] == t;
          assert txs[j + 1] == t;
        }
        forall i, j | 0 <= i < j < |r| ensures r[i].id != r[j].id {
          assert r[j] == tail[j - 1];
          if i > 0 {
            assert r[i] == tail[i - 1];
          } else {
            assert tail[j - 1] in tail;
          }
        }
      }
    }
  }

  /** Cleaning up the transaction that was begun last restores the list it was begun on. */
  lemma {:induction false} WithoutLast(txs: seq<TransactionContext>, t: TransactionContext)
    requires t.id !in Ids(txs)
    ensures Without(txs + [t], t.id) == txs
  {
    if txs == [] {
      assert [t][1..] == [];
    } else {
      assert Ids(txs) == [txs[0].id] + Ids(txs[1..]);
      assert (txs + [t])[1..] == txs[1..] + [t];
      WithoutLast(txs[1..], t);
    }
  }

  // ------------------------------------------------------------- classes

  /** `TransactionContext`. */
  class TransactionContext {
    const coordinator: ParallelTransactionCoordinator
    /** `transaction_id`. */
    const id: nat
    var state: TxState
    var shardKeys: seq<int>
    var operations: seq<Operation>

    constructor (coordinator: ParallelTransactionCoordinator, id: nat)
      ensures this.coordinator == coordinator && this.id == id
      ensures state == Initial && shardKeys == [] && operations == []
    {
      this.coordinator := coordinator;
      this.id := id;
      state := Initial;
      shardKeys := [];
      operations := [];
    }

    /** `add_operation`. */
    method AddOperation(operation: Operation)
      modifies this
      ensures operations == old(operations) + [operation]
      ensures state == old(state) && shardKeys == old(shardKeys)
    {
      operations := operations + [operation];
    }

    /** `add_shard_key`. */
    method AddShardKey(key: int)
      modifies this
      ensures shardKeys == WithKey(old(shardKeys), key)
      ensures state == old(state) && operations == old(operations)
    {
      if key !in shardKeys {
        shardKeys := shardKeys + [key];
      }
    }

    /**
     * `__exit__`: commit when the block raised nothing, roll back when it
     * did. The commit's boolean is dropped; its `ValueError` propagates.
     */
    method Exit(raised: bool, votes: seq<ShardReply>, acks: seq<ShardReply>, rollbacks: seq<ShardReply>)
      returns (r: Result<(), CoordError>)
      requires coordinator.Valid()
      requires |votes| == |acks| == |shardKeys|
      requires raised ==> |rollbacks| == |shardKeys|
      modifies this, coordinator
      ensures coordinator.Valid() && coordinator.nextId == old(coordinator.nextId)
      ensures shardKeys == old(shardKeys) && operations == old(operations)
      ensures !raised ==>
        var step := CommitStep(old(state), AllTrue(Collected(shardKeys, votes)), AllTrue(Collected(shardKeys, acks)));
        && state == step.state
        && (step.result.Err? ==> r == Err(step.result.error))
        && (step.result.Ok? ==> r == Ok(()))
        && coordinator.active == if step.cleanedUp then Without(old(coordinator.active), id) else old(coordinator.active)
      ensures raised ==>
        var step := RollbackStep(old(state));
        && state == step.state && r == Ok(())
        && coordinator.active == if step.cleanedUp then Without(old(coordinator.active), id) else old(coordinator.active)
    {
      if !raised {
        var committed := coordinator.Commit(this, votes, acks);
        if committed.Err? {
          return Err(committed.error);
        }
      } else {
        coordinator.Rollback(this, rollbacks);
      }
      r := Ok(());
    }
  }

  /** `ParallelTransactionCoordinator`. */
  class ParallelTransactionCoordinator {
    /** `active_transactions`, in insertion order. */
    var active: seq<TransactionContext>
    /** The next transaction id: every id handed out so far lies below it. */
    var nextId: nat

    /** Active ids are distinct and were handed out already. */
    predicate Valid()
      reads this
    {
      && DistinctIds(active)
      && forall t :: t in active ==> t.id < nextId
    }

    constructor ()
      ensures Valid() && active == [] && nextId == 0
    {
      active := [];
      nextId := 0;
    }

    /** `begin`: a new INITIAL context with a copy of the keys, registered as active. */
    method Begin(shardKeys: seq<int>) returns (r: Result<TransactionContext, CoordError>)
      requires Valid()
      modifies this
      ensures Valid()
      ensures r.Err? <==> shardKeys == []
      ensures r.Err? ==> r.error == EmptyShardKeys && active == old(active) && nextId == old(nextId)
      ensures r.Ok? ==>
        && fresh(r.value) && r.value.coordinator == this
        && r.value.state == Initial && r.value.shardKeys == shardKeys && r.value.operations == []
        && r.value.id !in Ids(old(active))
        && active == old(active) + [r.value]
    {
      if shardKeys == [] {
        return Err(EmptyShardKeys);
      }
      var context := new TransactionContext(this, nextId);
      context.shardKeys := shardKeys;
      context.state := Initial;
      nextId := nextId + 1;
      active := active + [context];
      assert Ids(active) == Ids(old(active)) + [context.id] by {
        assert |Ids(active)| == |Ids(old(active)) + [context.id]|;
      }
      r := Ok(context);
    }

    /** `prepare`. */
    method Prepare(context: TransactionContext, votes: seq<ShardReply>) returns (r: Result<bool, CoordError>)
      requires |votes| == |context.shardKeys|
      modifies context
      ensures context.shardKeys == old(context.shardKeys) && context.operations == old(context.operations)
      ensures var step := PrepareStep(old(context.state), AllTrue(Collected(context.shardKeys, votes)));
        r == step.result && context.state == step.state
    {
      if context.state != Initial {
        return Err(CannotPrepare(context.state));
      }
      context.state := Preparing;
      var results := ExecutePreparePhase(context, votes);
      var allPrepared := forall k | k in results :: results[k];
      if allPrepared {
        context.state := Prepared;
      } else {
        context.state := Failed;
      }
      return Ok(allPrepared);
    }

    /** `commit`. */
    method Commit(context: TransactionContext, votes: seq<ShardReply>, acks: seq<ShardReply>)
      returns (r: Result<bool, CoordError>)
      requires Valid() && |votes| == |acks| == |context.shardKeys|
      modifies this, context
      ensures Valid() && nextId == old(nextId)
      ensures context.shardKeys == old(context.shardKeys) && context.operations == old(context.operations)
      ensures var step := CommitStep(old(context.state),
                                     AllTrue(Collected(context.shardKeys, votes)),
                                     AllTrue(Collected(context.shardKeys, acks)));
        && r == step.result && context.state == step.state
        && active == if step.cleanedUp then Without(old(active), context.id) else old(active)
    {
      if context.state == Initial {
        var prepared := Prepare(context, votes);
        if !prepared.value {
          return Ok(false);
        }
      }
      if context.state != Prepared {
        return Err(CannotCommit(context.state));
      }
      context.state := Committing;
      var results := ExecuteCommitPhase(context, acks);
      var allCommitted := forall k | k in results :: results[k];
      if allCommitted {
        context.state := Committed;
      } else {
        context.state := Failed;
      }
      CleanupTransaction(context);
      return Ok(allCommitted);
    }

    /** `rollback`. */
    method Rollback(context: TransactionContext, replies: seq<ShardReply>)
      requires Valid() && |replies| == |context.shardKeys|
      modifies this, context
      ensures Valid() && nextId == old(nextId)
      ensures context.shardKeys == old(context.shardKeys) && context.operations == old(context.operations)
      ensures var step := RollbackStep(old(context.state));
        && context.state == step.state
        && active == if step.cleanedUp then Without(old(active), context.id) else old(active)
    {
      if context.state == Committed || context.state == RolledBack {
        return;
      }
      context.state := RollingBack;
      var errors := ExecuteRollbackPhase(context, replies);
      context.state := RolledBack;
      CleanupTransaction(context);
    }

    /**
     * `run`: begin, record and call the operations, stopping at the first
     * that raises, and leave the `with` block normally either way, so the
     * exit commits. The returned boolean says only whether every operation
     * returned; `tx` is the context it began.
     */
    method Run(shardKeys: seq<int>, operations: seq<Operation>, votes: seq<ShardReply>, acks: seq<ShardReply>)
      returns (r: Result<bool, CoordError>, ghost tx: TransactionContext?)
      requires Valid() && |votes| == |acks| == |shardKeys|
      modifies this
      ensures Valid()
      ensures shardKeys == [] ==> r == Err(EmptyShardKeys) && active == old(active)
      ensures shardKeys != [] ==>
        var out := RunOutcome(operations, AllTrue(Collected(shardKeys, votes)), AllTrue(Collected(shardKeys, acks)));
        && r == Ok(out.reported)
        && tx != null && fresh(tx) && tx.state == out.state
        && tx.shardKeys == shardKeys && tx.operations == operations
        && active == if out.leftActive then old(active) + [tx] else old(active)
    {
      var begun := Begin(shardKeys);
      if begun.Err? {
        return Err(begun.error), null;
      }
      var context := begun.value;
      tx := context;
      var i := 0;
      while i < |operations|
        invariant 0 <= i <= |operations|
        invariant fresh(context) && context.coordinator == this
        invariant context.state == Initial && context.shardKeys == shardKeys
        invariant context.operations == operations[..i]
        invariant Valid() && active == old(active) + [context] && context.id !in Ids(old(active))
      {
        context.AddOperation(operations[i]);
        assert operations[..i + 1] == operations[..i] + [operations[i]];
        i := i + 1;
      }
      assert operations[..i] == operations;
      var returned := true;
      var j := 0;
      while j < |operations|
        invariant 0 <= j <= |operations|
        invariant forall l :: 0 <= l < j ==> !operations[l].raises
      {
        if operations[j].raises {
          returned := false;
          break;
        }
        j := j + 1;
      }
      var exited := context.Exit(false, votes, acks, []);
      if CommitStep(Initial, AllTrue(Collected(shardKeys, votes)), AllTrue(Collected(shardKeys, acks))).cleanedUp {
        WithoutLast(old(active), context);
      }
      r := Ok(returned);
    }

    /** `_execute_prepare_phase`: one vote per shard key, an exception recorded as `False`. */
    method ExecutePreparePhase(context: TransactionContext, votes: seq<ShardReply>) returns (results: map<int, bool>)
      requires |votes| == |context.shardKeys|
      ensures results == Collected(context.shardKeys, votes)
    {
      results := CollectReplies(context.shardKeys, votes);
    }

    /**
     * `_execute_commit_phase`: one acknowledgement per shard key, an exception
     * recorded as `False`. It has the same shape as `_execute_prepare_phase`,
     * as in `coordinator.py`; both collect through `CollectReplies`.
     */
    method ExecuteCommitPhase(context: TransactionContext, acks: seq<ShardReply>) returns (results: map<int, bool>)
      requires |acks| == |context.shardKeys|
      ensures results == Collected(context.shardKeys, acks)
    {
      results := CollectReplies(context.shardKeys, acks);
    }

    /** `_execute_rollback_phase`: every shard is rolled back; the ones that raise are only logged. */
    method ExecuteRollbackPhase(context: TransactionContext, replies: seq<ShardReply>) returns (errors: seq<int>)
      requires |replies| == |context.shardKeys|
      ensures errors == FailedKeys(context.shardKeys, replies)
    {
      var keys := context.shardKeys;
      errors := [];
      var i := 0;
      while i < |keys|
        invariant 0 <= i <= |keys|
        invariant errors == FailedKeys(keys[..i], replies[..i])
      {
        FailedKeysStep(keys, replies, i);
        if replies[i].Raised? {
          errors := errors + [keys[i]];
        }
        i := i + 1;
      }
      assert keys[..i] == keys && replies[..i] == replies;
    }

    /** `_cleanup_transaction`: drops the context's id from the active list, if it is there. */
    method CleanupTransaction(context: TransactionContext)
      requires Valid()
      modifies this
      ensures Valid() && nextId == old(nextId)
      ensures active == Without(old(active), context.id)
      ensures context.id in Ids(old(active)) ==> |active| == |old(active)| - 1
    {
      WithoutKeepsDistinct(active, context.id);
      if context.id in Ids(active) {
        WithoutRemovesOne(active, context.id);
        active := Without(active, context.id);
      } else {
        WithoutAbsent(active, context.id);
      }
    }

    /** `get_active_transactions`: the active ids, in the order they were begun. */
    method GetActiveTransactions() returns (ids: seq<nat>)
      requires Valid()
      ensures NoDuplicates(ids) && |ids| == |active|
      ensures forall i :: 0 <= i < |active| ==> ids[i] == active[i].id
    {
      ids := Ids(active);
    }
  }

  /** The loop shared by the prepare and commit phases, in key order. */
  method CollectReplies(keys: seq<int>, replies: seq<ShardReply>) returns (results: map<int, bool>)
    requires |keys| == |replies|
    ensures results == Collected(keys, replies)
  {
    results := map[];
    var i := 0;
    while i < |keys|
      invariant 0 <= i <= |keys|
      invariant results == Collected(keys[..i], replies[..i])
    {
      results := results[keys[i] := Recorded(replies[i])];
      assert keys[..i + 1][..i] == keys[..i] && replies[..i + 1][..i] == replies[..i];
      i := i + 1;
    }
    assert keys[..i] == keys && replies[..i] == replies;
  }

  // ------------------------------------------------------------------ run

  /** What `run` reports, the end state of its transaction, and whether it stays in the active list. */
  datatype RunResult = RunResult(reported: bool, state: TxState, leftActive: bool)

  /** `run` as written: operations are called, then the exit commits from INITIAL whatever they did. */
  function RunOutcome(operations: seq<Operation>, allPrepared: bool, allCommitted: bool): (out: RunResult)
    ensures out.reported <==> forall i :: 0 <= i < |operations| ==> !operations[i].raises
    ensures out.state == Committed <==> allPrepared && allCommitted
    ensures out.leftActive <==> !allPrepared
  {
    var step := CommitStep(Initial, allPrepared, allCommitted);
    RunResult(forall i :: 0 <= i < |operations| ==> !operations[i].raises, step.state, !step.cleanedUp)
  }

  /** An operation that raised does not stop the commit. */
  lemma RunCommitsAfterFailedOperation()
    ensures RunOutcome([Operation(true)], true, true) == RunResult(false, Committed, false)
  {
    assert [Operation(true)][0].raises;
  }

  /** A transaction whose commit failed is still reported as a success. */
  lemma RunReportsFailedCommitAsSuccess()
    ensures RunOutcome([], true, false) == RunResult(true, Failed, false)
  {
  }

  /**
   * `run` as its documentation describes it: roll back when an operation
   * raises, and report success exactly when the transaction committed.
   */
  function IntendedRunOutcome(operations: seq<Operation>, allPrepared: bool, allCommitted: bool): (out: RunResult)
    ensures out.reported <==> out.state == Committed
    ensures out.reported <==>
      (forall i :: 0 <= i < |operations| ==> !operations[i].raises) && allPrepared && allCommitted
    ensures (exists i :: 0 <= i < |operations| && operations[i].raises) ==> out.state == RolledBack && !out.leftActive
  {
    if exists i :: 0 <= i < |operations| && operations[i].raises then
      var step := RollbackStep(Initial);
      RunResult(false, step.state, !step.cleanedUp)
    else
      var step := CommitStep(Initial, allPrepared, allCommitted);
      RunResult(step.result == Ok(true), step.state, !step.cleanedUp)
  }
}
