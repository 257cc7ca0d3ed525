/**
 * The transaction states and the integer counters of `TransactionMetrics`
 * (`transaction/logger.py`). Durations, averages and the duration minimum
 * and maximum are floating point and are not part of this model.
 */
module TxLog {
  import opened Wrappers

  /** `TransactionState`. */
  datatype TxState =
    | Initial | Preparing | Prepared | Committing | Committed | RollingBack | RolledBack | Failed

  const AllStates: set<TxState> :=
    {Initial, Preparing, Prepared, Committing, Committed, RollingBack, RolledBack, Failed}

  lemma AllStatesComplete(s: TxState)
    ensures s in AllStates
  {
    match s
    case Initial =>
    case Preparing =>
    case Prepared =>
    case Committing =>
    case Committed =>
    case RollingBack =>
    case RolledBack =>
    case Failed =>
  }

  /** `{state: 0 for state in TransactionState}`. */
  function ZeroCounts(): (m: map<TxState, nat>)
    ensures m.Keys == AllStates
    ensures forall s :: s in m ==> m[s] == 0
  {
    map s | s in AllStates :: 0
  }

  /** The sum of a per-state count map over the eight states. */
  function StateTotal(m: map<TxState, nat>): nat
    requires m.Keys == AllStates
  {
    m[Initial] + m[Preparing] + m[Prepared] + m[Committing]
      + m[Committed] + m[RollingBack] + m[RolledBack] + m[Failed]
  }

  /** The counters of `TransactionMetrics`, as one value. */
  datatype Counters = Counters(
    total: nat,
    successful: nat,
    failed: nat,
    stateCounts: map<TxState, nat>,
    errorCounts: map<string, nat>)

  /** What `__init__` and `reset` set. */
  function Fresh(): (c: Counters)
    ensures CountersValid(c)
    ensures c.total == 0 && c.successful == 0 && c.failed == 0 && c.errorCounts == map[]
  {
    Counters(0, 0, 0, ZeroCounts(), map[])
  }

  /**
   * What the counters always satisfy: one count per state, summing to the
   * total; COMMITTED counts are the successes; FAILED and ROLLED_BACK the failures.
   */
  predicate CountersValid(c: Counters)
  {
    && c.stateCounts.Keys == AllStates
    && StateTotal(c.stateCounts) == c.total
    && c.successful == c.stateCounts[Committed]
    && c.failed == c.stateCounts[Failed] + c.stateCounts[RolledBack]
  }

  /** `error_counts.get(name, 0)`. */
  function ErrorCount(m: map<string, nat>, name: string): nat
  {
    if name in m then m[name] else 0
  }

  /** `state_counts[state] += 1`. */
  function BumpState(m: map<TxState, nat>, state: TxState): (r: map<TxState, nat>)
    requires state in m
    ensures r.Keys == m.Keys
  {
    m[state := m[state] + 1]
  }

  /** `error_counts[name] = error_counts.get(name, 0) + 1`. */
  function BumpError(m: map<string, nat>, name: string): map<string, nat>
  {
    m[name := ErrorCount(m, name) + 1]
  }

  /** `record_transaction` on the integer counters; `error` is the type name of the exception, if any. */
  function Record(c: Counters, state: TxState, error: Option<string>): (r: Counters)
    requires state in c.stateCounts
    ensures r.stateCounts.Keys == c.stateCounts.Keys
  {
    Counters(
      c.total + 1,
      if state == Committed then c.successful + 1 else c.successful,
      if state == Failed || state == RolledBack then c.failed + 1 else c.failed,
      BumpState(c.stateCounts, state),
      if error.Some? then BumpError(c.errorCounts, error.value) else c.errorCounts)
  }

  /**
   * What one record changes: the total, the state's count, the success or
   * failure count its state belongs to and the error's count grow by one,
   * and every other count stays.
   */
  lemma RecordCounts(c: Counters, state: TxState, error: Option<string>)
    requires state in c.stateCounts
    ensures var r := Record(c, state, error);
      && r.total == c.total + 1
      && state in r.stateCounts && r.stateCounts[state] == c.stateCounts[state] + 1
      && (forall s :: s in c.stateCounts && s != state ==> r.stateCounts[s] == c.stateCounts[s])
      && r.successful == c.successful + (if state == Committed then 1 else 0)
      && r.failed == c.failed + (if state == Failed || state == RolledBack then 1 else 0)
      && (error.None? ==> r.errorCounts == c.errorCounts)
      && (error.Some? ==> r.errorCounts.Keys == c.errorCounts.Keys + {error.value})
      && (error.Some? ==> r.errorCounts[error.value] == ErrorCount(c.errorCounts, error.value) + 1)
      && (error.Some? ==> forall e :: e in c.errorCounts && e != error.value ==> r.errorCounts[e] == c.errorCounts[e])
  {
  }

  /** Recording keeps the counters consistent. */
  lemma RecordPreservesValid(c: Counters, state: TxState, error: Option<string>)
    requires CountersValid(c)
    ensures CountersValid(Record(c, state, error))
  {
    AllStatesComplete(state);
  }

  /** Successes and failures never exceed the total. */
  lemma SuccessesAndFailuresBounded(c: Counters)
    requires CountersValid(c)
    ensures c.successful + c.failed <= c.total
  {
  }

  /** Records a whole history of outcomes in order. */
  function RecordAll(c: Counters, outcomes: seq<(TxState, Option<string>)>): (r: Counters)
    requires c.stateCounts.Keys == AllStates
    ensures r.stateCounts.Keys == AllStates
    decreases |outcomes|
  {
    if outcomes == [] then c
    else
      AllStatesComplete(outcomes[0].0);
      RecordAll(Record(c, outcomes[0].0, outcomes[0].1), outcomes[1..])
  }

  function CountState(outcomes: seq<(TxState, Option<string>)>, s: TxState): nat
  {
    if outcomes == [] then 0
    else (if outcomes[0].0 == s then 1 else 0) + CountState(outcomes[1..], s)
  }

  function CountError(outcomes: seq<(TxState, Option<string>)>, name: string): nat
  {
    if outcomes == [] then 0
    else (if outcomes[0].1 == Some(name) then 1 else 0) + CountError(outcomes[1..], name)
  }

  /** A history of outcomes keeps the counters consistent and adds its length to the total. */
  lemma {:induction false} RecordAllValid(c: Counters, outcomes: seq<(TxState, Option<string>)>)
    requires CountersValid(c)
    ensures CountersValid(RecordAll(c, outcomes))
    ensures RecordAll(c, outcomes).total == c.total + |outcomes|
    decreases |outcomes|
  {
    if outcomes != [] {
      RecordPreservesValid(c, outcomes[0].0, outcomes[0].1);
      AllStatesComplete(outcomes[0].0);
      RecordAllValid(Record(c, outcomes[0].0, outcomes[0].1), outcomes[1..]);
    }
  }

  /** Each state count grows by how often that state occurs in the history. */
  lemma {:induction false} RecordAllStateCounts(c: Counters, outcomes: seq<(TxState, Option<string>)>, s: TxState)
    requires c.stateCounts.Keys == AllStates
    ensures s in AllStates
    ensures RecordAll(c, outcomes).stateCounts[s] == c.stateCounts[s] + CountState(outcomes, s)
    decreases |outcomes|
  {
    AllStatesComplete(s);
    if outcomes != [] {
      AllStatesComplete(outcomes[0].0);
      RecordAllStateCounts(Record(c, outcomes[0].0, outcomes[0].1), outcomes[1..], s);
    }
  }

  /** Each error count grows by how often that error type name occurs in the history. */
  lemma {:induction false} RecordAllErrorCounts(c: Counters, outcomes: seq<(TxState, Option<string>)>, e: string)
    requires c.stateCounts.Keys == AllStates
    ensures ErrorCount(RecordAll(c, outcomes).errorCounts, e) == ErrorCount(c.errorCounts, e) + CountError(outcomes, e)
    decreases |outcomes|
  {
    if outcomes != [] {
      AllStatesComplete(outcomes[0].0);
      var c' := Record(c, outcomes[0].0, outcomes[0].1);
      assert ErrorCount(c'.errorCounts, e) == ErrorCount(c.errorCounts, e) + (if outcomes[0].1 == Some(e) then 1 else 0);
      RecordAllErrorCounts(c', outcomes[1..], e);
    }
  }

  /**
   * A history of outcomes leaves the total grown by its length, each state
   * count grown by how often that state occurs, and each error count grown
   * by how often that error type name occurs.
   */
  lemma RecordAllCounts(c: Counters, outcomes: seq<(TxState, Option<string>)>)
    requires CountersValid(c)
    ensures CountersValid(RecordAll(c, outcomes))
    ensures RecordAll(c, outcomes).total == c.total + |outcomes|
    ensures forall s :: s in AllStates ==>
      RecordAll(c, outcomes).stateCounts[s] == c.stateCounts[s] + CountState(outcomes, s)
    ensures forall e ::
      ErrorCount(RecordAll(c, outcomes).errorCounts, e) == ErrorCount(c.errorCounts, e) + CountError(outcomes, e)
  {
    RecordAllValid(c, outcomes);
    forall s | s in AllStates
      ensures RecordAll(c, outcomes).stateCounts[s] == c.stateCounts[s] + CountState(outcomes, s)
    {
      RecordAllStateCounts(c, outcomes, s);
    }
    forall e
      ensures ErrorCount(RecordAll(c, outcomes).errorCounts, e) == ErrorCount(c.errorCounts, e) + CountError(outcomes, e)
    {
      RecordAllErrorCounts(c, outcomes, e);
    }
  }

  /** `TransactionMetrics` in `logger.py`; `Snapshot` is its counters as a value. */
  class TransactionMetrics {
    var totalTransactions: nat
    var successfulTransactions: nat
    var failedTransactions: nat
    var stateCounts: map<TxState, nat>
    var errorCounts: map<string, nat>

    function Snapshot(): Counters
      reads this
    {
      Counters(totalTransactions, successfulTransactions, failedTransactions, stateCounts, errorCounts)
    }

    predicate Valid()
      reads this
    {
      CountersValid(Snapshot())
    }

    constructor ()
      ensures Valid() && Snapshot() == Fresh()
    {
      totalTransactions := 0;
      successfulTransactions := 0;
      failedTransactions := 0;
      stateCounts := ZeroCounts();
      errorCounts := map[];
    }

    /** `record_transaction`: `error` is `type(error).__name__` when an exception was passed. */
    method RecordTransaction(state: TxState, error: Option<string>)
      requires Valid()
      modifies this
      ensures Valid()
      ensures Snapshot() == Record(old(Snapshot()), state, error)
    {
      AllStatesComplete(state);
      RecordPreservesValid(Snapshot(), state, error);
      totalTransactions := totalTransactions + 1;
      stateCounts := BumpState(stateCounts, state);
      if state == Committed {
        successfulTransactions := successfulTransactions + 1;
      } else if state == Failed || state == RolledBack {
        failedTransactions := failedTransactions + 1;
      }
      if error.Some? {
        errorCounts := BumpError(errorCounts, error.value);
      }
    }

    /** `reset`: every counter and map back to its initial value. */
    method Reset()
      modifies this
      ensures Valid() && Snapshot() == Fresh()
    {
      totalTransactions := 0;
      successfulTransactions := 0;
      failedTransactions := 0;
      stateCounts := ZeroCounts();
      errorCounts := map[];
    }
  }
}
