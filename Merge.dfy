/**
 * How `Router.route_aggregate` reads an aggregate expression and how it
 * merges the per-shard answers: the kind of aggregate (the upper-cased
 * name before the first `(`), the column between the parentheses, and
 * the three merge policies (AVG from summed SUMs and COUNTs, MAX/MIN over
 * the union of the shards' values, and the standard SUM/COUNT merge).
 */
module Merge {
  import opened Values
  import opened Text
  import opened Seqs

  // ------------------------------------------------------------ expression

  datatype AggKind = Average | Extremum | Standard

  /** `agg_expr.upper().split('(')[0]`. */
  function AggType(aggExpr: string): string
  {
    BeforeFirst(Upper(aggExpr), '(')
  }

  /** The dispatch of `route_aggregate`: unknown names take the standard path. */
  function KindOf(aggExpr: string): AggKind
  {
    var t := AggType(aggExpr);
    if t == "AVG" || t == "AVERAGE" then Average
    else if t == "MAX" || t == "MIN" then Extremum
    else Standard
  }

  /** `agg_expr[agg_expr.find('(')+1:agg_expr.find(')')]`. */
  function AggColumn(aggExpr: string): string
  {
    PySlice(aggExpr, Find(aggExpr, '(') + 1, Find(aggExpr, ')'))
  }

  /** The aggregate name is the upper-cased text before the first `(`. */
  lemma AggTypeIsUpperName(aggExpr: string)
    ensures AggType(aggExpr) == Upper(BeforeFirst(aggExpr, '('))
  {
    var b := BeforeFirst(aggExpr, '(');
    var u := Upper(aggExpr);
    assert Upper(b) == u[..|b|];
    assert '(' !in Upper(b) by {
      forall i | 0 <= i < |b| ensures Upper(b)[i] != '(' {
        assert b[i] != '(';
      }
    }
    BeforeFirstUnique(u, '(', Upper(b));
  }

  /** Only the name decides the kind: what follows the first `(` does not. */
  lemma KindIgnoresArguments(name: string, rest: string)
    requires '(' !in name
    ensures AggType(name + "(" + rest) == Upper(name)
  {
    var e := name + "(" + rest;
    assert e[|name|] == '(' && name <= e;
    BeforeFirstUnique(e, '(', name);
    AggTypeIsUpperName(e);
  }

  /** The kind does not depend on letter case. */
  lemma KindIgnoresCase(aggExpr: string)
    ensures KindOf(Upper(aggExpr)) == KindOf(aggExpr)
  {
    UpperIdempotent(aggExpr);
  }

  /** For `NAME(col)` with an unparenthesised column, the column is `col`. */
  lemma AggColumnOfCall(name: string, column: string)
    requires '(' !in name && '(' !in column && ')' !in name && ')' !in column
    ensures AggColumn(name + "(" + column + ")") == column
  {
    var e := name + "(" + column + ")";
    assert e[|name|] == '(' && e[..|name|] == name;
    assert e[|name| + 1 + |column|] == ')' && e[..|name| + 1 + |column|] == name + "(" + column;
    assert Find(e, '(') == |name|;
    assert Find(e, ')') == |name| + 1 + |column|;
    assert e[|name| + 1..|name| + 1 + |column|] == column;
  }

  /**
   * For a call `name(rest)`, the path is chosen by the upper-cased name
   * alone: AVG and AVERAGE average, MAX and MIN take an extremum, and every
   * other name, known or not, takes the standard merge.
   */
  lemma KindOfCall(name: string, rest: string)
    requires '(' !in name
    ensures Upper(name) == "AVG" || Upper(name) == "AVERAGE" ==> KindOf(name + "(" + rest) == Average
    ensures Upper(name) == "MAX" || Upper(name) == "MIN" ==> KindOf(name + "(" + rest) == Extremum
    ensures Upper(name) != "AVG" && Upper(name) != "AVERAGE" && Upper(name) != "MAX" && Upper(name) != "MIN" ==>
      KindOf(name + "(" + rest) == Standard
  {
    KindIgnoresArguments(name, rest);
  }

  // --------------------------------------------------------------- average

  /** Python truthiness: `not v`. */
  predicate Falsy(v: Value)
  {
    match v
    case Null => true
    case Bool(b) => !b
    case Int(i) => i == 0
    case Float(f) => f == 0.0
    case Str(s) => s == []
    case List(items) => items == []
    case Dict(entries) => entries == []
  }

  /** `v or 0`. */
  function OrZero(v: Value): Value
  {
    if Falsy(v) then Int(0) else v
  }

  /** A reply that `total += reply or 0` accepts without a `TypeError`. */
  predicate Addable(v: Value)
  {
    IsNumber(OrZero(v))
  }

  /**
   * What `reply or 0` adds to a running total. A reply that is not addable
   * raises a `TypeError` before anything is added, so its `0.0` here never
   * reaches a total the average path returns.
   */
  function Contribution(v: Value): real
  {
    if Addable(v) then NumOf(OrZero(v)) else 0.0
  }

  /** A null reply (SQL `SUM` over no rows) adds nothing; a number adds itself. */
  lemma ContributionOfReply(v: Value)
    requires v.Null? || IsNumber(v)
    ensures Addable(v)
    ensures Contribution(v) == if v.Null? then 0.0 else NumOf(v)
  {
  }

  /** The first shard whose SUM or COUNT reply cannot be added (`|sums|` if none). */
  function FirstUnaddable(sums: seq<Value>, counts: seq<Value>): (k: nat)
    requires |sums| == |counts|
    ensures k <= |sums|
    ensures k < |sums| ==> !(Addable(sums[k]) && Addable(counts[k]))
    decreases |sums|
  {
    if sums == [] then 0
    else if !(Addable(sums[0]) && Addable(counts[0])) then 0
    else 1 + FirstUnaddable(sums[1..], counts[1..])
  }

  /** The running total of replies, `reply or 0` each. */
  function Total(vs: seq<Value>): real
  {
    if vs == [] then 0.0 else Total(vs[..|vs| - 1]) + Contribution(vs[|vs| - 1])
  }

  /** Every shard before `FirstUnaddable` has replies that can be added. */
  lemma {:induction false} FirstUnaddableIsFirst(sums: seq<Value>, counts: seq<Value>)
    requires |sums| == |counts|
    ensures forall i :: 0 <= i < FirstUnaddable(sums, counts) ==> Addable(sums[i]) && Addable(counts[i])
    decreases |sums|
  {
    if sums != [] && Addable(sums[0]) && Addable(counts[0]) {
      FirstUnaddableIsFirst(sums[1..], counts[1..]);
      forall i | 1 <= i < FirstUnaddable(sums, counts)
        ensures Addable(sums[i]) && Addable(counts[i])
      {
        assert sums[i] == sums[1..][i - 1] && counts[i] == counts[1..][i - 1];
      }
    }
  }

  /** `FirstUnaddable` is the first shard whose replies cannot be added. */
  lemma {:induction false} FirstUnaddableIs(sums: seq<Value>, counts: seq<Value>, i: nat)
    requires |sums| == |counts| && i <= |sums|
    requires forall j :: 0 <= j < i ==> Addable(sums[j]) && Addable(counts[j])
    requires i < |sums| ==> !(Addable(sums[i]) && Addable(counts[i]))
    ensures FirstUnaddable(sums, counts) == i
    decreases i
  {
    if i > 0 {
      assert Addable(sums[0]) && Addable(counts[0]);
      forall j | 0 <= j < i - 1
        ensures Addable(sums[1..][j]) && Addable(counts[1..][j])
      {
        assert sums[1..][j] == sums[j + 1] && counts[1..][j] == counts[j + 1];
      }
      FirstUnaddableIs(sums[1..], counts[1..], i - 1);
    }
  }

  /** A shard up to `FirstUnaddable` whose replies cannot be added is `FirstUnaddable` itself. */
  lemma FirstUnaddableStops(sums: seq<Value>, counts: seq<Value>, i: nat)
    requires |sums| == |counts| && i < |sums|
    requires i <= FirstUnaddable(sums, counts)
    requires !(Addable(sums[i]) && Addable(counts[i]))
    ensures FirstUnaddable(sums, counts) == i
  {
    FirstUnaddableIsFirst(sums, counts);
  }

  /** A shard up to `FirstUnaddable` whose replies can be added lies before it. */
  lemma FirstUnaddablePast(sums: seq<Value>, counts: seq<Value>, i: nat)
    requires |sums| == |counts| && i < |sums|
    requires i <= FirstUnaddable(sums, counts)
    requires Addable(sums[i]) && Addable(counts[i])
    ensures i < FirstUnaddable(sums, counts)
  {
  }

  /** The running total of the first `i` replies, as the all-shard loop builds it. */
  function TotalUpTo(vs: seq<Value>, i: nat): real
    requires i <= |vs|
  {
    if i == 0 then 0.0 else TotalUpTo(vs, i - 1) + Contribution(vs[i - 1])
  }

  lemma {:induction false} TotalUpToPrefix(vs: seq<Value>, i: nat)
    requires i <= |vs|
    ensures TotalUpTo(vs, i) == Total(vs[..i])
    decreases i
  {
    if i > 0 {
      TotalUpToPrefix(vs, i - 1);
      assert vs[..i][..i - 1] == vs[..i - 1];
    }
  }

  /** Once every reply is in, the running total is `Total`. */
  lemma TotalUpToAll(vs: seq<Value>)
    ensures TotalUpTo(vs, |vs|) == Total(vs)
  {
    TotalUpToPrefix(vs, |vs|);
    assert vs[..|vs|] == vs;
  }

  /** `total_sum / total_count if total_count > 0 else 0`. */
  function AverageOf(totalSum: real, totalCount: real): (r: Value)
    ensures totalCount > 0.0 ==> r.Float? && r.f * totalCount == totalSum
    ensures totalCount <= 0.0 ==> r == Int(0)
  {
    if totalCount > 0.0 then Float(totalSum / totalCount) else Int(0)
  }

  function RealSum(s: seq<real>): real
  {
    if s == [] then 0.0 else RealSum(s[..|s| - 1]) + s[|s| - 1]
  }

  lemma {:induction false} RealSumAppend(a: seq<real>, b: seq<real>)
    ensures RealSum(a + b) == RealSum(a) + RealSum(b)
    decreases |b|
  {
    if b == [] {
      assert a + b == a;
    } else {
      assert (a + b)[..|a + b| - 1] == a + b[..|b| - 1];
      RealSumAppend(a, b[..|b| - 1]);
    }
  }

  /** The reply SQLite gives to `SUM(col)` over one shard's column values. */
  function SumReply(column: seq<real>): Value
  {
    if column == [] then Null else Float(RealSum(column))
  }

  /** The reply SQLite gives to `COUNT(col)` over one shard's column values. */
  function CountReply(column: seq<real>): Value
  {
    Int(|column|)
  }

  /** Each shard's SUM reply, in shard order. */
  function SumReplies(columns: seq<seq<real>>): (r: seq<Value>)
    ensures |r| == |columns|
  {
    if columns == [] then [] else SumReplies(columns[..|columns| - 1]) + [SumReply(columns[|columns| - 1])]
  }

  /** Each shard's COUNT reply, in shard order. */
  function CountReplies(columns: seq<seq<real>>): (r: seq<Value>)
    ensures |r| == |columns|
  {
    if columns == [] then [] else CountReplies(columns[..|columns| - 1]) + [CountReply(columns[|columns| - 1])]
  }

  /** Truthful SUM replies can all be added, and they total the sum of every shard's values. */
  lemma {:induction false} SumRepliesTotal(columns: seq<seq<real>>)
    ensures forall i :: 0 <= i < |columns| ==> Addable(SumReplies(columns)[i])
    ensures Total(SumReplies(columns)) == RealSum(Concat(columns))
    decreases |columns|
  {
    if columns != [] {
      var init, last := columns[..|columns| - 1], columns[|columns| - 1];
      var prev := SumReplies(init);
      SumRepliesTotal(init);
      assert SumReplies(columns)[..|init|] == prev;
      ContributionOfReply(SumReply(last));
      RealSumAppend(Concat(init), last);
    }
  }

  /** Truthful COUNT replies can all be added, and they total the number of every shard's values. */
  lemma {:induction false} CountRepliesTotal(columns: seq<seq<real>>)
    ensures forall i :: 0 <= i < |columns| ==> Addable(CountReplies(columns)[i])
    ensures Total(CountReplies(columns)) == |Concat(columns)| as real
    decreases |columns|
  {
    if columns != [] {
      var init, last := columns[..|columns| - 1], columns[|columns| - 1];
      var prev := CountReplies(init);
      CountRepliesTotal(init);
      assert CountReplies(columns)[..|init|] == prev;
      ContributionOfReply(CountReply(last));
    }
  }

  /**
   * When every shard answers its SUM and COUNT truthfully, the merged
   * average is the average of the union of all shards' values.
   */
  lemma AverageOfUnion(columns: seq<seq<real>>)
    ensures FirstUnaddable(SumReplies(columns), CountReplies(columns)) == |columns|
    ensures AverageOf(Total(SumReplies(columns)), Total(CountReplies(columns))) ==
      AverageOf(RealSum(Concat(columns)), |Concat(columns)| as real)
  {
    SumRepliesTotal(columns);
    CountRepliesTotal(columns);
    FirstUnaddableIs(SumReplies(columns), CountReplies(columns), |columns|);
  }

  // --------------------------------------------------------------- max/min

  /** `max(all_values)` or `min(all_values)`, and `None` for no values. */
  function ExtremumOf(isMax: bool, values: seq<int>): (r: Value)
    ensures values == [] <==> r == Null
    ensures values != [] ==> r.Int? && r.i in values
    ensures values != [] && isMax ==> forall x :: x in values ==> x <= r.i
    ensures values != [] && !isMax ==> forall x :: x in values ==> r.i <= x
  {
    if values == [] then Null else if isMax then Int(MaxOf(values)) else Int(MinOf(values))
  }

  /**
   * Over the shards' value lists: null exactly when no shard has a value,
   * otherwise a value that some shard holds.
   */
  lemma ExtremumOfShards(isMax: bool, replies: seq<seq<int>>)
    ensures ExtremumOf(isMax, Concat(replies)) == Null <==> forall i :: 0 <= i < |replies| ==> replies[i] == []
    ensures ExtremumOf(isMax, Concat(replies)) != Null ==>
      exists i :: 0 <= i < |replies| && ExtremumOf(isMax, Concat(replies)).i in replies[i]
  {
    var all := Concat(replies);
    if all != [] {
      ConcatMembers(replies, all[0]);
      ConcatMembers(replies, ExtremumOf(isMax, all).i);
    } else {
      forall i | 0 <= i < |replies| ensures replies[i] == [] {
        if replies[i] != [] {
          ConcatMembers(replies, replies[i][0]);
        }
      }
    }
  }

  // -------------------------------------------------------------- standard

  /** One merge step: numbers add up, anything else is overwritten by the newer reply. */
  function StandardStep(acc: Value, v: Value): Value
  {
    if IsNumber(v) && IsNumber(acc) then Add(acc, v) else v
  }

  /** The value the standard merge keeps for `agg_expr` after all shards (in shard order). */
  function StandardFold(replies: seq<Value>): Value
    requires replies != []
  {
    if |replies| == 1 then replies[0]
    else StandardStep(StandardFold(replies[..|replies| - 1]), replies[|replies| - 1])
  }

  /**
   * One shard's reply stored into the results dict: the reply itself for a
   * new key, the sum when both it and the value held are numbers, and the
   * reply in place of the held value otherwise.
   */
  function MergeReply(results: Entries, aggExpr: string, value: Value): (r: Entries)
    ensures results == [] ==> r == [(aggExpr, value)]
    ensures |results| == 1 && results[0].0 == aggExpr ==> r == [(aggExpr, StandardStep(results[0].1, value))]
  {
    SingleEntry(aggExpr, value, value);
    var held := if |results| == 1 then results[0].1 else value;
    SingleEntry(aggExpr, held, StandardStep(held, value));
    assert |results| == 1 && results[0].0 == aggExpr ==> results == [(aggExpr, held)];
    match Lookup(results, aggExpr)
    case None => Store(results, aggExpr, value)
    case Some(current) =>
      if IsNumber(value) && IsNumber(current) then Store(results, aggExpr, Add(current, value))
      else Store(results, aggExpr, value)
  }

  /** One more shard's reply is merged into the value kept for the earlier ones. */
  lemma StandardFoldStep(replies: seq<Value>, i: nat)
    requires 0 < i < |replies|
    ensures StandardFold(replies[..i + 1]) == StandardStep(StandardFold(replies[..i]), replies[i])
  {
    assert replies[..i + 1][..i] == replies[..i];
  }

  function IntTotal(vs: seq<Value>): int
    requires forall i :: 0 <= i < |vs| ==> IsInt(vs[i])
  {
    if vs == [] then 0 else IntTotal(vs[..|vs| - 1]) + IntOf(vs[|vs| - 1])
  }

  /** Integer replies (COUNT, or SUM over an integer column) are summed. */
  lemma {:induction false} StandardSumsInts(replies: seq<Value>)
    requires replies != []
    requires forall i :: 0 <= i < |replies| ==> IsInt(replies[i])
    ensures IsInt(StandardFold(replies)) && IntOf(StandardFold(replies)) == IntTotal(replies)
  {
    if |replies| == 1 {
      assert replies[..0] == [];
    } else {
      StandardSumsInts(replies[..|replies| - 1]);
    }
  }

  /** A last reply that is not a number (a null SUM) replaces all that was accumulated. */
  lemma StandardLastNonNumberWins(replies: seq<Value>)
    requires replies != [] && !IsNumber(replies[|replies| - 1])
    ensures StandardFold(replies) == replies[|replies| - 1]
  {
  }

  /** Everything up to and including a non-number reply is forgotten. */
  lemma {:induction false} StandardForgetsBeforeNonNumber(replies: seq<Value>, j: nat)
    requires j + 1 < |replies| && !IsNumber(replies[j])
    ensures StandardFold(replies) == StandardFold(replies[j + 1..])
    decreases |replies|
  {
    var init := replies[..|replies| - 1];
    var last := replies[|replies| - 1];
    if j + 2 == |replies| {
      StandardLastNonNumberWins(init);
      assert replies[j + 1..] == [last];
    } else {
      StandardForgetsBeforeNonNumber(init, j);
      assert replies[j + 1..][..|replies[j + 1..]| - 1] == init[j + 1..];
    }
  }
}
