/** Sequence vocabulary shared by the modules: sums, ranges, ordering, duplicates. */
module Seqs {

  function Sum(s: seq<int>): int
  {
    if s == [] then 0 else s[0] + Sum(s[1..])
  }

  lemma {:induction false} SumAppend(a: seq<int>, b: seq<int>)
    ensures Sum(a + b) == Sum(a) + Sum(b)
  {
    if a == [] {
      assert a + b == b;
    } else {
      assert (a + b)[1..] == a[1..] + b;
      SumAppend(a[1..], b);
    }
  }

  lemma SumPrefix(s: seq<int>, i: nat)
    requires i < |s|
    ensures Sum(s[..i + 1]) == Sum(s[..i]) + s[i]
  {
    assert s[..i + 1] == s[..i] + [s[i]];
    SumAppend(s[..i], [s[i]]);
    assert [s[i]][1..] == [];
  }

  /** Adding one to an entry adds one to the sum. */
  lemma {:induction false} SumIncrement(s: seq<int>, k: nat)
    requires k < |s|
    ensures Sum(s[k := s[k] + 1]) == Sum(s) + 1
  {
    if k == 0 {
      assert s[k := s[k] + 1][1..] == s[1..];
    } else {
      assert s[k := s[k] + 1][1..] == s[1..][k - 1 := s[k] + 1];
      SumIncrement(s[1..], k - 1);
    }
  }

  /** `list(range(lo, hi))`. */
  function Range(lo: int, hi: int): (r: seq<int>)
    ensures |r| == if lo < hi then hi - lo else 0
    ensures forall i :: 0 <= i < |r| ==> r[i] == lo + i
    decreases hi - lo
  {
    if lo >= hi then [] else [lo] + Range(lo + 1, hi)
  }

  /** `Range` grows at its upper end. */
  lemma RangeSnoc(lo: int, hi: int)
    requires lo <= hi
    ensures Range(lo, hi + 1) == Range(lo, hi) + [hi]
  {
    var a, b := Range(lo, hi + 1), Range(lo, hi) + [hi];
    assert |a| == |b|;
    assert forall i :: 0 <= i < |a| ==> a[i] == b[i];
  }

  predicate StrictlyIncreasing(s: seq<int>)
  {
    forall i, j :: 0 <= i < j < |s| ==> s[i] < s[j]
  }

  predicate NoDuplicates<T(==)>(s: seq<T>)
  {
    forall i, j :: 0 <= i < j < |s| ==> s[i] != s[j]
  }

  lemma StrictlyIncreasingNoDuplicates(s: seq<int>)
    requires StrictlyIncreasing(s)
    ensures NoDuplicates(s)
  {
  }

  /** `sorted(list(s))` for a set whose members all lie below `n`. */
  function SortedBelow(s: set<int>, n: nat): (r: seq<int>)
    ensures StrictlyIncreasing(r)
    ensures forall x :: x in r <==> x in s && 0 <= x < n
    ensures forall i :: 0 <= i < |r| ==> 0 <= r[i] < n
  {
    if n == 0 then []
    else
      var prefix := SortedBelow(s, n - 1);
      prefix + (if n - 1 in s then [n - 1] else [])
  }

  /** The first index from `i` below `n` where `ok` fails, or `n` when it holds throughout. */
  function FirstFailure(ok: int -> bool, i: nat, n: nat): (k: nat)
    requires i <= n
    ensures i <= k <= n
    ensures k < n ==> !ok(k)
    decreases n - i
  {
    if i == n then i else if !ok(i) then i else FirstFailure(ok, i + 1, n)
  }

  /** `ok` holds at every index from `i` up to `FirstFailure(ok, i, n)`. */
  lemma {:induction false} FirstFailureIsFirst(ok: int -> bool, i: nat, n: nat, j: nat)
    requires i <= n && i <= j < FirstFailure(ok, i, n)
    ensures ok(j)
    decreases n - i
  {
    if i < j {
      FirstFailureIsFirst(ok, i + 1, n, j);
    }
  }

  /** The concatenation of a list of lists, in order. */
  function Concat<T>(ss: seq<seq<T>>): seq<T>
  {
    if ss == [] then [] else Concat(ss[..|ss| - 1]) + ss[|ss| - 1]
  }

  /** The first `i` elements, taken one at a time. */
  function Take<T>(s: seq<T>, i: nat): seq<T>
    requires i <= |s|
  {
    if i == 0 then [] else Take(s, i - 1) + [s[i - 1]]
  }

  /** Taking `i` elements one at a time yields the prefix of length `i`. */
  lemma {:induction false} TakeIsPrefix<T>(s: seq<T>, i: nat)
    requires i <= |s|
    ensures Take(s, i) == s[..i]
  {
    if i > 0 {
      TakeIsPrefix(s, i - 1);
      assert s[..i] == s[..i - 1] + [s[i - 1]];
    }
  }

  /** The concatenation of the first `i` lists, built one list at a time. */
  function ConcatUpTo<T>(ss: seq<seq<T>>, i: nat): seq<T>
    requires i <= |ss|
  {
    if i == 0 then [] else ConcatUpTo(ss, i - 1) + ss[i - 1]
  }

  /** Built up to the end, the running concatenation is the concatenation of all lists. */
  lemma {:induction false} ConcatUpToAll<T>(ss: seq<seq<T>>, i: nat)
    requires i <= |ss|
    ensures ConcatUpTo(ss, i) == Concat(ss[..i])
  {
    if i > 0 {
      ConcatUpToAll(ss, i - 1);
      assert ss[..i][..i - 1] == ss[..i - 1];
    }
  }

  /** The sum of the first `i` entries, built one entry at a time. */
  function SumUpTo(s: seq<int>, i: nat): int
    requires i <= |s|
  {
    if i == 0 then 0 else SumUpTo(s, i - 1) + s[i - 1]
  }

  /** Built up to `i`, the running sum is the sum of the first `i` entries. */
  lemma {:induction false} SumUpToAll(s: seq<int>, i: nat)
    requires i <= |s|
    ensures SumUpTo(s, i) == Sum(s[..i])
  {
    if i > 0 {
      SumUpToAll(s, i - 1);
      SumPrefix(s, i - 1);
    }
  }

  lemma {:induction false} ConcatMembers<T>(ss: seq<seq<T>>, x: T)
    ensures x in Concat(ss) <==> exists i :: 0 <= i < |ss| && x in ss[i]
  {
    if ss != [] {
      var init := ss[..|ss| - 1];
      ConcatMembers(init, x);
      if x in Concat(ss) && x !in ss[|ss| - 1] {
        var i :| 0 <= i < |init| && x in init[i];
        assert x in ss[i];
      }
      if exists i :: 0 <= i < |ss| && x in ss[i] {
        var i :| 0 <= i < |ss| && x in ss[i];
        if i < |init| {
          assert x in init[i];
        }
      }
    }
  }

  /** Python's `max` of a non-empty list of integers. */
  function MaxOf(s: seq<int>): (m: int)
    requires s != []
    ensures m in s
    ensures forall x :: x in s ==> x <= m
  {
    if |s| == 1 then s[0]
    else
      var m := MaxOf(s[..|s| - 1]);
      assert forall x :: x in s ==> x in s[..|s| - 1] || x == s[|s| - 1];
      if s[|s| - 1] > m then s[|s| - 1] else m
  }

  /** Python's `min` of a non-empty list of integers. */
  function MinOf(s: seq<int>): (m: int)
    requires s != []
    ensures m in s
    ensures forall x :: x in s ==> m <= x
  {
    if |s| == 1 then s[0]
    else
      var m := MinOf(s[..|s| - 1]);
      assert forall x :: x in s ==> x in s[..|s| - 1] || x == s[|s| - 1];
      if s[|s| - 1] < m then s[|s| - 1] else m
  }
}
