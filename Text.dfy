/**
 * String helpers with the meaning Python gives them, restricted to ASCII:
 * character classes (`isdigit`, `isalpha`, `isalnum`), `upper`, `str.find`,
 * slicing with negative bounds, `str.split(c)[0]`, `sep.join(parts)`,
 * decimal formatting of naturals and POSIX `os.path.join` of two parts.
 */
module Text {

  predicate IsDigit(c: char) { '0' <= c <= '9' }

  predicate IsAlpha(c: char) { 'a' <= c <= 'z' || 'A' <= c <= 'Z' }

  predicate IsAlnum(c: char) { IsDigit(c) || IsAlpha(c) }

  /** Python's `str.isalnum()`: false on the empty string. */
  predicate AllAlnum(s: string) {
    |s| > 0 && forall i :: 0 <= i < |s| ==> IsAlnum(s[i])
  }

  function UpperChar(c: char): (u: char)
    ensures IsAlpha(c) <==> IsAlpha(u)
    ensures !IsAlpha(c) ==> u == c
  {
    if 'a' <= c <= 'z' then (c as int - 32) as char else c
  }

  /** `s.upper()` over ASCII. */
  function Upper(s: string): (u: string)
    ensures |u| == |s|
    ensures forall i :: 0 <= i < |s| ==> u[i] == UpperChar(s[i])
  {
    if s == [] then [] else [UpperChar(s[0])] + Upper(s[1..])
  }

  /** `s.replace(c, '')`. */
  function Remove(s: string, c: char): (r: string)
    ensures forall i :: 0 <= i < |r| ==> r[i] != c
    ensures forall x :: x in r <==> x in s && x != c
  {
    if s == [] then [] else (if s[0] == c then [] else [s[0]]) + Remove(s[1..], c)
  }

  /** `s.find(c)`: the first index of `c`, or -1. */
  function Find(s: string, c: char): (r: int)
    ensures -1 <= r < |s|
    ensures r == -1 <==> c !in s
    ensures r >= 0 ==> s[r] == c && c !in s[..r]
  {
    if s == [] then -1
    else if s[0] == c then 0
    else
      var t := Find(s[1..], c);
      assert s[1..][..if t < 0 then 0 else t] == s[1..1 + if t < 0 then 0 else t];
      if t == -1 then -1 else t + 1
  }

  /** `s.split(c)[0]`: everything before the first `c` (all of `s` when absent). */
  function BeforeFirst(s: string, c: char): (r: string)
    ensures c !in r
    ensures r <= s
    ensures c in s ==> |r| < |s| && s[|r|] == c
    ensures c !in s ==> r == s
  {
    var i := Find(s, c);
    if i == -1 then s else s[..i]
  }

  /** Any prefix free of `c` that stops at a `c` (or at the end) is the one `BeforeFirst` finds. */
  lemma BeforeFirstUnique(s: string, c: char, p: string)
    requires p <= s && c !in p
    requires p == s || s[|p|] == c
    ensures BeforeFirst(s, c) == p
  {
  }

  lemma UpperIdempotent(s: string)
    ensures Upper(Upper(s)) == Upper(s)
  {
  }

  /** Normalises a Python slice bound: negative bounds count from the end, then clamp. */
  function SliceBound(b: int, n: nat): (r: nat)
    ensures r <= n
  {
    if b < 0 then (if b + n < 0 then 0 else b + n) else if b > n then n else b
  }

  /** Python's `s[a:b]` for a step of one. */
  function PySlice(s: string, a: int, b: int): (r: string)
    ensures |r| <= |s|
  {
    var lo := SliceBound(a, |s|);
    var hi := SliceBound(b, |s|);
    if lo < hi then s[lo..hi] else []
  }

  /** `sep.join(parts)`. */
  function Join(sep: string, parts: seq<string>): string
  {
    if |parts| == 0 then []
    else if |parts| == 1 then parts[0]
    else parts[0] + sep + Join(sep, parts[1..])
  }

  function CountChar(s: string, c: char): nat
  {
    if s == [] then 0 else (if s[0] == c then 1 else 0) + CountChar(s[1..], c)
  }

  lemma {:induction false} CountCharAppend(a: string, b: string, c: char)
    ensures CountChar(a + b, c) == CountChar(a, c) + CountChar(b, c)
  {
    if a == [] {
      assert a + b == b;
    } else {
      assert (a + b)[1..] == a[1..] + b;
      CountCharAppend(a[1..], b, c);
    }
  }

  function SumCounts(parts: seq<string>, c: char): nat
  {
    if parts == [] then 0 else CountChar(parts[0], c) + SumCounts(parts[1..], c)
  }

  /** A separator without `c` contributes no occurrences of `c` to a join. */
  lemma {:induction false} CountCharJoin(sep: string, parts: seq<string>, c: char)
    requires c !in sep
    ensures CountChar(Join(sep, parts), c) == SumCounts(parts, c)
  {
    if |parts| == 0 {
    } else if |parts| == 1 {
      assert parts[1..] == [];
    } else {
      CountCharJoin(sep, parts[1..], c);
      CountCharAppend(parts[0] + sep, Join(sep, parts[1..]), c);
      CountCharAppend(parts[0], sep, c);
      CountCharAbsent(sep, c);
    }
  }

  lemma {:induction false} CountCharAbsent(s: string, c: char)
    requires c !in s
    ensures CountChar(s, c) == 0
  {
    if s != [] {
      assert s == [s[0]] + s[1..];
      CountCharAbsent(s[1..], c);
    }
  }

  function DigitChar(d: nat): (c: char)
    requires d < 10
    ensures IsDigit(c)
  {
    ('0' as int + d) as char
  }

  /** `str(n)` for a natural number. */
  function NatToString(n: nat): (s: string)
    ensures |s| > 0
    ensures forall i :: 0 <= i < |s| ==> IsDigit(s[i])
    ensures n < 10 <==> |s| == 1
    decreases n
  {
    if n < 10 then [DigitChar(n)] else NatToString(n / 10) + [DigitChar(n % 10)]
  }

  /** Decimal formatting is injective: different numbers print differently. */
  lemma {:induction false} NatToStringInjective(m: nat, n: nat)
    requires NatToString(m) == NatToString(n)
    ensures m == n
    decreases m
  {
    var sm, sn := NatToString(m), NatToString(n);
    if m < 10 || n < 10 {
      assert m < 10 && n < 10;
      assert sm[0] == sn[0];
    } else {
      assert sm[|sm| - 1] == sn[|sn| - 1];
      assert m % 10 == n % 10;
      assert sm[..|sm| - 1] == NatToString(m / 10);
      assert sn[..|sn| - 1] == NatToString(n / 10);
      NatToStringInjective(m / 10, n / 10);
    }
  }

  /** POSIX `os.path.join(a, b)`. */
  function PathJoin(a: string, b: string): (p: string)
    ensures |b| > 0 && b[0] == '/' ==> p == b
  {
    if |b| > 0 && b[0] == '/' then b
    else if a == [] || a[|a| - 1] == '/' then a + b
    else a + "/" + b
  }
}
