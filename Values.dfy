/**
 * The dynamically typed values that cross the library's interfaces: rows,
 * keys, aggregate scalars and keyword arguments. A Python `dict` is an
 * association list kept in insertion order; `bool` counts as an `int`, as
 * `isinstance(True, int)` does in Python.
 */
module Values {
  import opened Wrappers

  datatype Value =
    | Null                          // None
    | Bool(b: bool)
    | Int(i: int)
    | Float(f: real)                // exact; rounding is not modelled
    | Str(s: string)
    | List(items: seq<Value>)
    | Dict(entries: seq<(string, Value)>)

  type Entries = seq<(string, Value)>

  /** `isinstance(v, int)`, which holds for booleans too. */
  predicate IsInt(v: Value) { v.Int? || v.Bool? }

  /** `isinstance(v, (int, float))`. */
  predicate IsNumber(v: Value) { IsInt(v) || v.Float? }

  function IntOf(v: Value): int
    requires IsInt(v)
  {
    if v.Int? then v.i else if v.b then 1 else 0
  }

  function NumOf(v: Value): real
    requires IsNumber(v)
  {
    if v.Float? then v.f else IntOf(v) as real
  }

  /** Python's `a + b` on two numbers: an `int` unless a `float` is involved. */
  function Add(a: Value, b: Value): (r: Value)
    requires IsNumber(a) && IsNumber(b)
    ensures IsNumber(r) && NumOf(r) == NumOf(a) + NumOf(b)
    ensures IsInt(a) && IsInt(b) ==> r == Int(IntOf(a) + IntOf(b))
  {
    if IsInt(a) && IsInt(b) then Int(IntOf(a) + IntOf(b)) else Float(NumOf(a) + NumOf(b))
  }

  /** Python's `max(a, b)`: `b` replaces `a` only when strictly greater. */
  function Max2(a: Value, b: Value): (r: Value)
    requires IsNumber(a) && IsNumber(b)
    ensures r == a || r == b
    ensures NumOf(r) >= NumOf(a) && NumOf(r) >= NumOf(b)
  {
    if NumOf(b) > NumOf(a) then b else a
  }

  /** Python's `min(a, b)`: `b` replaces `a` only when strictly smaller. */
  function Min2(a: Value, b: Value): (r: Value)
    requires IsNumber(a) && IsNumber(b)
    ensures r == a || r == b
    ensures NumOf(r) <= NumOf(a) && NumOf(r) <= NumOf(b)
  {
    if NumOf(b) < NumOf(a) then b else a
  }

  function KeysOf(d: Entries): (ks: seq<string>)
    ensures |ks| == |d|
    ensures forall i :: 0 <= i < |d| ==> ks[i] == d[i].0
  {
    if d == [] then [] else [d[0].0] + KeysOf(d[1..])
  }

  function ValuesOf(d: Entries): (vs: seq<Value>)
    ensures |vs| == |d|
    ensures forall i :: 0 <= i < |d| ==> vs[i] == d[i].1
  {
    if d == [] then [] else [d[0].1] + ValuesOf(d[1..])
  }

  predicate HasKey(d: Entries, k: string) { k in KeysOf(d) }

  /** `d[k]` (the first entry with key `k`). */
  function Lookup(d: Entries, k: string): (r: Option<Value>)
    ensures r.Some? <==> HasKey(d, k)
  {
    if d == [] then None else if d[0].0 == k then Some(d[0].1) else Lookup(d[1..], k)
  }

  /** `d[k] = v`: overwrites in place when present, appends otherwise. */
  function Store(d: Entries, k: string, v: Value): (r: Entries)
    ensures KeysOf(r) == if HasKey(d, k) then KeysOf(d) else KeysOf(d) + [k]
    ensures Lookup(r, k) == Some(v)
  {
    if d == [] then [(k, v)]
    else if d[0].0 == k then [(k, v)] + d[1..]
    else
      var t := Store(d[1..], k, v);
      assert KeysOf([d[0]] + t) == [d[0].0] + KeysOf(t);
      [d[0]] + t
  }

  /** A dict with the one key `k`: reading it, and writing it again. */
  lemma SingleEntry(k: string, v: Value, w: Value)
    ensures Lookup([], k) == None && Store([], k, w) == [(k, w)]
    ensures Lookup([(k, v)], k) == Some(v) && Store([(k, v)], k, w) == [(k, w)]
  {
    assert [(k, v)][1..] == [];
  }

  lemma {:induction false} StoreOther(d: Entries, k: string, v: Value, j: string)
    requires j != k
    ensures Lookup(Store(d, k, v), j) == Lookup(d, j)
  {
    if d != [] && d[0].0 != k {
      StoreOther(d[1..], k, v, j);
    }
  }
}
