/** Python dictionaries: insertion-ordered association lists whose keys are
    pairwise distinct. Assigning to an existing key keeps its position;
    assigning to a new key appends it. */
module Dicts {
  import opened Wrappers

  type Dict<K, V> = seq<(K, V)>

  predicate DistinctKeys<K(==), V>(d: Dict<K, V>) {
    forall i, j :: 0 <= i < j < |d| ==> d[i].0 != d[j].0
  }

  /** Python `d.get(k)`. */
  function Lookup<K(==), V>(d: Dict<K, V>, k: K): (r: Option<V>)
    ensures r.None? <==> forall i :: 0 <= i < |d| ==> d[i].0 != k
    ensures r.Some? ==> exists i :: 0 <= i < |d| && d[i] == (k, r.value)
  {
    if |d| == 0 then None
    else if d[0].0 == k then Some(d[0].1)
    else
      var r := Lookup(d[1..], k);
      assert r.Some? ==> exists i :: 0 <= i < |d[1..]| && d[1..][i] == (k, r.value);
      r
  }

  /** Looking up in a dictionary with one more entry in front. */
  lemma LookupCons<K, V>(x: (K, V), rest: Dict<K, V>, k: K)
    ensures Lookup([x] + rest, k) == if x.0 == k then Some(x.1) else Lookup(rest, k)
  {
    assert ([x] + rest)[1..] == rest;
  }

  /** An entry in front keeps the keys distinct exactly when its key is new. */
  lemma DistinctCons<K, V>(x: (K, V), rest: Dict<K, V>)
    ensures DistinctKeys([x] + rest) <==> DistinctKeys(rest) && Lookup(rest, x.0).None?
  {
    var r := [x] + rest;
    assert r[0] == x;
    assert forall i :: 0 <= i < |rest| ==> r[i + 1] == rest[i];
    if DistinctKeys(r) {
      forall i, j | 0 <= i < j < |rest|
        ensures rest[i].0 != rest[j].0
      {
        assert r[i + 1] == rest[i] && r[j + 1] == rest[j];
      }
      forall i | 0 <= i < |rest|
        ensures rest[i].0 != x.0
      {
        assert r[0].0 != r[i + 1].0;
      }
    }
    if DistinctKeys(rest) && Lookup(rest, x.0).None? {
      forall i, j | 0 <= i < j < |r|
        ensures r[i].0 != r[j].0
      {
        assert r[j] == rest[j - 1];
        if i > 0 {
          assert r[i] == rest[i - 1];
        }
      }
    }
  }

  /** Python `d[k] = v`. */
  function Put<K(==,!new), V>(d: Dict<K, V>, k: K, v: V): (r: Dict<K, V>)
    requires DistinctKeys(d)
    ensures DistinctKeys(r)
    ensures Lookup(r, k) == Some(v)
    ensures forall j :: j != k ==> Lookup(r, j) == Lookup(d, j)
    ensures |r| == |d| + (if Lookup(d, k).None? then 1 else 0)
  {
    if |d| == 0 then [(k, v)]
    else
      assert d == [d[0]] + d[1..];
      DistinctCons(d[0], d[1..]);
      if d[0].0 == k then
        var r := [(k, v)] + d[1..];
        DistinctCons((k, v), d[1..]);
        forall j
          ensures Lookup(r, j) == (if j == k then Some(v) else Lookup(d, j))
        {
          LookupCons((k, v), d[1..], j);
          LookupCons(d[0], d[1..], j);
        }
        r
      else
        var rest := Put(d[1..], k, v);
        var r := [d[0]] + rest;
        DistinctCons(d[0], rest);
        forall j
          ensures Lookup(r, j) == (if j == k then Some(v) else Lookup(d, j))
        {
          LookupCons(d[0], rest, j);
          LookupCons(d[0], d[1..], j);
        }
        r
  }

  /** The sum of a count dictionary's values. */
  function SumValues<K>(d: Dict<K, nat>): nat {
    if |d| == 0 then 0 else d[0].1 + SumValues(d[1..])
  }

  /** Assigning `v` to `k` replaces the old count of `k` by `v` in the sum. */
  lemma {:induction false} SumValuesPut<K(!new)>(d: Dict<K, nat>, k: K, v: nat)
    requires DistinctKeys(d)
    ensures SumValues(Put(d, k, v)) + Lookup(d, k).GetOr(0) == SumValues(d) + v
    decreases |d|
  {
    if |d| == 0 {
    } else if d[0].0 == k {
      assert Put(d, k, v)[1..] == d[1..];
    } else {
      SumValuesPut(d[1..], k, v);
      assert Put(d, k, v)[1..] == Put(d[1..], k, v);
    }
  }

  /** Python `d[k] = d.get(k, 0) + 1`: the count of `k` goes up by one, the
      other counts stay, and so the sum of the counts goes up by one. */
  function Increment<K(==,!new)>(d: Dict<K, nat>, k: K): (r: Dict<K, nat>)
    requires DistinctKeys(d)
    ensures DistinctKeys(r)
    ensures Lookup(r, k) == Some(Lookup(d, k).GetOr(0) + 1)
    ensures forall j :: j != k ==> Lookup(r, j) == Lookup(d, j)
    ensures SumValues(r) == SumValues(d) + 1
  {
    var v := Lookup(d, k).GetOr(0) + 1;
    var r := Put(d, k, v);
    SumValuesPut(d, k, v);
    r
  }

  /** One key's count after an increment, absent counting as 0. */
  lemma IncrementCount<K(!new)>(d: Dict<K, nat>, k: K, t: K)
    requires DistinctKeys(d)
    ensures Lookup(Increment(d, k), t).GetOr(0) == Lookup(d, t).GetOr(0) + (if t == k then 1 else 0)
    ensures Lookup(Increment(d, k), t).Some? <==> Lookup(d, t).Some? || t == k
  {
  }

  /** The dictionary built by a loop that, for each `x` of `xs` in order,
      assigns `d[k] = v` when `entry(x)` is `(k, v)` and skips `x` otherwise. */
  function Collect<X, K(==,!new), V>(xs: seq<X>, entry: X -> Option<(K, V)>): (r: Dict<K, V>)
    ensures DistinctKeys(r)
  {
    if |xs| == 0 then []
    else
      var n := |xs| - 1;
      var d := Collect(xs[..n], entry);
      match entry(xs[n])
      case None => d
      case Some(kv) => Put(d, kv.0, kv.1)
  }

  /** `xs[i]` yields an entry for key `k`. */
  predicate KeyedAt<X, K(==), V>(xs: seq<X>, entry: X -> Option<(K, V)>, k: K, i: int) {
    0 <= i < |xs| && entry(xs[i]).Some? && entry(xs[i]).value.0 == k
  }

  /** `xs[i]` is the last element yielding an entry for key `k`. */
  predicate LastKeyedAt<X, K(==), V>(xs: seq<X>, entry: X -> Option<(K, V)>, k: K, i: int) {
    KeyedAt(xs, entry, k, i) && forall j :: i < j < |xs| ==> !KeyedAt(xs, entry, k, j)
  }

  /** One more element changes the value of `k` only if it yields `k`. */
  lemma CollectStep<X, K(!new), V>(xs: seq<X>, entry: X -> Option<(K, V)>, k: K)
    requires |xs| > 0
    ensures Lookup(Collect(xs, entry), k) ==
      if KeyedAt(xs, entry, k, |xs| - 1) then Some(entry(xs[|xs| - 1]).value.1)
      else Lookup(Collect(xs[..|xs| - 1], entry), k)
  {
  }

  /** A key some element yields is present. */
  lemma {:induction false} CollectPresent<X, K(!new), V>(xs: seq<X>, entry: X -> Option<(K, V)>, k: K, i: int)
    requires KeyedAt(xs, entry, k, i)
    ensures Lookup(Collect(xs, entry), k).Some?
  {
    var n := |xs| - 1;
    CollectStep(xs, entry, k);
    if i < n && !KeyedAt(xs, entry, k, n) {
      assert xs[..n][i] == xs[i];
      CollectPresent(xs[..n], entry, k, i);
    }
  }

  /** A key is absent exactly when no element yields it. */
  lemma CollectAbsent<X, K(!new), V>(xs: seq<X>, entry: X -> Option<(K, V)>, k: K)
    ensures Lookup(Collect(xs, entry), k).None? <==> forall i :: 0 <= i < |xs| ==> !KeyedAt(xs, entry, k, i)
  {
    forall i | 0 <= i < |xs| && KeyedAt(xs, entry, k, i)
      ensures Lookup(Collect(xs, entry), k).Some?
    {
      CollectPresent(xs, entry, k, i);
    }
    if Lookup(Collect(xs, entry), k).Some? {
      CollectLastWins(xs, entry, k);
    }
  }

  /** The value of a present key comes from the last element yielding it. */
  lemma {:induction false} CollectLastWins<X, K(!new), V>(xs: seq<X>, entry: X -> Option<(K, V)>, k: K)
    requires Lookup(Collect(xs, entry), k).Some?
    ensures exists i :: LastKeyedAt(xs, entry, k, i) && entry(xs[i]).value.1 == Lookup(Collect(xs, entry), k).value
  {
    var n := |xs| - 1;
    CollectStep(xs, entry, k);
    if KeyedAt(xs, entry, k, n) {
      assert LastKeyedAt(xs, entry, k, n);
    } else {
      var pre := xs[..n];
      CollectLastWins(pre, entry, k);
      var i :| LastKeyedAt(pre, entry, k, i) && entry(pre[i]).value.1 == Lookup(Collect(pre, entry), k).value;
      LastKeyedExtend(xs, entry, k, i);
      assert pre[i] == xs[i];
    }
  }

  /** A last element for `k` stays last when one not yielding `k` follows. */
  lemma LastKeyedExtend<X, K, V>(xs: seq<X>, entry: X -> Option<(K, V)>, k: K, i: int)
    requires |xs| > 0 && LastKeyedAt(xs[..|xs| - 1], entry, k, i)
    requires !KeyedAt(xs, entry, k, |xs| - 1)
    ensures LastKeyedAt(xs, entry, k, i)
  {
    var pre := xs[..|xs| - 1];
    assert pre[i] == xs[i];
    forall j | i < j < |xs|
      ensures !KeyedAt(xs, entry, k, j)
    {
      if j < |xs| - 1 {
        assert pre[j] == xs[j];
        assert !KeyedAt(pre, entry, k, j);
      }
    }
  }
}
