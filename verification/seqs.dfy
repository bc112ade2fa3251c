/** Generic sequence helpers: order-preserving filtering, the subsequence
    relation, and leftmost search over an index range. */
module Seqs {
  import opened Wrappers

  /** `a` can be obtained from `b` by deleting elements (order kept). */
  predicate Subseq<T(==)>(a: seq<T>, b: seq<T>)
    decreases |b|
  {
    if |a| == 0 then true
    else if |b| == 0 then false
    else if a[0] == b[0] then Subseq(a[1..], b[1..])
    else Subseq(a, b[1..])
  }

  /** No element occurs twice. */
  predicate NoDuplicates<T(==)>(s: seq<T>) {
    forall i, j :: 0 <= i < j < |s| ==> s[i] != s[j]
  }

  /** The elements of `s` satisfying `p`, in their original order. */
  function Filter<T(==,!new)>(s: seq<T>, p: T -> bool): (r: seq<T>)
    ensures |r| <= |s|
    ensures forall x :: x in r <==> x in s && p(x)
    ensures forall x :: multiset(r)[x] == if p(x) then multiset(s)[x] else 0
    ensures Subseq(r, s)
  {
    if |s| == 0 then []
    else
      var rest := Filter(s[1..], p);
      assert s == [s[0]] + s[1..];
      assert multiset(s) == multiset([s[0]]) + multiset(s[1..]);
      if p(s[0]) then
        assert multiset([s[0]] + rest) == multiset([s[0]]) + multiset(rest);
        [s[0]] + rest
      else
        SubseqTail(rest, s);
        rest
  }

  lemma ConcatAssoc<T>(a: seq<T>, b: seq<T>, c: seq<T>)
    ensures a + b + c == a + (b + c)
  {
  }

  /** A subsequence of the tail is a subsequence of the whole. */
  lemma {:induction false} SubseqTail<T>(a: seq<T>, b: seq<T>)
    requires |b| > 0 && Subseq(a, b[1..])
    ensures Subseq(a, b)
    decreases |a| + |b|, 1
  {
    if |a| > 0 && a[0] == b[0] {
      SubseqDropHead(a, b[1..]);
    }
  }

  /** Dropping the first element keeps a subsequence. */
  lemma {:induction false} SubseqDropHead<T>(a: seq<T>, b: seq<T>)
    requires |a| > 0 && Subseq(a, b)
    ensures Subseq(a[1..], b)
    decreases |a| + |b|, 0
  {
    if a[0] == b[0] {
      SubseqTail(a[1..], b);
    } else {
      SubseqDropHead(a, b[1..]);
      SubseqTail(a[1..], b);
    }
  }

  /** Every element of a subsequence occurs in the sequence. */
  lemma {:induction false} SubseqMembers<T>(a: seq<T>, b: seq<T>)
    requires Subseq(a, b)
    ensures forall x :: x in a ==> x in b
    decreases |b|
  {
    if |a| == 0 {
    } else if a[0] == b[0] {
      SubseqMembers(a[1..], b[1..]);
      assert a == [a[0]] + a[1..];
    } else {
      SubseqMembers(a, b[1..]);
    }
  }

  /** A subsequence of a duplicate-free sequence is duplicate-free. */
  lemma {:induction false} SubseqNoDuplicates<T>(a: seq<T>, b: seq<T>)
    requires Subseq(a, b) && NoDuplicates(b)
    ensures NoDuplicates(a)
    decreases |b|
  {
    if |a| == 0 {
    } else if a[0] == b[0] {
      SubseqNoDuplicates(a[1..], b[1..]);
      SubseqMembers(a[1..], b[1..]);
      forall j | 0 < j < |a|
        ensures a[0] != a[j]
      {
        assert a[j] == a[1..][j - 1];
        assert a[j] in b[1..];
      }
      forall i, j | 0 <= i < j < |a|
        ensures a[i] != a[j]
      {
        if i > 0 {
          assert a[i] == a[1..][i - 1] && a[j] == a[1..][j - 1];
        }
      }
    } else {
      SubseqNoDuplicates(a, b[1..]);
    }
  }

  /** The least index `i` in `from..limit` with `p(i)`, or None. */
  function FirstIndex(p: nat -> bool, from: nat, limit: nat): (r: Option<nat>)
    ensures r.Some? ==> from <= r.value <= limit && p(r.value)
    ensures r.Some? ==> forall j :: from <= j < r.value ==> !p(j)
    ensures r.None? ==> forall j :: from <= j <= limit ==> !p(j)
    decreases limit + 1 - from
  {
    if from > limit then None
    else if p(from) then Some(from)
    else FirstIndex(p, from + 1, limit)
  }
}
