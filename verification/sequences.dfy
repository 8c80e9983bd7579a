/** Generic sequence operations the prompt store is built from: an
    order-preserving filter (JavaScript's `Array.prototype.filter`), the
    first-occurrence deduplication `[...new Set(xs)]`, and the notions used
    to specify them (subsequence, first index, distinctness). */
module Sequences {

  /** `a` is obtained from `b` by deleting elements, keeping the rest in order. */
  predicate IsSubsequence<T(==)>(a: seq<T>, b: seq<T>)
    decreases |b|
  {
    if a == [] then true
    else if b == [] then false
    else (a[0] == b[0] && IsSubsequence(a[1..], b[1..])) || IsSubsequence(a, b[1..])
  }

  /** No element occurs twice. */
  predicate Distinct<T(==)>(s: seq<T>) {
    forall i, j :: 0 <= i < j < |s| ==> s[i] != s[j]
  }

  /** The first two elements of a duplicate-free sequence differ. */
  lemma FirstTwoDiffer<T>(s: seq<T>)
    ensures Distinct(s) && |s| > 1 ==> s[0] != s[1]
  {
  }

  /** A duplicate-free sequence whose elements all equal `x` has at most one element. */
  lemma SingleValueDistinct<T>(s: seq<T>, x: T)
    requires Distinct(s)
    requires forall i :: 0 <= i < |s| ==> s[i] == x
    ensures |s| <= 1
  {
    FirstTwoDiffer(s);
  }

  /** The position of the first occurrence of `x` in `s`, or `|s|` when `x`
      does not occur (JavaScript's `indexOf`, with `|s|` in place of -1). */
  function FirstIndex<T(==)>(s: seq<T>, x: T): (k: nat)
    ensures k <= |s|
    ensures k < |s| <==> x in s
    ensures k < |s| ==> s[k] == x
    ensures forall i :: 0 <= i < k ==> s[i] != x
  {
    if s == [] then 0
    else if s[0] == x then 0
    else 1 + FirstIndex(s[1..], x)
  }

  /** A subsequence holds no element more often than the sequence it is taken from. */
  lemma {:induction false} SubsequenceMultiset<T(!new)>(a: seq<T>, b: seq<T>)
    requires IsSubsequence(a, b)
    ensures multiset(a) <= multiset(b)
    decreases |b|
  {
    if a != [] {
      assert b == [b[0]] + b[1..];
      if a[0] == b[0] && IsSubsequence(a[1..], b[1..]) {
        SubsequenceMultiset(a[1..], b[1..]);
        assert a == [a[0]] + a[1..];
      } else {
        SubsequenceMultiset(a, b[1..]);
      }
    }
  }

  /** Every element of a subsequence occurs in the sequence it is taken from. */
  lemma SubsequenceMembers<T(!new)>(a: seq<T>, b: seq<T>)
    requires IsSubsequence(a, b)
    ensures forall x :: x in a ==> x in b
  {
    SubsequenceMultiset(a, b);
    forall x | x in a
      ensures x in b
    {
      assert multiset(a)[x] > 0;
    }
  }

  /** The elements of `s` satisfying `keep`, in their original order. */
  function Filter<T(==,!new)>(s: seq<T>, keep: T -> bool): (r: seq<T>)
    ensures |r| <= |s|
    ensures IsSubsequence(r, s)
    ensures forall i :: 0 <= i < |r| ==> keep(r[i])
    ensures forall x :: multiset(r)[x] == if keep(x) then multiset(s)[x] else 0
  {
    if s == [] then []
    else
      var rest := Filter(s[1..], keep);
      assert s == [s[0]] + s[1..];
      if keep(s[0]) then
        assert ([s[0]] + rest)[1..] == rest;
        [s[0]] + rest
      else rest
  }

  /** An element survives filtering exactly when it occurs and is kept. */
  lemma FilterMembers<T(!new)>(s: seq<T>, keep: T -> bool)
    ensures forall x :: x in Filter(s, keep) <==> x in s && keep(x)
  {
    var r := Filter(s, keep);
    forall x
      ensures x in r <==> x in s && keep(x)
    {
      assert x in r <==> multiset(r)[x] > 0;
      assert x in s <==> multiset(s)[x] > 0;
    }
  }

  /** The contract of `Filter` determines its result: any subsequence of `s`
      holding only kept elements, each as often as in `s`, is `Filter(s, keep)`. */
  lemma {:induction false} FilterUnique<T(!new)>(s: seq<T>, keep: T -> bool, r: seq<T>)
    requires IsSubsequence(r, s)
    requires forall i :: 0 <= i < |r| ==> keep(r[i])
    requires forall x :: keep(x) ==> multiset(r)[x] == multiset(s)[x]
    ensures r == Filter(s, keep)
    decreases |s|
  {
    if s != [] {
      var t := s[1..];
      assert s == [s[0]] + t;
      if keep(s[0]) {
        assert multiset(r)[s[0]] == multiset(s)[s[0]] > 0;
        assert r != [];
        if r[0] == s[0] && IsSubsequence(r[1..], t) {
          assert r == [r[0]] + r[1..];
          forall x | keep(x)
            ensures multiset(r[1..])[x] == multiset(t)[x]
          {
            assert multiset(r)[x] == multiset([r[0]])[x] + multiset(r[1..])[x];
          }
          FilterUnique(t, keep, r[1..]);
        } else {
          SubsequenceMultiset(r, t);
          assert false;
        }
      } else {
        assert r != [] ==> r[0] != s[0];
        assert IsSubsequence(r, t);
        FilterUnique(t, keep, r);
      }
    }
  }

  /** Filtering with a condition every element meets changes nothing. */
  lemma {:induction false} FilterKeepsAll<T(!new)>(s: seq<T>, keep: T -> bool)
    requires forall i :: 0 <= i < |s| ==> keep(s[i])
    ensures Filter(s, keep) == s
  {
    if s != [] {
      FilterKeepsAll(s[1..], keep);
      assert s == [s[0]] + s[1..];
    }
  }

  /** Filtering out at least one element makes the sequence strictly shorter. */
  lemma {:induction false} FilterDropsRejected<T(!new)>(s: seq<T>, keep: T -> bool, k: nat)
    requires k < |s| && !keep(s[k])
    ensures |Filter(s, keep)| < |s|
  {
    var rest := Filter(s[1..], keep);
    assert |Filter(s, keep)| <= 1 + |rest|;
    if k == 0 {
      assert Filter(s, keep) == rest;
    } else {
      assert s[1..][k - 1] == s[k];
      FilterDropsRejected(s[1..], keep, k - 1);
    }
  }

  /** Filtering keeps the relative order of first occurrences of kept elements. */
  lemma {:induction false} FilterKeepsFirstOccurrenceOrder<T(!new)>(s: seq<T>, keep: T -> bool, x: T, y: T)
    requires x in s && y in s && keep(x) && keep(y)
    ensures FirstIndex(s, x) < FirstIndex(s, y) <==> FirstIndex(Filter(s, keep), x) < FirstIndex(Filter(s, keep), y)
  {
    var f := Filter(s, keep);
    var t := s[1..];
    if s[0] != x && s[0] != y {
      assert x in t && y in t;
      FilterKeepsFirstOccurrenceOrder(t, keep, x, y);
      if keep(s[0]) {
        assert f == [s[0]] + Filter(t, keep);
        assert f[1..] == Filter(t, keep);
      }
    } else if keep(s[0]) {
      assert f == [s[0]] + Filter(t, keep);
    }
  }

  /** `FilterKeepsFirstOccurrenceOrder` for all pairs at once. */
  lemma FilterKeepsFirstOccurrenceOrderAll<T(!new)>(s: seq<T>, keep: T -> bool)
    ensures forall x, y :: x in s && y in s && keep(x) && keep(y) ==>
      (FirstIndex(s, x) < FirstIndex(s, y) <==> FirstIndex(Filter(s, keep), x) < FirstIndex(Filter(s, keep), y))
  {
    forall x, y | x in s && y in s && keep(x) && keep(y)
      ensures FirstIndex(s, x) < FirstIndex(s, y) <==> FirstIndex(Filter(s, keep), x) < FirstIndex(Filter(s, keep), y)
    {
      FilterKeepsFirstOccurrenceOrder(s, keep, x, y);
    }
  }

  /** The distinct elements of `s` in order of first occurrence, which is
      what spreading a JavaScript `Set` built from `s` yields. */
  function Dedup<T(==,!new)>(s: seq<T>): (r: seq<T>)
    ensures forall x :: x in r <==> x in s
    ensures Distinct(r)
    decreases |s|
  {
    if s == [] then []
    else
      var notFirst := (x: T) => x != s[0];
      var rest := Filter(s[1..], notFirst);
      FilterMembers(s[1..], notFirst);
      var d := Dedup(rest);
      assert s[0] !in d;
      assert forall j :: 0 <= j < |d| ==> ([s[0]] + d)[j + 1] == d[j];
      [s[0]] + d
  }

  /** `Dedup` lists its elements in the order in which they first occur in `s`. */
  lemma {:induction false} DedupFirstOccurrenceOrder<T(!new)>(s: seq<T>)
    ensures forall i, j :: 0 <= i < j < |Dedup(s)| ==> FirstIndex(s, Dedup(s)[i]) < FirstIndex(s, Dedup(s)[j])
    decreases |s|
  {
    if s != [] {
      var notFirst := (x: T) => x != s[0];
      var t := s[1..];
      var rest := Filter(t, notFirst);
      var d := Dedup(rest);
      var r := Dedup(s);
      assert r == [s[0]] + d;
      DedupFirstOccurrenceOrder(rest);
      SubsequenceMembers(rest, t);
      forall i, j | 0 <= i < j < |r|
        ensures FirstIndex(s, r[i]) < FirstIndex(s, r[j])
      {
        assert r[j] == d[j - 1] && r[j] in rest && r[j] in t && r[j] != s[0];
        if i > 0 {
          assert r[i] == d[i - 1] && r[i] in rest && r[i] in t && r[i] != s[0];
          FilterKeepsFirstOccurrenceOrder(t, notFirst, r[i], r[j]);
        }
      }
    }
  }
}
