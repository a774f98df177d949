/**
 * The array operations the application leans on: `filter`, `find` and
 * `findIndex`, each stated against an independent description (membership,
 * order as a subsequence, first match).
 */
module Seqs {
  import opened Wrappers

  /** `a` can be obtained from `b` by deleting elements: the order of `a` is the order of `b`. */
  predicate IsSubsequence<T(==)>(a: seq<T>, b: seq<T>)
    decreases |b|
  {
    if a == [] then true
    else if b == [] then false
    else (a[0] == b[0] && IsSubsequence(a[1..], b[1..])) || IsSubsequence(a, b[1..])
  }

  /** `Array.prototype.filter`: the elements of `s` that satisfy `p`, in their order. */
  function Filter<T>(s: seq<T>, p: T -> bool): (r: seq<T>)
    ensures |r| <= |s|
    ensures forall i :: 0 <= i < |r| ==> r[i] in s && p(r[i])
    ensures forall i :: 0 <= i < |s| && p(s[i]) ==> s[i] in r
  {
    if s == [] then []
    else if p(s[0]) then [s[0]] + Filter(s[1..], p)
    else Filter(s[1..], p)
  }

  /** `Array.prototype.findIndex`, with `None` for JavaScript's `-1`. */
  function FirstIndex<T>(s: seq<T>, p: T -> bool): (r: Option<nat>)
    ensures r.Some? ==> r.value < |s| && p(s[r.value])
    ensures r.Some? ==> forall j :: 0 <= j < r.value ==> !p(s[j])
    ensures r.None? ==> forall j :: 0 <= j < |s| ==> !p(s[j])
  {
    if s == [] then None
    else if p(s[0]) then Some(0)
    else match FirstIndex(s[1..], p)
      case None => None
      case Some(k) => Some(k + 1)
  }

  /** `Array.prototype.find`: the first element satisfying `p`, or `None` (`undefined`). */
  function Find<T>(s: seq<T>, p: T -> bool): (r: Option<T>)
    ensures r.None? <==> forall i :: 0 <= i < |s| ==> !p(s[i])
    ensures r.Some? ==> r.value in s && p(r.value)
    ensures r.Some? ==> exists i :: 0 <= i < |s| && s[i] == r.value && forall j :: 0 <= j < i ==> !p(s[j])
  {
    match FirstIndex(s, p)
    case None => None
    case Some(i) => Some(s[i])
  }

  lemma {:induction false} FilterIsSubsequence<T>(s: seq<T>, p: T -> bool)
    ensures IsSubsequence(Filter(s, p), s)
  {
    if s != [] {
      FilterIsSubsequence(s[1..], p);
      if !p(s[0]) {
        var r := Filter(s, p);
        assert r == Filter(s[1..], p);
        if r != [] {
          assert IsSubsequence(r, s[1..]);
        }
      }
    }
  }

  /** Filtering a concatenation filters each part: together with `Filter([x], p)` this fixes the order. */
  lemma {:induction false} FilterConcat<T>(a: seq<T>, b: seq<T>, p: T -> bool)
    ensures Filter(a + b, p) == Filter(a, p) + Filter(b, p)
  {
    if a == [] {
      assert a + b == b;
    } else {
      assert (a + b)[0] == a[0];
      assert (a + b)[1..] == a[1..] + b;
      FilterConcat(a[1..], b, p);
    }
  }

  /** A filter that every element passes changes nothing. */
  lemma {:induction false} FilterKeepsAll<T>(s: seq<T>, p: T -> bool)
    requires forall i :: 0 <= i < |s| ==> p(s[i])
    ensures Filter(s, p) == s
  {
    if s != [] {
      FilterKeepsAll(s[1..], p);
    }
  }

  /** `Filter(s, p)` holds each element passing `p` as often as `s` does, and no other element. */
  lemma {:induction false} FilterMultiset<T>(s: seq<T>, p: T -> bool, x: T)
    ensures multiset(Filter(s, p))[x] == if p(x) then multiset(s)[x] else 0
  {
    if s != [] {
      FilterMultiset(s[1..], p, x);
      assert s == [s[0]] + s[1..];
    }
  }

  /** `FilterMultiset` for every element at once. */
  lemma FilterCounts<T>(s: seq<T>, p: T -> bool)
    ensures forall x :: multiset(Filter(s, p))[x] == if p(x) then multiset(s)[x] else 0
  {
    forall x ensures multiset(Filter(s, p))[x] == if p(x) then multiset(s)[x] else 0 {
      FilterMultiset(s, p, x);
    }
  }

  /** Two elements of a subsequence come from two distinct, ordered positions. */
  lemma {:induction false} SubsequenceOfTwo<T>(r: seq<T>, s: seq<T>)
    requires IsSubsequence(r, s) && |r| >= 2
    ensures exists i, j :: 0 <= i < j < |s| && s[i] == r[0] && s[j] == r[1]
  {
    if r[0] == s[0] && IsSubsequence(r[1..], s[1..]) {
      var k := SubsequenceHead(r[1..], s[1..]);
      assert s[0] == r[0] && s[k + 1] == r[1];
    } else {
      SubsequenceOfTwo(r, s[1..]);
      var i, j :| 0 <= i < j < |s[1..]| && s[1..][i] == r[0] && s[1..][j] == r[1];
      assert s[i + 1] == r[0] && s[j + 1] == r[1];
    }
  }

  /** The head of a non-empty subsequence occurs in the sequence. */
  lemma {:induction false} SubsequenceHead<T>(r: seq<T>, s: seq<T>) returns (k: nat)
    requires IsSubsequence(r, s) && |r| >= 1
    ensures k < |s| && s[k] == r[0]
  {
    if r[0] == s[0] && IsSubsequence(r[1..], s[1..]) {
      k := 0;
    } else {
      k := SubsequenceHead(r, s[1..]);
      k := k + 1;
    }
  }
}
