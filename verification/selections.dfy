/**
 * The list operations the source composes its queries from: `Array.prototype.filter`
 * and `Array.prototype.slice(0, end)`, over immutable sequences.
 */
module Selections {

  /** r can be obtained from s by deleting elements (greedy left-to-right matching). */
  predicate IsSubsequence<T(==)>(r: seq<T>, s: seq<T>) {
    if r == [] then true
    else if s == [] then false
    else if r[0] == s[0] then IsSubsequence(r[1..], s[1..])
    else IsSubsequence(r, s[1..])
  }

  /** The number of elements of s that satisfy p. */
  function Count<T>(s: seq<T>, p: T -> bool): (n: nat)
    ensures n <= |s|
  {
    if s == [] then 0 else (if p(s[0]) then 1 else 0) + Count(s[1..], p)
  }

  /**
   * r is the selection of s by p: the elements satisfying p, every one of them,
   * in their order in s.  (Proved below to determine r.)
   */
  ghost predicate IsSelection<T>(r: seq<T>, s: seq<T>, p: T -> bool) {
    && IsSubsequence(r, s)
    && (forall i :: 0 <= i < |r| ==> p(r[i]))
    && |r| == Count(s, p)
  }

  /** `s.filter(p)`. */
  function Filter<T>(s: seq<T>, p: T -> bool): (r: seq<T>)
    ensures IsSelection(r, s, p)
  {
    if s == [] then []
    else if p(s[0]) then [s[0]] + Filter(s[1..], p)
    else Filter(s[1..], p)
  }

  /** What `filter` keeps: only elements of s that pass, and every element of s that passes. */
  lemma {:induction false} FilterMembers<T>(s: seq<T>, p: T -> bool)
    ensures forall i :: 0 <= i < |Filter(s, p)| ==> Filter(s, p)[i] in s && p(Filter(s, p)[i])
    ensures forall i :: 0 <= i < |s| && p(s[i]) ==> s[i] in Filter(s, p)
  {
    if s != [] {
      FilterMembers(s[1..], p);
      var r := Filter(s, p);
      forall i | 0 <= i < |r|
        ensures r[i] in s && p(r[i])
      {
        if p(s[0]) && i > 0 {
          assert r[i] == Filter(s[1..], p)[i - 1];
        }
      }
      forall i | 0 <= i < |s| && p(s[i])
        ensures s[i] in r
      {
        if i > 0 {
          assert s[i] == s[1..][i - 1];
        }
      }
    }
  }

  /** A subsequence made of elements satisfying p is no longer than the count of p. */
  lemma {:induction false} SubsequenceBound<T>(r: seq<T>, s: seq<T>, p: T -> bool)
    requires IsSubsequence(r, s)
    requires forall i :: 0 <= i < |r| ==> p(r[i])
    ensures |r| <= Count(s, p)
    decreases |s|
  {
    if r != [] {
      if r[0] == s[0] {
        SubsequenceBound(r[1..], s[1..], p);
      } else {
        SubsequenceBound(r, s[1..], p);
      }
    }
  }

  /** The selection is unique: whatever satisfies IsSelection is `s.filter(p)`. */
  lemma {:induction false} SelectionIsFilter<T>(r: seq<T>, s: seq<T>, p: T -> bool)
    requires IsSelection(r, s, p)
    ensures r == Filter(s, p)
    decreases |s|
  {
    if s != [] {
      if r == [] {
        SelectionIsFilter(r, s[1..], p);
      } else if r[0] == s[0] {
        SelectionIsFilter(r[1..], s[1..], p);
      } else {
        assert p(r[0]);
        if p(s[0]) {
          SubsequenceBound(r, s[1..], p);
          assert false;
        }
        SelectionIsFilter(r, s[1..], p);
      }
    }
  }

  /** Filtering by a test every element passes changes nothing. */
  lemma {:induction false} FilterAll<T>(s: seq<T>, p: T -> bool)
    requires forall i :: 0 <= i < |s| ==> p(s[i])
    ensures Filter(s, p) == s
  {
    if s != [] {
      FilterAll(s[1..], p);
    }
  }

  /** Filtering twice by the same test is filtering once. */
  lemma FilterIdempotent<T>(s: seq<T>, p: T -> bool)
    ensures Filter(Filter(s, p), p) == Filter(s, p)
  {
    FilterAll(Filter(s, p), p);
  }

  /** Filtering distributes over concatenation. */
  lemma {:induction false} FilterAppend<T>(a: seq<T>, b: seq<T>, p: T -> bool)
    ensures Filter(a + b, p) == Filter(a, p) + Filter(b, p)
  {
    if a != [] {
      assert (a + b)[1..] == a[1..] + b;
      FilterAppend(a[1..], b, p);
    } else {
      assert a + b == b;
    }
  }

  /**
   * The end index `slice(0, end)` uses on a list of length n: a negative end
   * counts from the back, and the result is clamped to [0, n].
   */
  function SliceEnd(n: nat, end: int): (k: nat)
    ensures k <= n
    ensures end >= 0 ==> k == if end < n then end else n
    ensures end < 0 ==> k == if n + end < 0 then 0 else n + end
  {
    if end < 0 then (if n + end < 0 then 0 else n + end)
    else if end < n then end
    else n
  }

  /** `s.slice(0, end)`. */
  function Take<T>(s: seq<T>, end: int): (r: seq<T>)
    ensures |r| == SliceEnd(|s|, end)
    ensures r == s[..|r|]
  {
    s[..SliceEnd(|s|, end)]
  }

  /** Cutting at an end within the list keeps exactly that many leading entries. */
  lemma TakePrefix<T>(s: seq<T>, end: int)
    requires 0 <= end <= |s|
    ensures Take(s, end) == s[..end]
  {
  }

  /** Tests that agree on every element select the same entries. */
  lemma {:induction false} FilterCongruent<T>(s: seq<T>, p: T -> bool, q: T -> bool)
    requires forall i :: 0 <= i < |s| ==> p(s[i]) == q(s[i])
    ensures Filter(s, p) == Filter(s, q)
  {
    if s != [] {
      FilterCongruent(s[1..], p, q);
    }
  }

  /** One step of `filter`: the head is kept exactly when it passes (k says whether it does). */
  lemma FilterConsMask<T>(x: T, s: seq<T>, p: T -> bool, k: bool)
    requires p(x) == k
    ensures Filter([x] + s, p) == (if k then [x] else []) + Filter(s, p)
  {
    assert ([x] + s)[1..] == s;
  }

  /** `filter` on a six-element list whose test outcomes are ka .. kf, spelled out. */
  lemma FilterSixMask<T>(a: T, b: T, c: T, d: T, e: T, f: T, p: T -> bool,
                         ka: bool, kb: bool, kc: bool, kd: bool, ke: bool, kf: bool)
    requires p(a) == ka && p(b) == kb && p(c) == kc && p(d) == kd && p(e) == ke && p(f) == kf
    ensures Filter([a, b, c, d, e, f], p)
         == (if ka then [a] else []) + ((if kb then [b] else []) + ((if kc then [c] else [])
          + ((if kd then [d] else []) + ((if ke then [e] else []) + ((if kf then [f] else []) + [])))))
  {
    FilterConsMask(f, [], p, kf);
    assert [f] == [f] + [];
    FilterConsMask(e, [f], p, ke);
    assert [e, f] == [e] + [f];
    FilterConsMask(d, [e, f], p, kd);
    assert [d, e, f] == [d] + [e, f];
    FilterConsMask(c, [d, e, f], p, kc);
    assert [c, d, e, f] == [c] + [d, e, f];
    FilterConsMask(b, [c, d, e, f], p, kb);
    assert [b, c, d, e, f] == [b] + [c, d, e, f];
    FilterConsMask(a, [b, c, d, e, f], p, ka);
    assert [a, b, c, d, e, f] == [a] + [b, c, d, e, f];
  }
}
