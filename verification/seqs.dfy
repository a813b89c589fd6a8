/** Order-preserving filtering, subsequences and `Array.prototype.slice`. */
module Seqs {

  function Min(a: int, b: int): int { if a <= b then a else b }

  function Max(a: int, b: int): int { if a >= b then a else b }

  /** `s.filter(p)`: keeps exactly the elements satisfying `p`, never more than `s` has. */
  function Filter<T(!new)>(p: T -> bool, s: seq<T>): (r: seq<T>)
    ensures |r| <= |s|
    ensures forall i :: 0 <= i < |r| ==> p(r[i])
    ensures forall x :: x in r <==> x in s && p(x)
    ensures multiset(r) <= multiset(s)
  {
    if |s| == 0 then []
    else
      var rest := Filter(p, s[1..]);
      assert s == [s[0]] + s[1..];
      (if p(s[0]) then [s[0]] else []) + rest
  }

  /** `xs` is obtained from `ys` by deleting elements, keeping the order of the rest. */
  predicate IsSubseq<T(==)>(xs: seq<T>, ys: seq<T>)
    decreases |ys|
  {
    |xs| == 0
    || (|ys| > 0 && ((xs[0] == ys[0] && IsSubseq(xs[1..], ys[1..])) || IsSubseq(xs, ys[1..])))
  }

  /** Filtering never reorders: the result is a subsequence of the input. */
  lemma {:induction false} FilterIsSubseq<T(!new)>(p: T -> bool, s: seq<T>)
    ensures IsSubseq(Filter(p, s), s)
  {
    if |s| > 0 {
      FilterIsSubseq(p, s[1..]);
      var r := Filter(p, s);
      if p(s[0]) {
        assert r[0] == s[0] && r[1..] == Filter(p, s[1..]);
      } else {
        assert r == Filter(p, s[1..]);
      }
    }
  }

  /** Filtering keeps every occurrence of a satisfying element and none of the others. */
  lemma {:induction false} FilterMultiplicity<T(!new)>(p: T -> bool, s: seq<T>, x: T)
    ensures multiset(Filter(p, s))[x] == if p(x) then multiset(s)[x] else 0
  {
    if |s| > 0 {
      FilterMultiplicity(p, s[1..], x);
      assert s == [s[0]] + s[1..];
    }
  }

  /** Filtering two arrangements of the same elements gives two arrangements of the same elements. */
  lemma FilterPermutation<T(!new)>(p: T -> bool, s1: seq<T>, s2: seq<T>)
    requires multiset(s1) == multiset(s2)
    ensures multiset(Filter(p, s1)) == multiset(Filter(p, s2))
  {
    forall x
      ensures multiset(Filter(p, s1))[x] == multiset(Filter(p, s2))[x]
    {
      FilterMultiplicity(p, s1, x);
      FilterMultiplicity(p, s2, x);
    }
  }

  /** Filtering a concatenation filters each part. */
  lemma {:induction false} FilterAppend<T(!new)>(p: T -> bool, a: seq<T>, b: seq<T>)
    ensures Filter(p, a + b) == Filter(p, a) + Filter(p, b)
  {
    if |a| > 0 {
      assert (a + b)[1..] == a[1..] + b;
      FilterAppend(p, a[1..], b);
    } else {
      assert a + b == b;
    }
  }

  /** ECMAScript's ToIntegerOrInfinity on a finite number: truncation toward zero. */
  function Trunc(x: real): int {
    if x >= 0.0 then x.Floor else -((-x).Floor)
  }

  /** A relative `slice` bound: negative counts from the end, and it is clamped to `[0, n]`. */
  function ClampIndex(k: int, n: nat): (r: nat)
    ensures r <= n
  {
    if k < 0 then Max(n + k, 0) else Min(k, n)
  }

  /** `s.slice(start, end)` on integer arguments. */
  function JsSlice<T>(s: seq<T>, start: int, end: int): (r: seq<T>)
    ensures |r| <= |s|
    ensures forall x :: x in r ==> x in s
  {
    var from := ClampIndex(start, |s|);
    var to := ClampIndex(end, |s|);
    if from < to then s[from..to] else []
  }

  /** On natural bounds, a slice holds the elements from `start` on, at most `end - start` of them. */
  lemma SliceOfNaturals<T>(s: seq<T>, start: nat, end: nat)
    ensures |JsSlice(s, start, end)| == Max(0, Min(end, |s|) - start)
    ensures forall i :: 0 <= i < |JsSlice(s, start, end)| ==> JsSlice(s, start, end)[i] == s[start + i]
  {
  }

  /** Adjacent natural slices concatenate to the slice spanning both. */
  lemma SliceAdjacent<T>(s: seq<T>, a: nat, b: nat, c: nat)
    requires a <= b <= c
    ensures JsSlice(s, a, b) + JsSlice(s, b, c) == JsSlice(s, a, c)
  {
    var n := |s|;
    if Min(b, n) <= a {
      assert JsSlice(s, a, b) == [];
    } else if Min(c, n) <= b {
      assert JsSlice(s, b, c) == [];
    } else {
      assert s[a..Min(c, n)] == s[a..b] + s[b..Min(c, n)];
    }
  }

  /** The number of elements satisfying `p`. */
  function Count<T(!new)>(p: T -> bool, s: seq<T>): (n: nat)
    ensures n <= |s|
    ensures n == |Filter(p, s)|
  {
    if |s| == 0 then 0 else (if p(s[0]) then 1 else 0) + Count(p, s[1..])
  }
}
