/** Small shared vocabulary: an optional value (the model's stand-in for a
    missing or NaN cell), order-preserving filtering of sequences, and the
    minimum and maximum of a non-empty sequence of reals. */
module Basics {

  datatype Option<T> = None | Some(value: T)

  datatype Result<T, E> = Success(value: T) | Failure(error: E)

  /** The elements of `s` that satisfy `p`, in their original order. */
  function Filter<T>(s: seq<T>, p: T -> bool): (r: seq<T>)
    ensures |r| <= |s|
    ensures forall x :: x in r ==> x in s && p(x)
    ensures forall i :: 0 <= i < |s| && p(s[i]) ==> s[i] in r
  {
    if s == [] then []
    else
      assert forall i :: 1 <= i < |s| ==> s[i] == s[1..][i - 1];
      (if p(s[0]) then [s[0]] else []) + Filter(s[1..], p)
  }

  /** Filtering distributes over concatenation: it keeps the relative order
      of the elements it keeps. */
  lemma {:induction false} FilterConcat<T>(a: seq<T>, b: seq<T>, p: T -> bool)
    ensures Filter(a + b, p) == Filter(a, p) + Filter(b, p)
  {
    if a == [] {
      assert a + b == b;
    } else {
      assert (a + b)[1..] == a[1..] + b;
      FilterConcat(a[1..], b, p);
    }
  }

  /** Every element satisfying `p` survives as often as it occurs, and no
      other element survives. */
  lemma {:induction false} FilterCount<T>(s: seq<T>, p: T -> bool, x: T)
    ensures multiset(Filter(s, p))[x] == if p(x) then multiset(s)[x] else 0
  {
    if s != [] {
      FilterCount(s[1..], p, x);
      assert s == [s[0]] + s[1..];
      assert multiset(s) == multiset([s[0]]) + multiset(s[1..]);
    }
  }

  /** Keys strictly increasing along the sequence. */
  predicate StrictlyIncreasing<T>(s: seq<T>, key: T -> int)
  {
    forall i, j :: 0 <= i < j < |s| ==> key(s[i]) < key(s[j])
  }

  /** Filtering a sequence ordered by a key yields a sequence ordered by it. */
  lemma {:induction false} FilterKeepsOrder<T>(s: seq<T>, p: T -> bool, key: T -> int)
    requires StrictlyIncreasing(s, key)
    ensures StrictlyIncreasing(Filter(s, p), key)
  {
    if s != [] {
      var tail := Filter(s[1..], p);
      FilterKeepsOrder(s[1..], p, key);
      forall x | x in tail
        ensures key(s[0]) < key(x)
      {
        var k :| 1 <= k < |s| && s[k] == x;
      }
    }
  }

  /** Position of `x` in `s`, or |s| when absent. */
  function IndexOf<T(==)>(s: seq<T>, x: T): (k: nat)
    ensures k <= |s|
    ensures k < |s| ==> s[k] == x
    ensures forall i :: 0 <= i < k ==> s[i] != x
  {
    if s == [] then 0 else if s[0] == x then 0 else 1 + IndexOf(s[1..], x)
  }

  // Facts about real multiplication and division that the solver does not
  // find on its own inside larger proofs.

  lemma MulNonNeg(u: real, v: real)
    requires u >= 0.0 && v >= 0.0
    ensures u * v >= 0.0
  {
  }

  lemma MulMonotone(u: real, v: real, w: real)
    requires u <= v && w >= 0.0
    ensures u * w <= v * w
  {
    MulNonNeg(v - u, w);
  }

  lemma MulStrict(u: real, v: real, w: real)
    requires u < v && w > 0.0
    ensures u * w < v * w
  {
  }

  /** t / v lies in [lo, hi] when t lies in [lo * v, hi * v] and v > 0. */
  lemma DivBounds(t: real, v: real, lo: real, hi: real)
    requires v > 0.0 && lo * v <= t <= hi * v
    ensures lo <= t / v <= hi
  {
    DivCancel(t, v);
    if t / v < lo {
      MulStrict(t / v, lo, v);
    }
    if t / v > hi {
      MulStrict(hi, t / v, v);
    }
  }

  lemma DivLess(t: real, v: real, c: real)
    requires v > 0.0
    ensures t / v < c <==> t < c * v
  {
    DivCancel(t, v);
    if t / v < c {
      MulStrict(t / v, c, v);
    } else {
      MulMonotone(c, t / v, v);
    }
  }

  lemma DivGreater(t: real, v: real, c: real)
    requires v > 0.0
    ensures t / v > c <==> t > c * v
  {
    DivCancel(t, v);
    if t / v > c {
      MulStrict(c, t / v, v);
    } else {
      MulMonotone(t / v, c, v);
    }
  }

  lemma DivCancel(t: real, v: real)
    requires v != 0.0
    ensures (t / v) * v == t
  {
  }

  lemma MulCancel(u: real, v: real, w: real)
    requires w != 0.0 && u * w == v * w
    ensures u == v
  {
    assert (u - v) * w == 0.0;
  }

  /** The least element of a non-empty sequence. */
  function Min(s: seq<real>): (m: real)
    requires |s| > 0
    ensures m in s
    ensures forall i :: 0 <= i < |s| ==> m <= s[i]
  {
    if |s| == 1 then s[0]
    else
      var rest := Min(s[1..]);
      assert forall i :: 1 <= i < |s| ==> s[i] == s[1..][i - 1];
      if s[0] <= rest then s[0] else rest
  }

  /** The greatest element of a non-empty sequence. */
  function Max(s: seq<real>): (m: real)
    requires |s| > 0
    ensures m in s
    ensures forall i :: 0 <= i < |s| ==> s[i] <= m
  {
    if |s| == 1 then s[0]
    else
      var rest := Max(s[1..]);
      assert forall i :: 1 <= i < |s| ==> s[i] == s[1..][i - 1];
      if s[0] >= rest then s[0] else rest
  }
}
