/** Order-preserving selection from a sequence, as JavaScript's `Array.prototype.filter`
    and a SQL `WHERE` over a table both perform it. */
module Sequences {

  /** `s.filter(p)`. */
  function Filter<T>(s: seq<T>, p: T -> bool): (r: seq<T>)
    ensures |r| <= |s|
    ensures forall x :: x in r ==> x in s && p(x)
  {
    if s == [] then []
    else (if p(s[0]) then [s[0]] else []) + Filter(s[1..], p)
  }

  /** `a` is obtained from `b` by deleting elements, keeping the order of the rest. */
  ghost predicate IsSubsequence<T>(a: seq<T>, b: seq<T>)
    decreases |b|
  {
    a == [] || (b != [] && ((a[0] == b[0] && IsSubsequence(a[1..], b[1..])) || IsSubsequence(a, b[1..])))
  }

  /** Every element of `s` that satisfies `p` is kept. */
  lemma {:induction false} FilterKeeps<T>(s: seq<T>, p: T -> bool, x: T)
    requires x in s && p(x)
    ensures x in Filter(s, p)
  {
    if s[0] != x {
      FilterKeeps(s[1..], p, x);
    }
  }

  /** Membership in the filtered sequence, in both directions. */
  lemma FilterMembership<T>(s: seq<T>, p: T -> bool)
    ensures forall x :: x in Filter(s, p) <==> x in s && p(x)
  {
    forall x | x in s && p(x)
      ensures x in Filter(s, p)
    {
      FilterKeeps(s, p, x);
    }
  }

  /** Filtering keeps the relative order of what it keeps. */
  lemma {:induction false} FilterIsSubsequence<T>(s: seq<T>, p: T -> bool)
    ensures IsSubsequence(Filter(s, p), s)
  {
    if s != [] {
      FilterIsSubsequence(s[1..], p);
      var rest := Filter(s[1..], p);
      if p(s[0]) {
        assert Filter(s, p) == [s[0]] + rest;
        assert ([s[0]] + rest)[1..] == rest;
      } else {
        assert Filter(s, p) == rest;
      }
    }
  }

  /** Filtering distributes over concatenation. */
  lemma {:induction false} FilterAppend<T>(a: seq<T>, b: seq<T>, p: T -> bool)
    ensures Filter(a + b, p) == Filter(a, p) + Filter(b, p)
  {
    if a == [] {
      assert a + b == b;
    } else {
      assert (a + b)[0] == a[0];
      assert (a + b)[1..] == a[1..] + b;
      FilterAppend(a[1..], b, p);
    }
  }

  /** A filter that no element satisfies yields the empty sequence. */
  lemma FilterNone<T>(s: seq<T>, p: T -> bool)
    requires forall x :: x in s ==> !p(x)
    ensures Filter(s, p) == []
  {
    if Filter(s, p) != [] {
      assert Filter(s, p)[0] in Filter(s, p);
    }
  }

  /** Replacing an element that the filter drops by another that it drops changes nothing. */
  lemma {:induction false} FilterUpdateSkipped<T>(s: seq<T>, k: nat, x: T, p: T -> bool)
    requires k < |s| && !p(s[k]) && !p(x)
    ensures Filter(s[k := x], p) == Filter(s, p)
  {
    if k == 0 {
      assert s[k := x][1..] == s[1..];
    } else {
      assert s[k := x][0] == s[0];
      assert s[k := x][1..] == s[1..][k - 1 := x];
      FilterUpdateSkipped(s[1..], k - 1, x, p);
    }
  }

  /** Filtering depends only on which elements the predicate accepts. */
  lemma {:induction false} FilterExtensional<T>(s: seq<T>, p: T -> bool, q: T -> bool)
    requires forall x | x in s :: p(x) == q(x)
    ensures Filter(s, p) == Filter(s, q)
  {
    if s != [] {
      FilterExtensional(s[1..], p, q);
    }
  }
}
