/** Finite sums of real-valued terms over a sequence, and the facts the
    inverse-distance estimator needs about them: splitting, insensitivity to
    order, positivity and the weighted-average bound. */
module Sums {

  /** The sum of f over the elements of s, front to back. */
  function Sum<T>(s: seq<T>, f: T -> real): real
    decreases |s|
  {
    if |s| == 0 then 0.0 else f(s[0]) + Sum(s[1..], f)
  }

  lemma {:induction false} SumConcat<T>(a: seq<T>, b: seq<T>, f: T -> real)
    ensures Sum(a + b, f) == Sum(a, f) + Sum(b, f)
    decreases |a|
  {
    if |a| == 0 {
      assert a + b == b;
    } else {
      assert (a + b)[1..] == a[1..] + b;
      SumConcat(a[1..], b, f);
    }
  }

  /** Extending a prefix by one element adds that element's term. */
  lemma SumSnoc<T>(s: seq<T>, x: T, f: T -> real)
    ensures Sum(s + [x], f) == Sum(s, f) + f(x)
  {
    SumConcat(s, [x], f);
    assert [x][1..] == [];
  }

  /** A sum does not depend on the order of its terms. */
  lemma {:induction false} SumPermutation<T>(a: seq<T>, b: seq<T>, f: T -> real)
    requires multiset(a) == multiset(b)
    ensures Sum(a, f) == Sum(b, f)
    decreases |a|
  {
    if |a| == 0 {
      assert |b| == |multiset(b)| == 0;
    } else {
      var x := a[0];
      assert x in multiset(b);
      var j :| 0 <= j < |b| && b[j] == x;
      var rest := b[..j] + b[j+1..];
      assert b == b[..j] + ([x] + b[j+1..]);
      assert a == [x] + a[1..];
      assert multiset(b) == multiset(b[..j]) + multiset{x} + multiset(b[j+1..]);
      assert multiset(rest) == multiset(b[..j]) + multiset(b[j+1..]);
      assert multiset(a) == multiset{x} + multiset(a[1..]);
      assert multiset(a[1..]) == multiset(a) - multiset{x};
      assert multiset(rest) == multiset(b) - multiset{x};
      SumPermutation(a[1..], rest, f);
      SumConcat(b[..j], [x] + b[j+1..], f);
      SumConcat(b[..j], b[j+1..], f);
      assert ([x] + b[j+1..])[1..] == b[j+1..];
    }
  }

  /** A non-empty sum of positive terms is positive. */
  lemma {:induction false} SumPositive<T>(s: seq<T>, f: T -> real)
    requires |s| > 0
    requires forall x :: x in s ==> f(x) > 0.0
    ensures Sum(s, f) > 0.0
    decreases |s|
  {
    if |s| > 1 {
      SumPositive(s[1..], f);
    }
  }

  /** If every term g(x) lies between lo·w(x) and hi·w(x), so does the sum of
      g between lo and hi times the sum of w. */
  lemma {:induction false} SumBetween<T>(s: seq<T>, w: T -> real, g: T -> real, lo: real, hi: real)
    requires forall x :: x in s ==> lo * w(x) <= g(x) <= hi * w(x)
    ensures lo * Sum(s, w) <= Sum(s, g) <= hi * Sum(s, w)
    decreases |s|
  {
    if |s| > 0 {
      SumBetween(s[1..], w, g, lo, hi);
      assert lo * Sum(s, w) == lo * w(s[0]) + lo * Sum(s[1..], w);
      assert hi * Sum(s, w) == hi * w(s[0]) + hi * Sum(s[1..], w);
    }
  }
}
