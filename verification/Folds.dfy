/** Left folds whose step commutes do not depend on the order of the elements. */
module Folds {
  function FoldLeft<S, X>(f: (S, X) -> S, init: S, xs: seq<X>): S {
    if xs == [] then init else f(FoldLeft(f, init, xs[..|xs| - 1]), xs[|xs| - 1])
  }

  ghost predicate Commutes<S(!new), X(!new)>(f: (S, X) -> S) {
    forall s, x, y :: f(f(s, x), y) == f(f(s, y), x)
  }

  function Without<X>(xs: seq<X>, i: nat): seq<X>
    requires i < |xs|
  {
    xs[..i] + xs[i + 1..]
  }

  lemma FoldSnoc<S, X>(f: (S, X) -> S, init: S, xs: seq<X>, x: X)
    ensures FoldLeft(f, init, xs + [x]) == f(FoldLeft(f, init, xs), x)
  {
    assert (xs + [x])[..|xs|] == xs;
  }

  /** Any element may be taken last. */
  lemma {:induction false} TakeLast<S(!new), X(!new)>(f: (S, X) -> S, init: S, xs: seq<X>, i: nat)
    requires Commutes(f) && i < |xs|
    ensures FoldLeft(f, init, xs) == f(FoldLeft(f, init, Without(xs, i)), xs[i])
  {
    var n := |xs| - 1;
    var front, last := xs[..n], xs[n];
    if i == n {
      assert Without(xs, i) == front;
    } else {
      TakeLast(f, init, front, i);
      assert Without(xs, i) == Without(front, i) + [last];
      FoldSnoc(f, init, Without(front, i), last);
    }
  }

  lemma WithoutMultiset<X>(xs: seq<X>, i: nat)
    requires i < |xs|
    ensures multiset(Without(xs, i)) == multiset(xs) - multiset{xs[i]}
  {
    assert xs == xs[..i] + [xs[i]] + xs[i + 1..];
  }

  lemma {:induction false} FoldPermutes<S(!new), X(!new)>(f: (S, X) -> S, init: S, a: seq<X>, b: seq<X>)
    requires Commutes(f) && multiset(a) == multiset(b)
    ensures FoldLeft(f, init, a) == FoldLeft(f, init, b)
    decreases |a|
  {
    if a == [] {
      assert |multiset(b)| == 0;
    } else {
      var n := |a| - 1;
      assert a[n] in multiset(b);
      var i :| 0 <= i < |b| && b[i] == a[n];
      assert Without(a, n) == a[..n];
      WithoutMultiset(a, n);
      WithoutMultiset(b, i);
      FoldPermutes(f, init, a[..n], Without(b, i));
      TakeLast(f, init, b, i);
    }
  }
}
