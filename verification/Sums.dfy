/** Sums over sequences, and what reordering leaves alone. */
module Sums {
  function SumBy<T>(xs: seq<T>, f: T -> nat): nat {
    if xs == [] then 0 else SumBy(xs[..|xs| - 1], f) + f(xs[|xs| - 1])
  }

  lemma {:induction false} SumByConcat<T>(a: seq<T>, b: seq<T>, f: T -> nat)
    ensures SumBy(a + b, f) == SumBy(a, f) + SumBy(b, f)
  {
    if b == [] {
      assert a + b == a;
    } else {
      assert (a + b)[..|a + b| - 1] == a + b[..|b| - 1];
      SumByConcat(a, b[..|b| - 1], f);
    }
  }

  lemma SumByAppend<T>(a: seq<T>, x: T, f: T -> nat)
    ensures SumBy(a + [x], f) == SumBy(a, f) + f(x)
  {
    assert (a + [x])[..|a|] == a;
  }

  /** An element taken out of the middle of a sequence. */
  lemma Removed<T>(b: seq<T>, k: nat)
    requires k < |b|
    ensures multiset(b[..k] + b[k + 1..]) == multiset(b) - multiset{b[k]} && b == b[..k] + [b[k]] + b[k + 1..]
  {
    assert b == b[..k] + [b[k]] + b[k + 1..];
  }

  lemma SumByRemoved<T>(b: seq<T>, k: nat, f: T -> nat)
    requires k < |b|
    ensures SumBy(b, f) == SumBy(b[..k] + b[k + 1..], f) + f(b[k])
  {
    Removed(b, k);
    SumByConcat(b[..k], b[k + 1..], f);
    SumByConcat(b[..k] + [b[k]], b[k + 1..], f);
    SumByAppend(b[..k], b[k], f);
  }

  /** The last element of a sequence, found in a permutation of it and taken out of both. */
  lemma LastFound<T>(a: seq<T>, b: seq<T>) returns (k: nat)
    requires a != [] && multiset(a) == multiset(b)
    ensures k < |b| && b[k] == a[|a| - 1] && multiset(a[..|a| - 1]) == multiset(b[..k] + b[k + 1..])
  {
    var last := a[|a| - 1];
    assert a == a[..|a| - 1] + [last];
    assert last in multiset(b);
    k :| 0 <= k < |b| && b[k] == last;
    Removed(b, k);
  }

  lemma EmptyPermutation<T>(b: seq<T>)
    requires multiset(b) == multiset{}
    ensures b == []
  {
    assert |multiset(b)| == |b|;
  }

  /** A sum does not depend on the order of its terms. */
  lemma {:induction false} SumByPermutation<T>(a: seq<T>, b: seq<T>, f: T -> nat)
    requires multiset(a) == multiset(b)
    ensures SumBy(a, f) == SumBy(b, f)
    decreases |a|
  {
    if a == [] {
      EmptyPermutation(b);
    } else {
      var k := LastFound(a, b);
      SumByPermutation(a[..|a| - 1], b[..k] + b[k + 1..], f);
      SumByRemoved(b, k, f);
    }
  }

  lemma SameMembers<T>(a: seq<T>, b: seq<T>)
    requires multiset(a) == multiset(b)
    ensures forall x :: x in a <==> x in b
  {
    forall x ensures x in a <==> x in b {
      assert x in multiset(a) <==> x in multiset(b);
    }
  }

  // ---------- flattening ----------

  function FlatMap<T, U>(xs: seq<T>, f: T -> seq<U>): seq<U> {
    if xs == [] then [] else FlatMap(xs[..|xs| - 1], f) + f(xs[|xs| - 1])
  }

  lemma FlatMapAppend<T, U>(a: seq<T>, x: T, f: T -> seq<U>)
    ensures FlatMap(a + [x], f) == FlatMap(a, f) + f(x)
  {
    assert (a + [x])[..|a|] == a;
  }

  lemma {:induction false} FlatMapConcat<T, U>(a: seq<T>, b: seq<T>, f: T -> seq<U>)
    ensures FlatMap(a + b, f) == FlatMap(a, f) + FlatMap(b, f)
  {
    if b == [] {
      assert a + b == a;
      assert FlatMap(a, f) + [] == FlatMap(a, f);
    } else {
      assert (a + b)[..|a + b| - 1] == a + b[..|b| - 1];
      FlatMapConcat(a, b[..|b| - 1], f);
    }
  }

  /** A sum over what elements flatten to is the sum of their sums. */
  lemma {:induction false} SumOfFlatMap<T, U>(xs: seq<T>, f: T -> seq<U>, g: U -> nat, h: T -> nat)
    requires forall x :: SumBy(f(x), g) == h(x)
    ensures SumBy(FlatMap(xs, f), g) == SumBy(xs, h)
    decreases |xs|
  {
    if xs != [] {
      var front, last := xs[..|xs| - 1], xs[|xs| - 1];
      SumOfFlatMap(front, f, g, h);
      SumByConcat(FlatMap(front, f), f(last), g);
    }
  }

  /** Reordering the elements reorders what they flatten to. */
  lemma {:induction false} FlatMapPermutation<T, U>(a: seq<T>, b: seq<T>, f: T -> seq<U>)
    requires multiset(a) == multiset(b)
    ensures multiset(FlatMap(a, f)) == multiset(FlatMap(b, f))
    decreases |a|
  {
    if a == [] {
      EmptyPermutation(b);
    } else {
      var k := LastFound(a, b);
      FlatMapPermutation(a[..|a| - 1], b[..k] + b[k + 1..], f);
      FlatMapRemoved(b, k, f);
    }
  }

  lemma FlatMapRemoved<T, U>(b: seq<T>, k: nat, f: T -> seq<U>)
    requires k < |b|
    ensures multiset(FlatMap(b, f)) == multiset(FlatMap(b[..k] + b[k + 1..], f)) + multiset(f(b[k]))
  {
    Removed(b, k);
    FlatMapConcat(b[..k], b[k + 1..], f);
    FlatMapConcat(b[..k] + [b[k]], b[k + 1..], f);
    FlatMapAppend(b[..k], b[k], f);
  }

  lemma {:induction false} FlatMapMembers<T, U>(xs: seq<T>, f: T -> seq<U>, y: U)
    ensures y in FlatMap(xs, f) <==> exists x :: x in xs && y in f(x)
  {
    if xs != [] {
      var front, last := xs[..|xs| - 1], xs[|xs| - 1];
      assert xs == front + [last];
      FlatMapMembers(front, f, y);
      if y in f(last) { assert last in xs; }
    }
  }

  // ---------- mapping ----------

  function MapBy<T, U>(xs: seq<T>, f: T -> U): (ys: seq<U>)
    ensures |ys| == |xs|
  {
    if xs == [] then [] else MapBy(xs[..|xs| - 1], f) + [f(xs[|xs| - 1])]
  }

  lemma {:induction false} MapByAt<T, U>(xs: seq<T>, f: T -> U, k: nat)
    requires k < |xs|
    ensures MapBy(xs, f)[k] == f(xs[k])
  {
    if k < |xs| - 1 { MapByAt(xs[..|xs| - 1], f, k); }
  }

  lemma MapByAppend<T, U>(a: seq<T>, x: T, f: T -> U)
    ensures MapBy(a + [x], f) == MapBy(a, f) + [f(x)]
  {
    assert (a + [x])[..|a|] == a;
  }

  lemma {:induction false} MapByConcat<T, U>(a: seq<T>, b: seq<T>, f: T -> U)
    ensures MapBy(a + b, f) == MapBy(a, f) + MapBy(b, f)
    decreases |b|
  {
    if b == [] {
      assert a + b == a;
    } else {
      var front, last := b[..|b| - 1], b[|b| - 1];
      assert a + b == a + front + [last] && b == front + [last];
      MapByConcat(a, front, f);
      MapByAppend(a + front, last, f);
    }
  }
}
