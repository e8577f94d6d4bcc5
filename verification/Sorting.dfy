/** Strings in code-unit order, as a plain `sort` leaves them. */
module Sorting {
  import opened Text

  /** Code-unit order on strings, the default order of `sort`. */
  predicate Before(a: string, b: string) {
    if a == "" then true
    else if b == "" then false
    else if a[0] != b[0] then a[0] < b[0]
    else Before(a[1..], b[1..])
  }

  function Insert(x: string, xs: seq<string>): seq<string> {
    if xs == [] || Before(x, xs[0]) then [x] + xs else [xs[0]] + Insert(x, xs[1..])
  }

  function Sorted(xs: seq<string>): seq<string> {
    if xs == [] then [] else Insert(xs[0], Sorted(xs[1..]))
  }

  function Join(xs: seq<string>, sep: string): string {
    if xs == [] then "" else if |xs| == 1 then xs[0] else xs[0] + sep + Join(xs[1..], sep)
  }

  lemma {:induction false} BeforeIsTotal(a: string, b: string)
    ensures Before(a, b) || Before(b, a)
  {
    if a != "" && b != "" && a[0] == b[0] { BeforeIsTotal(a[1..], b[1..]); }
  }

  lemma {:induction false} BeforeIsAntisymmetric(a: string, b: string)
    ensures Before(a, b) && Before(b, a) ==> a == b
  {
    if a != "" && b != "" && a[0] == b[0] {
      BeforeIsAntisymmetric(a[1..], b[1..]);
      assert a == [a[0]] + a[1..] && b == [b[0]] + b[1..];
    }
  }

  lemma {:induction false} BeforeIsTransitive(a: string, b: string, c: string)
    requires Before(a, b) && Before(b, c)
    ensures Before(a, c)
  {
    if a != "" && a[0] == b[0] && b[0] == c[0] { BeforeIsTransitive(a[1..], b[1..], c[1..]); }
  }

  lemma {:induction false} InsertMembers(x: string, xs: seq<string>, y: string)
    ensures y in Insert(x, xs) <==> y == x || y in xs
  {
    if xs != [] && !Before(x, xs[0]) {
      InsertMembers(x, xs[1..], y);
      assert xs == [xs[0]] + xs[1..];
    }
  }

  lemma {:induction false} SortedMembers(xs: seq<string>, y: string)
    ensures y in Sorted(xs) <==> y in xs
  {
    if xs != [] {
      SortedMembers(xs[1..], y);
      InsertMembers(xs[0], Sorted(xs[1..]), y);
      assert xs == [xs[0]] + xs[1..];
    }
  }

  ghost predicate IsSorted(xs: seq<string>) {
    forall i, j :: 0 <= i < j < |xs| ==> Before(xs[i], xs[j])
  }

  lemma {:induction false} InsertKeepsOrder(x: string, xs: seq<string>)
    requires IsSorted(xs)
    ensures IsSorted(Insert(x, xs))
  {
    if xs != [] && !Before(x, xs[0]) {
      BeforeIsTotal(x, xs[0]);
      InsertKeepsOrder(x, xs[1..]);
      forall y | y in Insert(x, xs[1..]) ensures Before(xs[0], y) {
        InsertMembers(x, xs[1..], y);
        assert xs == [xs[0]] + xs[1..];
      }
    } else if xs != [] {
      forall j | 0 <= j < |xs| ensures Before(x, xs[j]) {
        if j > 0 { BeforeIsTransitive(x, xs[0], xs[j]); }
      }
    }
  }

  /** Sorting puts the strings in order. */
  lemma {:induction false} SortedIsInOrder(xs: seq<string>)
    ensures IsSorted(Sorted(xs))
  {
    if xs != [] {
      SortedIsInOrder(xs[1..]);
      InsertKeepsOrder(xs[0], Sorted(xs[1..]));
    }
  }

  lemma {:induction false} InsertIsPermutation(x: string, xs: seq<string>)
    ensures multiset(Insert(x, xs)) == multiset{x} + multiset(xs)
  {
    if xs != [] && !Before(x, xs[0]) {
      InsertIsPermutation(x, xs[1..]);
      assert xs == [xs[0]] + xs[1..];
    }
  }

  lemma {:induction false} SortedIsPermutation(xs: seq<string>)
    ensures multiset(Sorted(xs)) == multiset(xs)
  {
    if xs != [] {
      SortedIsPermutation(xs[1..]);
      InsertIsPermutation(xs[0], Sorted(xs[1..]));
      assert xs == [xs[0]] + xs[1..];
    }
  }

  lemma {:induction false} DistinctStaysDistinct(xs: seq<string>)
    requires AreDistinct(xs)
    ensures AreDistinct(Sorted(xs))
  {
    SortedIsPermutation(xs);
    DistinctByMultiset(xs, Sorted(xs));
  }

  lemma DistinctByMultiset(xs: seq<string>, ys: seq<string>)
    requires AreDistinct(xs) && multiset(xs) == multiset(ys)
    ensures AreDistinct(ys)
  {
    forall i, j | 0 <= i < j < |ys| ensures ys[i] != ys[j] {
      if ys[i] == ys[j] {
        TwiceInMultiset(ys, i, j);
        OnceInMultiset(xs, ys[i]);
      }
    }
  }

  lemma TwiceInMultiset(ys: seq<string>, i: nat, j: nat)
    requires i < j < |ys| && ys[i] == ys[j]
    ensures multiset(ys)[ys[i]] >= 2
  {
    assert ys == ys[..i] + [ys[i]] + ys[i + 1..j] + [ys[j]] + ys[j + 1..];
  }

  lemma {:induction false} OnceInMultiset(xs: seq<string>, x: string)
    requires AreDistinct(xs)
    ensures multiset(xs)[x] <= 1
  {
    if xs != [] {
      assert xs == [xs[0]] + xs[1..];
      OnceInMultiset(xs[1..], x);
      if xs[0] == x { assert x !in xs[1..]; }
    }
  }

  lemma DistinctTail(a: seq<string>, x: string)
    requires a != [] && AreDistinct(a)
    ensures x in a[1..] <==> x in a && x != a[0]
  {
    assert a == [a[0]] + a[1..];
  }

  lemma SmallestFirst(a: seq<string>, x: string)
    requires IsSorted(a) && x in a
    ensures x == a[0] || Before(a[0], x)
  {
    var k :| 0 <= k < |a| && a[k] == x;
  }

  /** Two sorted lists of the same distinct strings are equal. */
  lemma {:induction false} SortedIsUnique(a: seq<string>, b: seq<string>)
    requires IsSorted(a) && IsSorted(b) && AreDistinct(a) && AreDistinct(b) && forall x :: x in a <==> x in b
    ensures a == b
    decreases |a|
  {
    if b != [] { assert b[0] in b; }
    if a != [] {
      assert a[0] in a;
      SmallestFirst(a, b[0]);
      SmallestFirst(b, a[0]);
      BeforeIsAntisymmetric(a[0], b[0]);
      forall x ensures x in a[1..] <==> x in b[1..] {
        DistinctTail(a, x);
        DistinctTail(b, x);
      }
      SortedIsUnique(a[1..], b[1..]);
      assert a == [a[0]] + a[1..] && b == [b[0]] + b[1..];
    }
  }
}
