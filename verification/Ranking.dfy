/** Tables ranked by count: larger counts first, then by text. */
module Ranking {
  import opened Sorting

  /** A count as it is reported: a number, or NaN or an infinity. */
  datatype Count = Finite(value: real) | NotFinite

  /** One line of a table, with whatever else it carries. */
  datatype Ranked<T> = Ranked(rule: string, count: nat, more: T)

  /** Larger counts first, then by rule text. */
  predicate Precedes<T>(a: Ranked<T>, b: Ranked<T>) {
    a.count > b.count || (a.count == b.count && Before(a.rule, b.rule))
  }

  lemma PrecedesIsTransitive<T>(a: Ranked<T>, b: Ranked<T>, c: Ranked<T>)
    requires Precedes(a, b) && Precedes(b, c)
    ensures Precedes(a, c)
  {
    if a.count == b.count == c.count { BeforeIsTransitive(a.rule, b.rule, c.rule); }
  }

  ghost predicate InOrder<T>(ts: seq<Ranked<T>>) {
    forall i, j :: 0 <= i < j < |ts| ==> Precedes(ts[i], ts[j]) && ts[i].rule != ts[j].rule
  }

  /** The place of a new line in a table. */
  method Place<T>(ts: seq<Ranked<T>>, t: Ranked<T>) returns (at: nat)
    requires InOrder(ts) && forall k :: 0 <= k < |ts| ==> ts[k].rule != t.rule
    ensures at <= |ts| && InOrder(ts[..at] + [t] + ts[at..])
  {
    at := 0;
    while at < |ts| && Precedes(ts[at], t)
      invariant at <= |ts| && forall k :: 0 <= k < at ==> Precedes(ts[k], t)
    {
      at := at + 1;
    }
    forall k | at <= k < |ts| ensures Precedes(t, ts[k]) {
      BeforeIsTotal(ts[at].rule, t.rule);
      if at < k { PrecedesIsTransitive(t, ts[at], ts[k]); }
    }
    InsertedInOrder(ts, t, at);
  }

  lemma InsertedInOrder<T>(ts: seq<Ranked<T>>, t: Ranked<T>, at: nat)
    requires at <= |ts| && InOrder(ts) && forall k :: 0 <= k < |ts| ==> ts[k].rule != t.rule
    requires forall k :: 0 <= k < at ==> Precedes(ts[k], t)
    requires forall k :: at <= k < |ts| ==> Precedes(t, ts[k])
    ensures InOrder(ts[..at] + [t] + ts[at..])
  {
    var r := ts[..at] + [t] + ts[at..];
    forall i, j | 0 <= i < j < |r| ensures Precedes(r[i], r[j]) && r[i].rule != r[j].rule {
      assert i < at ==> r[i] == ts[i];
      assert i > at ==> r[i] == ts[i - 1];
      assert j < at ==> r[j] == ts[j];
      assert j > at ==> r[j] == ts[j - 1];
    }
  }

  /** A ranked table is determined by its lines: two tables with the same lines are equal. */
  lemma {:induction false} TableIsUnique<T>(a: seq<Ranked<T>>, b: seq<Ranked<T>>)
    requires InOrder(a) && InOrder(b) && forall t :: t in a <==> t in b
    ensures a == b
    decreases |a|
  {
    if b != [] { assert b[0] in b; }
    if a != [] {
      assert a[0] in a;
      FirstsAgree(a, b);
      assert a == [a[0]] + a[1..] && b == [b[0]] + b[1..];
      forall t ensures t in a[1..] <==> t in b[1..] {
        TailMembers(a, t);
        TailMembers(b, t);
      }
      TableIsUnique(a[1..], b[1..]);
    }
  }

  lemma TailMembers<T>(a: seq<Ranked<T>>, t: Ranked<T>)
    requires a != [] && InOrder(a)
    ensures t in a[1..] <==> t in a && t != a[0]
  {
    assert a == [a[0]] + a[1..];
  }

  lemma FirstsAgree<T>(a: seq<Ranked<T>>, b: seq<Ranked<T>>)
    requires a != [] && b != [] && InOrder(a) && InOrder(b) && forall t :: t in a <==> t in b
    ensures a[0] == b[0]
  {
    assert a[0] in b && b[0] in a;
    var i :| 0 <= i < |b| && b[i] == a[0];
    var j :| 0 <= j < |a| && a[j] == b[0];
    BeforeIsAntisymmetric(a[0].rule, b[0].rule);
  }
}
