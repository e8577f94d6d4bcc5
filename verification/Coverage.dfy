/** How many of the hottest rules carry a share of the blocks, and the hit table that is read from. */
module Coverage {
  import opened Ranking

  // ---------- sums ----------

  function Sum(s: seq<real>): real {
    if s == [] then 0.0 else Sum(s[..|s| - 1]) + s[|s| - 1]
  }

  ghost predicate NonNegative(s: seq<real>) {
    forall k :: 0 <= k < |s| ==> s[k] >= 0.0
  }

  ghost predicate Descending(s: seq<real>) {
    forall i, j :: 0 <= i <= j < |s| ==> s[i] >= s[j]
  }

  lemma SumStep(s: seq<real>, k: nat)
    requires k < |s|
    ensures Sum(s[..k + 1]) == Sum(s[..k]) + s[k]
  {
    assert s[..k + 1][..k] == s[..k];
  }

  lemma {:induction false} SumGrows(s: seq<real>, i: nat, j: nat)
    requires NonNegative(s) && i <= j <= |s|
    ensures Sum(s[..i]) <= Sum(s[..j])
    decreases j - i
  {
    if i < j {
      SumGrows(s, i, j - 1);
      SumStep(s, j - 1);
    }
  }

  method AddUp(s: seq<real>, n: nat) returns (sum: real)
    requires n <= |s|
    ensures sum == Sum(s[..n])
  {
    sum := 0.0;
    for k := 0 to n
      invariant sum == Sum(s[..k])
    {
      SumStep(s, k);
      sum := sum + s[k];
    }
  }

  // ---------- the smallest sufficient head ----------

  function Clamp(share: real): real {
    if share < 0.0 then 0.0 else if share > 1.0 then 1.0 else share
  }

  /** The first `n` rules carry the share. */
  ghost predicate Carries(counts: seq<real>, n: nat, share: real)
    requires n <= |counts|
  {
    Sum(counts[..n]) >= Clamp(share) * Sum(counts)
  }

  /** The least head that carries the share. */
  ghost predicate IsLeastHead(counts: seq<real>, share: real, n: nat) {
    n <= |counts| && Carries(counts, n, share) && forall m :: 0 <= m < n ==> !Carries(counts, m, share)
  }

  lemma QuotientReaches(part: real, total: real, target: real)
    requires total > 0.0
    ensures part / total >= target <==> part >= target * total
  {
    var q := part / total;
    assert part == q * total;
    if q >= target { assert q * total >= target * total; }
    if q < target { assert q * total < target * total; }
  }

  lemma WholeCarries(counts: seq<real>, share: real)
    requires Sum(counts) > 0.0
    ensures Carries(counts, |counts|, share)
  {
    assert counts[..|counts|] == counts;
    var total, target := Sum(counts), Clamp(share);
    assert target * total <= 1.0 * total;
  }

  lemma MoreCarries(counts: seq<real>, i: nat, j: nat, share: real)
    requires NonNegative(counts) && i <= j <= |counts| && Carries(counts, i, share)
    ensures Carries(counts, j, share)
  {
    SumGrows(counts, i, j);
  }

  lemma ShareReached(counts: seq<real>, n: nat, share: real, part: real, total: real)
    requires n <= |counts| && part == Sum(counts[..n]) && total == Sum(counts) && total > 0.0
    ensures part / total >= Clamp(share) <==> Carries(counts, n, share)
  {
    QuotientReaches(part, total, Clamp(share));
  }

  lemma FewerFail(counts: seq<real>, n: nat, share: real)
    requires NonNegative(counts) && n <= |counts| && !Carries(counts, n, share)
    ensures forall m :: 0 <= m <= n ==> !Carries(counts, m, share)
  {
    forall m | 0 <= m <= n ensures !Carries(counts, m, share) {
      if Carries(counts, m, share) { MoreCarries(counts, m, n, share); }
    }
  }

  method MinimumRulesForShare(counts: seq<real>, share: real) returns (n: nat)
    requires NonNegative(counts)
    ensures IsLeastHead(counts, share, n)
  {
    var total := AddUp(counts, |counts|);
    assert counts[..|counts|] == counts;
    if total <= 0.0 {
      NothingToCarry(counts, share);
      return 0;
    }
    var target := Clamp(share);
    if target <= 0.0 {
      ZeroShareIsCarried(counts, share);
      return 0;
    }
    WholeCarries(counts, share);
    ShareReached(counts, |counts|, share, total, total);
    // The early return for a whole list below the target is only for rounding: exactly, it cannot happen.
    if total / total < target { assert false; }
    n := SearchHead(counts, share, total, target);
  }

  /** Coverage is monotone in the number of rules taken. */
  method SearchHead(counts: seq<real>, share: real, total: real, target: real) returns (n: nat)
    requires NonNegative(counts) && total == Sum(counts) && total > 0.0 && target == Clamp(share) && target > 0.0
    requires Carries(counts, |counts|, share)
    ensures IsLeastHead(counts, share, n)
  {
    NoneCarriesNothing(counts, share);
    var low, high := 1, |counts|;
    while low < high
      invariant 1 <= low <= high <= |counts|
      invariant Carries(counts, high, share)
      invariant forall m :: 0 <= m < low ==> !Carries(counts, m, share)
    {
      var mid := (low + high) / 2;
      var part := AddUp(counts, mid);
      ShareReached(counts, mid, share, part, total);
      if part / total >= target {
        high := mid;
      } else {
        FewerFail(counts, mid, share);
        low := mid + 1;
      }
    }
    n := low;
  }

  lemma ZeroShareIsCarried(counts: seq<real>, share: real)
    requires Clamp(share) <= 0.0
    ensures Carries(counts, 0, share)
  {
    assert Clamp(share) * Sum(counts) == 0.0;
  }

  lemma NothingToCarry(counts: seq<real>, share: real)
    requires NonNegative(counts) && Sum(counts) <= 0.0
    ensures Carries(counts, 0, share)
  {
    assert counts[..|counts|] == counts;
    SumGrows(counts, 0, |counts|);
    assert Clamp(share) * Sum(counts) == 0.0;
  }

  lemma NoneCarriesNothing(counts: seq<real>, share: real)
    requires Sum(counts) > 0.0 && Clamp(share) > 0.0
    ensures |counts| >= 1 && !Carries(counts, 0, share)
  {
    assert Clamp(share) * Sum(counts) > 0.0;
  }

  /** A larger share never needs fewer rules. */
  lemma LeastHeadIsMonotone(counts: seq<real>, less: real, more: real, m: nat, n: nat)
    requires NonNegative(counts) && less <= more && IsLeastHead(counts, less, m) && IsLeastHead(counts, more, n)
    ensures m <= n
  {
    assert counts[..|counts|] == counts;
    SumGrows(counts, 0, |counts|);
    assert Clamp(less) * Sum(counts) <= Clamp(more) * Sum(counts);
    assert Carries(counts, n, less);
  }

  // ---------- no smaller set, chosen in any way ----------

  ghost function SumOver(chosen: set<nat>, counts: seq<real>): real
    requires forall k :: k in chosen ==> k < |counts|
  {
    if chosen == {} then 0.0
    else
      var k :| k in chosen;
      counts[k] + SumOver(chosen - {k}, counts)
  }

  lemma {:induction false} SumOverTake(chosen: set<nat>, counts: seq<real>, k: nat)
    requires k in chosen && forall j :: j in chosen ==> j < |counts|
    ensures SumOver(chosen, counts) == counts[k] + SumOver(chosen - {k}, counts)
    decreases |chosen|
  {
    var c :| c in chosen && SumOver(chosen, counts) == counts[c] + SumOver(chosen - {c}, counts);
    if c != k {
      SumOverTake(chosen - {c}, counts, k);
      SumOverTake(chosen - {k}, counts, c);
      assert chosen - {c} - {k} == chosen - {k} - {c};
    }
  }

  lemma {:induction false} LargestIndex(chosen: set<nat>, bound: nat) returns (m: nat)
    requires chosen != {} && forall k :: k in chosen ==> k < bound
    ensures m in chosen && |chosen| <= m + 1 && forall k :: k in chosen ==> k <= m
    decreases bound
  {
    if bound - 1 in chosen {
      m := bound - 1;
      AtMost(chosen, bound);
    } else {
      m := LargestIndex(chosen, bound - 1);
    }
  }

  lemma {:induction false} AtMost(chosen: set<nat>, bound: nat)
    requires forall k :: k in chosen ==> k < bound
    ensures |chosen| <= bound
    decreases bound
  {
    if bound == 0 {
      assert chosen == {};
    } else {
      AtMost(chosen - {bound - 1}, bound - 1);
    }
  }

  /** No choice of as many rules carries more than the head. */
  lemma {:induction false} HeadIsHeaviest(chosen: set<nat>, counts: seq<real>)
    requires Descending(counts) && forall k :: k in chosen ==> k < |counts|
    ensures |chosen| <= |counts| && SumOver(chosen, counts) <= Sum(counts[..|chosen|])
    decreases |chosen|
  {
    AtMost(chosen, |counts|);
    if chosen != {} {
      var m := LargestIndex(chosen, |counts|);
      SumOverTake(chosen, counts, m);
      HeadIsHeaviest(chosen - {m}, counts);
      assert |chosen - {m}| == |chosen| - 1;
      SumStep(counts, |chosen| - 1);
      assert counts[|chosen| - 1] >= counts[m];
    }
  }

  lemma FewerIsBelow(counts: seq<real>, share: real, n: nat, m: nat, bar: real)
    requires IsLeastHead(counts, share, n) && m < n && bar == Clamp(share) * Sum(counts)
    ensures Sum(counts[..m]) < bar
  {
    assert !Carries(counts, m, share);
  }

  /** With the counts sorted largest first, no set of fewer rules, chosen in any way, carries the share. */
  lemma NoSmallerSetCarries(counts: seq<real>, share: real, n: nat, chosen: set<nat>, bar: real)
    requires Descending(counts) && IsLeastHead(counts, share, n) && bar == Clamp(share) * Sum(counts)
    requires (forall k :: k in chosen ==> k < |counts|) && |chosen| < n
    ensures SumOver(chosen, counts) < bar
  {
    FewerIsBelow(counts, share, n, |chosen|, bar);
    HeadIsHeaviest(chosen, counts);
  }

  // ---------- the hit table ----------

  datatype Hit = Hit(rule: string, count: Count)

  type Tally = Ranked<()>

  /** A count as it is tallied: whole, never negative, 0 when it is not a number. */
  function Whole(c: Count): nat {
    match c
    case Finite(value) => if value < 0.0 then 0 else value.Floor
    case NotFinite => 0
  }

  /** The hits of one rule, added up. */
  function HitsOn(hits: seq<Hit>, rule: string): nat {
    if hits == [] then 0
    else HitsOn(hits[..|hits| - 1], rule) + if hits[|hits| - 1].rule == rule then Whole(hits[|hits| - 1].count) else 0
  }

  /** The table of the hits: one line for each rule that was hit, largest first. */
  ghost predicate IsTableOf(ts: seq<Tally>, hits: seq<Hit>) {
    InOrder(ts) && forall t :: t in ts <==> t.count > 0 && t.count == HitsOn(hits, t.rule)
  }

  method Merge(hits: seq<Hit>) returns (merged: map<string, nat>)
    ensures forall rule :: rule in merged <==> HitsOn(hits, rule) > 0
    ensures forall rule :: rule in merged ==> merged[rule] == HitsOn(hits, rule)
  {
    merged := map[];
    for k := 0 to |hits|
      invariant forall rule :: rule in merged <==> HitsOn(hits[..k], rule) > 0
      invariant forall rule :: rule in merged ==> merged[rule] == HitsOn(hits[..k], rule)
    {
      HitsStep(hits, k);
      var count := Whole(hits[k].count);
      if count == 0 { continue; }
      var rule := hits[k].rule;
      merged := merged[rule := (if rule in merged then merged[rule] else 0) + count];
    }
    assert hits[..|hits|] == hits;
  }

  lemma HitsStep(hits: seq<Hit>, k: nat)
    requires k < |hits|
    ensures forall rule :: HitsOn(hits[..k + 1], rule) ==
                           HitsOn(hits[..k], rule) + if hits[k].rule == rule then Whole(hits[k].count) else 0
  {
    assert hits[..k + 1][..k] == hits[..k] && hits[..k + 1][k] == hits[k];
  }

  method NormalizeHits(hits: seq<Hit>) returns (ts: seq<Tally>)
    ensures IsTableOf(ts, hits)
  {
    var merged := Merge(hits);
    ts := [];
    var left := merged.Keys;
    while left != {}
      invariant left <= merged.Keys && InOrder(ts)
      invariant forall t :: t in ts <==> t.rule in merged && t.rule !in left && t.count == merged[t.rule]
    {
      var rule :| rule in left;
      var t := Ranked(rule, merged[rule], ());
      forall other: Tally ensures other == Ranked(other.rule, other.count, ()) { assert other.more == (); }
      var at := Place(ts, t);
      assert ts == ts[..at] + ts[at..];
      ts := ts[..at] + [t] + ts[at..];
      left := left - {rule};
    }
  }

  /** Reordering the hits leaves the table as it is. */
  lemma HitOrderIsIrrelevant(x: seq<Hit>, y: seq<Hit>, a: seq<Tally>, b: seq<Tally>)
    requires (forall rule :: HitsOn(x, rule) == HitsOn(y, rule)) && IsTableOf(a, x) && IsTableOf(b, y)
    ensures a == b
  {
    TableIsUnique(a, b);
  }
}
