/** What the two sets of ranking metrics agree on, and where they part. */
module MetricsTheorems {
  import opened Sums
  import opened Metrics

  // ---------- the ranking ----------

  /** The rows with one score, in order. */
  function Tied(rows: seq<Row>, t: real): seq<Row> {
    if rows == [] then []
    else Tied(rows[..|rows| - 1], t) + if rows[|rows| - 1].score == t then [rows[|rows| - 1]] else []
  }

  lemma TiedAppend(rows: seq<Row>, r: Row, t: real)
    ensures Tied(rows + [r], t) == Tied(rows, t) + if r.score == t then [r] else []
  {
    assert (rows + [r])[..|rows|] == rows;
  }

  lemma {:induction false} TiedNeedsScore(rows: seq<Row>, t: real)
    ensures Tied(rows, t) == [] <==> !HasScore(rows, t)
  {
    if rows != [] {
      var front, last := rows[..|rows| - 1], rows[|rows| - 1];
      TiedNeedsScore(front, t);
      assert rows == front + [last];
      if HasScore(front, t) {
        var k :| 0 <= k < |front| && front[k].score == t;
        assert rows[k].score == t;
      }
      if last.score == t { assert rows[|rows| - 1].score == t; }
    }
  }

  lemma {:induction false} InsertKeepsTies(ranked: seq<Row>, r: Row, t: real)
    requires IsFalling(ranked)
    ensures Tied(Insert(ranked, r), t) == Tied(ranked + [r], t)
  {
    TiedAppend(ranked, r, t);
    if ranked != [] && ranked[|ranked| - 1].score < r.score {
      var front, last := ranked[..|ranked| - 1], ranked[|ranked| - 1];
      InsertKeepsTies(front, r, t);
      TiedAppend(front, r, t);
      TiedAppend(Insert(front, r), last, t);
    }
  }

  lemma {:induction false} RankedKeepsTies(rows: seq<Row>, t: real)
    ensures Tied(Ranked(rows), t) == Tied(rows, t)
  {
    if rows != [] {
      var front, last := rows[..|rows| - 1], rows[|rows| - 1];
      RankedKeepsTies(front, t);
      RankedFalls(front);
      InsertKeepsTies(Ranked(front), last, t);
      TiedAppend(Ranked(front), last, t);
    }
  }

  lemma LastIsLowest(rows: seq<Row>, t: real)
    requires rows != [] && IsFalling(rows) && HasScore(rows, t)
    ensures rows[|rows| - 1].score <= t
  {
  }

  lemma LastOfTies(rows: seq<Row>)
    requires rows != []
    ensures var t := rows[|rows| - 1].score;
      Tied(rows, t) != [] && Tied(rows, t)[|Tied(rows, t)| - 1] == rows[|rows| - 1] && HasScore(rows, t)
  {
    assert rows[|rows| - 1].score == rows[|rows| - 1].score;
  }

  lemma SameLast(a: seq<Row>, b: seq<Row>)
    requires IsFalling(a) && IsFalling(b) && a != [] && b != [] && forall t :: Tied(a, t) == Tied(b, t)
    ensures a[|a| - 1] == b[|b| - 1]
  {
    LastOfTies(a);
    LastOfTies(b);
    TiedNeedsScore(a, b[|b| - 1].score);
    TiedNeedsScore(b, a[|a| - 1].score);
    LastIsLowest(a, b[|b| - 1].score);
    LastIsLowest(b, a[|a| - 1].score);
  }

  lemma SameFront(a: seq<Row>, b: seq<Row>, t: real)
    requires a != [] && b != [] && a[|a| - 1] == b[|b| - 1] && Tied(a, t) == Tied(b, t)
    ensures Tied(a[..|a| - 1], t) == Tied(b[..|b| - 1], t)
  {
    var x, y := Tied(a[..|a| - 1], t), Tied(b[..|b| - 1], t);
    if a[|a| - 1].score == t {
      assert x == (x + [a[|a| - 1]])[..|x|] && y == (y + [a[|a| - 1]])[..|y|];
    } else {
      assert x + [] == x && y + [] == y;
    }
  }

  lemma SameEmptiness(a: seq<Row>, b: seq<Row>)
    requires forall t :: Tied(a, t) == Tied(b, t)
    ensures a == [] <==> b == []
  {
    if a != [] { LastOfTies(a); }
    if b != [] { LastOfTies(b); }
  }

  /** There is one falling order that keeps the rows of each score in order: the stable sort of `numpy` over
      the negated scores and Python's reversed stable sort both return it. */
  lemma {:induction false} StableOrderIsUnique(a: seq<Row>, b: seq<Row>)
    requires IsFalling(a) && IsFalling(b) && forall t :: Tied(a, t) == Tied(b, t)
    ensures a == b
  {
    SameEmptiness(a, b);
    if a != [] {
      SameLast(a, b);
      var x, y := a[..|a| - 1], b[..|b| - 1];
      forall t ensures Tied(x, t) == Tied(y, t) { SameFront(a, b, t); }
      StableOrderIsUnique(x, y);
    }
  }

  lemma AnyStableSortRanks(rows: seq<Row>, out: seq<Row>)
    requires IsFalling(out) && forall t :: Tied(out, t) == Tied(rows, t)
    ensures out == Ranked(rows)
  {
    RankedFalls(rows);
    forall t ensures Tied(Ranked(rows), t) == Tied(out, t) { RankedKeepsTies(rows, t); }
    StableOrderIsUnique(Ranked(rows), out);
  }

  // ---------- average precision ----------

  lemma PrecisionBound(rows: seq<Row>, k: nat)
    requires 1 <= k <= |rows|
    ensures 0.0 <= PrecisionAt(rows, k) <= 1.0
    ensures PrecisionAt(rows, k) == 1.0 <==> Positives(rows[..k]) == k
  {
    PositivesBound(rows[..k]);
    Quotient(Positives(rows[..k]) as real, k as real);
  }

  lemma Quotient(a: real, p: real)
    requires p > 0.0 && 0.0 <= a <= p
    ensures 0.0 <= a / p <= 1.0 && (a / p == 1.0 <==> a == p)
  {
  }

  /** No positive comes after a negative. */
  predicate IsPerfect(ranked: seq<Row>, n: nat)
    requires n <= |ranked|
  {
    forall i, j :: 0 <= i < j < n && ranked[j].tracker ==> ranked[i].tracker
  }

  lemma {:induction false} AllPositive(rows: seq<Row>, n: nat)
    requires n <= |rows|
    ensures Positives(rows[..n]) == n <==> forall i :: 0 <= i < n ==> rows[i].tracker
  {
    if n > 0 {
      AllPositive(rows, n - 1);
      OneMorePositive(rows, n - 1);
      PositivesBound(rows[..n - 1]);
    }
  }

  lemma {:induction false} SumBound(rows: seq<Row>, n: nat)
    requires n <= |rows|
    ensures 0.0 <= SumAtPositives(rows, n) <= Positives(rows[..n]) as real
    ensures SumAtPositives(rows, n) == Positives(rows[..n]) as real <==> IsPerfect(rows, n)
  {
    if n > 0 {
      SumBound(rows, n - 1);
      OneMorePositive(rows, n - 1);
      PrecisionBound(rows, n);
      AllPositive(rows, n);
    }
  }

  /** Average precision lies between zero and one, and is one exactly when every positive outranks every
      negative. */
  lemma AveragePrecisionBound(rows: seq<Row>)
    requires Positives(rows) > 0
    ensures 0.0 <= MeanPrecision(rows) <= 1.0
    ensures MeanPrecision(rows) == 1.0 <==> IsPerfect(Ranked(rows), |rows|)
  {
    var y := Ranked(rows);
    SumBound(y, |y|);
    assert y[..|y|] == y;
    RankedPositives(rows);
    Quotient(SumAtPositives(y, |y|), Positives(rows) as real);
  }

  // ---------- precision at recall ----------

  lemma {:induction false} AllAbove(rows: seq<Row>, t: real)
    requires forall k :: 0 <= k < |rows| ==> rows[k].score >= t
    ensures Above(rows, t) == |rows| && Truths(rows, t) == Positives(rows)
  {
    if rows != [] { AllAbove(rows[..|rows| - 1], t); }
  }

  /** A threshold takes a head of the ranking. */
  lemma {:induction false} ThresholdIsHead(ranked: seq<Row>, t: real)
    requires IsFalling(ranked)
    ensures Above(ranked, t) <= |ranked| && Positives(ranked[..Above(ranked, t)]) == Truths(ranked, t)
    ensures forall k :: 0 <= k < |ranked| ==> (ranked[k].score >= t <==> k < Above(ranked, t))
  {
    if ranked != [] {
      var front, last := ranked[..|ranked| - 1], ranked[|ranked| - 1];
      if last.score >= t {
        AllAbove(ranked, t);
        assert ranked[..|ranked|] == ranked;
      } else {
        ThresholdIsHead(front, t);
        assert front[..Above(front, t)] == ranked[..Above(front, t)];
      }
    }
  }

  lemma RankedCounts(rows: seq<Row>, t: real)
    ensures Above(Ranked(rows), t) == Above(rows, t) && Truths(Ranked(rows), t) == Truths(rows, t)
    ensures HasScore(Ranked(rows), t) <==> HasScore(rows, t)
  {
    RankedFalls(rows);
    PermutedCounts(Ranked(rows), rows, t);
    RankedKeepsTies(rows, t);
    TiedNeedsScore(rows, t);
    TiedNeedsScore(Ranked(rows), t);
  }

  lemma PermutedCounts(a: seq<Row>, b: seq<Row>, t: real)
    requires multiset(a) == multiset(b)
    ensures Above(a, t) == Above(b, t) && Truths(a, t) == Truths(b, t)
  {
    SumByPermutation(a, b, (r: Row) => if r.score >= t then 1 else 0);
    SumByPermutation(a, b, (r: Row) => if r.tracker && r.score >= t then 1 else 0);
  }

  /** What a threshold offers, a head offers with the same precision. */
  lemma ThresholdOffersHead(rows: seq<Row>, t: real, target: real)
    requires OffersThreshold(rows, t, target)
    ensures 1 <= Above(rows, t) <= |rows|
    ensures OffersHead(Ranked(rows), Above(rows, t), target)
    ensures PrecisionAt(Ranked(rows), Above(rows, t)) == ThresholdPrecision(rows, t)
  {
    RankedFalls(rows);
    RankedCounts(rows, t);
    RankedPositives(rows);
    var y := Ranked(rows);
    ThresholdIsHead(y, t);
    var k :| 0 <= k < |y| && y[k].score == t;
    assert k < Above(y, t);
  }

  /** The gate never reports more than the training report. */
  lemma GateNeverExceeds(rows: seq<Row>, target: real, gate: real, report: real)
    requires IsBestThreshold(gate, rows, target) && IsBestHead(report, Ranked(rows), target)
    ensures gate <= report
  {
    if gate != 0.0 {
      var t :| OffersThreshold(rows, t, target) && gate == ThresholdPrecision(rows, t);
      ThresholdOffersHead(rows, t, target);
    }
  }

  /** Rows with the same score have the same label. */
  ghost predicate TiesAreUnmixed(rows: seq<Row>) {
    forall i, j :: 0 <= i < |rows| && 0 <= j < |rows| && rows[i].score == rows[j].score ==>
                     rows[i].tracker == rows[j].tracker
  }

  lemma UnmixedRanked(rows: seq<Row>)
    requires TiesAreUnmixed(rows)
    ensures TiesAreUnmixed(Ranked(rows))
  {
    RankedFalls(rows);
    var y := Ranked(rows);
    forall i, j | 0 <= i < |y| && 0 <= j < |y| && y[i].score == y[j].score ensures y[i].tracker == y[j].tracker {
      assert y[i] in multiset(y) && y[j] in multiset(y);
      assert y[i] in multiset(rows) && y[j] in multiset(rows);
    }
  }

  /** Positives of a stretch of one label. */
  lemma {:induction false} Stretch(ranked: seq<Row>, b: nat, k: nat, tracker: bool)
    requires b <= k <= |ranked| && forall j :: b <= j < k ==> ranked[j].tracker == tracker
    ensures Positives(ranked[..k]) == Positives(ranked[..b]) + if tracker then k - b else 0
    decreases k
  {
    if b < k {
      Stretch(ranked, b, k - 1, tracker);
      OneMorePositive(ranked, k - 1);
    }
  }

  /** Where the ties of the row before `k` begin, or end. */
  lemma TieEnds(ranked: seq<Row>, k: nat) returns (b: nat, m: nat)
    requires IsFalling(ranked) && 1 <= k <= |ranked|
    ensures b < k <= m <= |ranked|
    ensures forall j :: b <= j < m ==> ranked[j].score == ranked[k - 1].score
    ensures m == Above(ranked, ranked[k - 1].score)
    ensures b > 0 ==> b == Above(ranked, ranked[b - 1].score)
  {
    var t := ranked[k - 1].score;
    ThresholdIsHead(ranked, t);
    m := Above(ranked, t);
    b := k - 1;
    while b > 0 && ranked[b - 1].score == t
      invariant b < k && forall j :: b <= j < k ==> ranked[j].score == t
    {
      b := b - 1;
    }
    if b > 0 {
      ThresholdIsHead(ranked, ranked[b - 1].score);
    }
  }

  lemma MorePositives(p: nat, k: nat, more: nat)
    requires p <= k && k > 0
    ensures p as real / k as real <= (p + more) as real / (k + more) as real
  {
    var a, b, c := p as real, k as real, more as real;
    assert a * (b + c) <= (a + c) * b by { assert a * c <= b * c; }
    Cross(a, b, a + c, b + c);
  }

  lemma FewerRows(p: nat, b: nat, k: nat)
    requires 0 < b <= k
    ensures p as real / k as real <= p as real / b as real
  {
    assert p as real * b as real <= p as real * k as real;
    Cross(p as real, k as real, p as real, b as real);
  }

  lemma Cross(a: real, b: real, c: real, d: real)
    requires b > 0.0 && d > 0.0 && a * d <= c * b
    ensures a / b <= c / d
  {
    var x, y := a / b, c / d;
    assert x * b == a && y * d == c;
    assert x * (b * d) == (x * b) * d && y * (b * d) == (y * d) * b;
    Compare(x, y, b * d);
  }

  lemma Compare(x: real, y: real, z: real)
    requires z > 0.0 && x * z <= y * z
    ensures x <= y
  {
  }

  lemma ReachesMore(p: nat, q: nat, total: nat, target: real)
    requires Reaches(p, total, target) && p <= q
    ensures Reaches(q, total, target)
  {
    if total > 0 { Cross(p as real, total as real, q as real, total as real); }
  }

  /** When ties are not mixed, what a head offers some threshold offers at least as well. */
  lemma HeadOffersThreshold(ranked: seq<Row>, k: nat, target: real) returns (t: real)
    requires IsFalling(ranked) && TiesAreUnmixed(ranked) && OffersHead(ranked, k, target)
    ensures PrecisionAt(ranked, k) == 0.0 ||
            (OffersThreshold(ranked, t, target) && PrecisionAt(ranked, k) <= ThresholdPrecision(ranked, t))
  {
    var b, m := TieEnds(ranked, k);
    var tracker := ranked[k - 1].tracker;
    assert forall j :: b <= j < m ==> ranked[j].tracker == tracker;
    Stretch(ranked, b, k, tracker);
    if tracker {
      t := ranked[k - 1].score;
      Stretch(ranked, k, m, tracker);
      ThresholdIsHead(ranked, t);
      ReachesMore(Positives(ranked[..k]), Positives(ranked[..m]), Positives(ranked), target);
      PositivesBound(ranked[..k]);
      MorePositives(Positives(ranked[..k]), k, m - k);
    } else if b == 0 {
      t := 0.0;
      assert ranked[..0] == [];
    } else {
      t := ranked[b - 1].score;
      ThresholdIsHead(ranked, t);
      FewerRows(Positives(ranked[..b]), b, k);
    }
  }

  lemma SameOffer(rows: seq<Row>, t: real, target: real)
    ensures OffersThreshold(Ranked(rows), t, target) <==> OffersThreshold(rows, t, target)
    ensures ThresholdPrecision(Ranked(rows), t) == ThresholdPrecision(rows, t)
  {
    RankedCounts(rows, t);
    RankedPositives(rows);
  }

  lemma RankedHead(rows: seq<Row>, k: nat, target: real) returns (t: real)
    requires TiesAreUnmixed(rows) && OffersHead(Ranked(rows), k, target)
    ensures PrecisionAt(Ranked(rows), k) == 0.0 ||
            (OffersThreshold(rows, t, target) && PrecisionAt(Ranked(rows), k) <= ThresholdPrecision(rows, t))
  {
    RankedFalls(rows);
    UnmixedRanked(rows);
    t := HeadOffersThreshold(Ranked(rows), k, target);
    SameOffer(rows, t, target);
  }

  /** When no tie mixes labels, distinct scores above all, the gate and the report agree. */
  lemma UnmixedTiesAgree(rows: seq<Row>, target: real, gate: real, report: real)
    requires IsBestThreshold(gate, rows, target) && IsBestHead(report, Ranked(rows), target)
    requires TiesAreUnmixed(rows)
    ensures gate == report
  {
    GateNeverExceeds(rows, target, gate, report);
    if report != 0.0 {
      var k :| OffersHead(Ranked(rows), k, target) && report == PrecisionAt(Ranked(rows), k);
      var t := RankedHead(rows, k, target);
    }
  }

  ghost predicate HasOnlyPositive(rows: seq<Row>, p: nat) {
    p < |rows| && forall k :: 0 <= k < |rows| ==> (rows[k].tracker <==> k == p)
  }

  lemma OnlyPositive(rows: seq<Row>, p: nat, k: nat)
    requires HasOnlyPositive(rows, p) && k <= |rows|
    ensures Positives(rows[..k]) == if p < k then 1 else 0
  {
    assert rows[..0] == [];
    if k <= p {
      Stretch(rows, 0, k, false);
    } else {
      Stretch(rows, 0, p, false);
      OneMorePositive(rows, p);
      Stretch(rows, p + 1, k, false);
    }
  }

  lemma ReportAlone(rows: seq<Row>, p: nat, target: real, report: real)
    requires HasOnlyPositive(rows, p) && target <= 1.0 && IsBestHead(report, rows, target)
    ensures report >= 1.0 / (p + 1) as real
  {
    OnlyPositive(rows, p, p + 1);
    OnlyPositive(rows, p, |rows|);
    assert rows[..|rows|] == rows;
    assert OffersHead(rows, p + 1, target);
  }

  lemma GateWithTie(rows: seq<Row>, p: nat, target: real, t: real)
    requires HasOnlyPositive(rows, p) && IsFalling(rows) && p + 1 < |rows| && rows[p].score == rows[p + 1].score
    requires target > 0.0 && OffersThreshold(rows, t, target)
    ensures ThresholdPrecision(rows, t) <= 1.0 / (p + 2) as real
  {
    ThresholdIsHead(rows, t);
    var m := Above(rows, t);
    OnlyPositive(rows, p, m);
    assert p < m;
    assert p + 1 < m;
    FewerRows(1, p + 2, m);
  }

  /** One positive ranked just before a negative with its score: for any target above zero and up to one, the
      report counts the positive alone and the gate counts the tie, so the gate reports less. */
  lemma MixedTieParts(rows: seq<Row>, p: nat, target: real, gate: real, report: real)
    requires IsBestThreshold(gate, rows, target) && IsBestHead(report, Ranked(rows), target)
    requires IsFalling(rows) && p + 1 < |rows| && rows[p].score == rows[p + 1].score && 0.0 < target <= 1.0
    requires HasOnlyPositive(rows, p)
    ensures gate < report
  {
    AnyStableSortRanks(rows, rows);
    ReportAlone(rows, p, target, report);
    GateBound(rows, p, target, gate);
    Parted(p, gate, report);
  }

  lemma GateBound(rows: seq<Row>, p: nat, target: real, gate: real)
    requires HasOnlyPositive(rows, p) && IsFalling(rows) && p + 1 < |rows| && rows[p].score == rows[p + 1].score
    requires target > 0.0 && IsBestThreshold(gate, rows, target)
    ensures gate == 0.0 || gate <= 1.0 / (p + 2) as real
  {
    if gate != 0.0 {
      var t :| OffersThreshold(rows, t, target) && gate == ThresholdPrecision(rows, t);
      GateWithTie(rows, p, target, t);
    }
  }

  lemma Parted(p: nat, gate: real, report: real)
    requires report >= 1.0 / (p + 1) as real && (gate == 0.0 || gate <= 1.0 / (p + 2) as real)
    ensures gate < report
  {
    SmallerShare(p + 1);
  }

  lemma SmallerShare(n: nat)
    requires n > 0
    ensures 0.0 < 1.0 / (n + 1) as real < 1.0 / n as real
  {
    var a, b := 1.0 / n as real, 1.0 / (n + 1) as real;
    assert a * n as real == 1.0 && b * (n + 1) as real == 1.0;
  }

  // ---------- exactly when the two agree ----------

  function HeadBest(ranked: seq<Row>, n: nat, target: real): real
    requires n <= |ranked|
  {
    if n == 0 then 0.0
    else
      var best := HeadBest(ranked, n - 1, target);
      if OffersHead(ranked, n, target) && PrecisionAt(ranked, n) > best then PrecisionAt(ranked, n) else best
  }

  lemma {:induction false} HeadBestIs(ranked: seq<Row>, n: nat, target: real)
    requires n <= |ranked|
    ensures HeadBest(ranked, n, target) >= 0.0
    ensures forall k: nat :: k <= n && OffersHead(ranked, k, target) ==>
              PrecisionAt(ranked, k) <= HeadBest(ranked, n, target)
    ensures HeadBest(ranked, n, target) == 0.0 ||
            exists k :: OffersHead(ranked, k, target) && HeadBest(ranked, n, target) == PrecisionAt(ranked, k)
  {
    if n > 0 { HeadBestIs(ranked, n - 1, target); }
  }

  ghost function ThresholdBest(rows: seq<Row>, n: nat, target: real): real
    requires n <= |rows|
  {
    if n == 0 then 0.0
    else
      var best, t := ThresholdBest(rows, n - 1, target), rows[n - 1].score;
      if OffersThreshold(rows, t, target) && ThresholdPrecision(rows, t) > best
      then ThresholdPrecision(rows, t)
      else best
  }

  lemma {:induction false} ThresholdBestIs(rows: seq<Row>, n: nat, target: real)
    requires n <= |rows|
    ensures ThresholdBest(rows, n, target) >= 0.0
    ensures forall k :: 0 <= k < n && OffersThreshold(rows, rows[k].score, target) ==>
              ThresholdPrecision(rows, rows[k].score) <= ThresholdBest(rows, n, target)
    ensures ThresholdBest(rows, n, target) == 0.0 ||
            exists t ::
              OffersThreshold(rows, t, target) && ThresholdBest(rows, n, target) == ThresholdPrecision(rows, t)
  {
    if n > 0 { ThresholdBestIs(rows, n - 1, target); }
  }

  lemma BestsExist(rows: seq<Row>, target: real) returns (gate: real, report: real)
    ensures IsBestThreshold(gate, rows, target) && IsBestHead(report, Ranked(rows), target)
  {
    ThresholdBestIs(rows, |rows|, target);
    HeadBestIs(Ranked(rows), |rows|, target);
    gate, report := ThresholdBest(rows, |rows|, target), HeadBest(Ranked(rows), |rows|, target);
    forall t | OffersThreshold(rows, t, target) ensures ThresholdPrecision(rows, t) <= gate {
      var k :| 0 <= k < |rows| && rows[k].score == t;
    }
  }

  /** Whatever the labels, the two report the same. */
  ghost predicate AlwaysAgree(scores: seq<real>) {
    forall rows, target, gate, report ::
      HasScores(rows, scores) && IsBestThreshold(gate, rows, target) && IsBestHead(report, Ranked(rows), target) ==>
        gate == report
  }

  ghost predicate HasScores(rows: seq<Row>, scores: seq<real>) {
    |rows| == |scores| && forall k :: 0 <= k < |rows| ==> rows[k].score == scores[k]
  }

  function OnePositive(scores: seq<real>, p: nat): (rows: seq<Row>)
    ensures |rows| == |scores| && forall k :: 0 <= k < |rows| ==> rows[k] == Row(k == p, scores[k])
  {
    seq(|scores|, k requires 0 <= k < |scores| => Row(k == p, scores[k]))
  }

  lemma {:induction false} FirstOfTies(rows: seq<Row>, t: real, p: nat)
    requires p < |rows| && rows[p].score == t && forall k :: 0 <= k < p ==> rows[k].score != t
    ensures Tied(rows, t) != [] && Tied(rows, t)[0] == rows[p]
  {
    var front := rows[..|rows| - 1];
    if p < |front| {
      FirstOfTies(front, t, p);
    } else {
      TiedNeedsScore(front, t);
    }
  }

  lemma TwoPositives(rows: seq<Row>, a: nat, b: nat)
    requires a < b < |rows| && rows[a].tracker && rows[b].tracker
    ensures Positives(rows) >= 2
  {
    OneMorePositive(rows, a);
    OneMorePositive(rows, b);
    var head := rows[..b];
    assert head[..a + 1] == rows[..a + 1];
    HeadPositives(head, a + 1);
    HeadPositives(rows, b + 1);
  }

  lemma {:induction false} FirstWithScore(rows: seq<Row>, t: real) returns (p: nat)
    requires HasScore(rows, t)
    ensures p < |rows| && rows[p].score == t && forall k :: 0 <= k < p ==> rows[k].score != t
  {
    p := 0;
    while rows[p].score != t
      invariant p < |rows| && exists k :: p <= k < |rows| && rows[k].score == t
      invariant forall k :: 0 <= k < p ==> rows[k].score != t
      decreases |rows| - p
    {
      p := p + 1;
    }
  }

  lemma OneIsSole(rows: seq<Row>, p: nat)
    requires p < |rows| && rows[p].tracker && Positives(rows) == 1
    ensures HasOnlyPositive(rows, p)
  {
    forall k | 0 <= k < |rows| && k != p ensures !rows[k].tracker {
      if rows[k].tracker { TwoPositives(rows, if k < p then k else p, if k < p then p else k); }
    }
  }

  lemma SoleIsOne(rows: seq<Row>, p: nat)
    requires HasOnlyPositive(rows, p)
    ensures Positives(rows) == 1
  {
    OnlyPositive(rows, p, |rows|);
    assert rows[..|rows|] == rows;
  }

  lemma FoundInRanked(rows: seq<Row>, j: nat) returns (q: nat)
    requires j < |rows|
    ensures q < |rows| && Ranked(rows)[q] == rows[j]
  {
    RankedFalls(rows);
    assert rows[j] in multiset(rows);
    assert rows[j] in multiset(Ranked(rows));
    q :| 0 <= q < |rows| && Ranked(rows)[q] == rows[j];
  }

  /** The first row of a score stays the first of it. */
  lemma FirstStaysFirst(rows: seq<Row>, f: nat) returns (p: nat)
    requires f < |rows| && forall k :: 0 <= k < f ==> rows[k].score != rows[f].score
    ensures p < |rows| && Ranked(rows)[p] == rows[f]
    ensures forall k :: 0 <= k < p ==> Ranked(rows)[k].score != rows[f].score
  {
    var t := rows[f].score;
    FirstOfTies(rows, t, f);
    RankedKeepsTies(rows, t);
    TiedNeedsScore(Ranked(rows), t);
    p := FirstWithScore(Ranked(rows), t);
    FirstOfTies(Ranked(rows), t, p);
  }

  /** Ranked, the one positive comes just before the other row with its score. */
  lemma RankedTie(rows: seq<Row>, f: nat, j: nat) returns (p: nat)
    requires f < j < |rows| && rows[j].score == rows[f].score && HasOnlyPositive(rows, f)
    requires forall k :: 0 <= k < f ==> rows[k].score != rows[f].score
    ensures p + 1 < |rows| && HasOnlyPositive(Ranked(rows), p) && Ranked(rows)[p].score == Ranked(rows)[p + 1].score
  {
    p := FirstStaysFirst(rows, f);
    var q := FoundInRanked(rows, j);
    SoleIsOne(rows, f);
    RankedPositives(rows);
    OneIsSole(Ranked(rows), p);
    RankedFalls(rows);
    NextIsTied(Ranked(rows), p, q);
  }

  lemma NextIsTied(y: seq<Row>, p: nat, q: nat)
    requires IsFalling(y) && p < |y| && q < |y| && p != q && y[p].score == y[q].score
    requires forall k :: 0 <= k < p ==> y[k].score != y[p].score
    ensures p + 1 < |y| && y[p].score == y[p + 1].score
  {
    assert p < q;
    assert y[p].score >= y[p + 1].score >= y[q].score;
  }

  lemma RankedBest(rows: seq<Row>, target: real, gate: real)
    requires IsBestThreshold(gate, rows, target)
    ensures IsBestThreshold(gate, Ranked(rows), target) && Ranked(Ranked(rows)) == Ranked(rows)
  {
    forall t
      ensures OffersThreshold(Ranked(rows), t, target) <==> OffersThreshold(rows, t, target)
      ensures ThresholdPrecision(Ranked(rows), t) == ThresholdPrecision(rows, t)
    {
      SameOffer(rows, t, target);
    }
    RankedFalls(rows);
    AnyStableSortRanks(Ranked(rows), Ranked(rows));
  }

  /** Some labels on which the gate reports less, when the score at `f` comes again at `j`. */
  lemma TieDisagrees(scores: seq<real>, f: nat, j: nat)
    requires f < j < |scores| && scores[f] == scores[j] && forall k :: 0 <= k < f ==> scores[k] != scores[f]
    ensures !AlwaysAgree(scores)
  {
    var rows := OnePositive(scores, f);
    var p := RankedTie(rows, f, j);
    var gate, report := BestsExist(rows, 1.0);
    RankedBest(rows, 1.0, gate);
    RankedFalls(rows);
    MixedTieParts(Ranked(rows), p, 1.0, gate, report);
    assert HasScores(rows, scores);
  }

  lemma DistinctAgree(scores: seq<real>)
    requires forall i, j :: 0 <= i < j < |scores| ==> scores[i] != scores[j]
    ensures AlwaysAgree(scores)
  {
    forall rows, target, gate, report
      | HasScores(rows, scores) && IsBestThreshold(gate, rows, target) && IsBestHead(report, Ranked(rows), target)
      ensures gate == report
    {
      UnmixedTiesAgree(rows, target, gate, report);
    }
  }

  lemma FirstRepeated(scores: seq<real>, i: nat) returns (f: nat)
    requires i < |scores|
    ensures f <= i && scores[f] == scores[i] && forall k :: 0 <= k < f ==> scores[k] != scores[i]
  {
    f := 0;
    while scores[f] != scores[i]
      invariant f <= i && forall k :: 0 <= k < f ==> scores[k] != scores[i]
      decreases i - f
    {
      f := f + 1;
    }
  }

  /** Over scores in any order, the gate and the report agree whatever the labels and the target exactly when
      no two scores are equal. */
  lemma AgreeIffDistinct(scores: seq<real>)
    ensures AlwaysAgree(scores) <==> forall i, j :: 0 <= i < j < |scores| ==> scores[i] != scores[j]
  {
    if i, j :| 0 <= i < j < |scores| && scores[i] == scores[j] {
      var f := FirstRepeated(scores, i);
      TieDisagrees(scores, f, j);
    } else {
      DistinctAgree(scores);
    }
  }
}
