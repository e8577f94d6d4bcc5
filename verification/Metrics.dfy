/** Ranking metrics, written once for the promotion gate and once for the training report. */
module Metrics {
  import opened Text
  import opened Sums

  /** One evaluated domain: whether it is a tracker, and the score the model gave it. */
  datatype Row = Row(tracker: bool, score: real)

  // ---------- ranking ----------

  /** Behind every row that scores at least as much. */
  function Insert(ranked: seq<Row>, r: Row): (more: seq<Row>)
    ensures |more| == |ranked| + 1
  {
    if ranked == [] || ranked[|ranked| - 1].score >= r.score then ranked + [r]
    else Insert(ranked[..|ranked| - 1], r) + [ranked[|ranked| - 1]]
  }

  /** The stable sort by falling score both programs ask their libraries for. */
  function Ranked(rows: seq<Row>): (ranked: seq<Row>)
    ensures |ranked| == |rows|
  {
    if rows == [] then [] else Insert(Ranked(rows[..|rows| - 1]), rows[|rows| - 1])
  }

  ghost predicate IsFalling(rows: seq<Row>) {
    forall i, j :: 0 <= i < j < |rows| ==> rows[i].score >= rows[j].score
  }

  lemma AllAtLeast(grown: seq<Row>, front: seq<Row>, r: Row, low: real)
    requires multiset(grown) == multiset(front) + multiset{r} && r.score >= low
    requires forall i :: 0 <= i < |front| ==> front[i].score >= low
    ensures forall i :: 0 <= i < |grown| ==> grown[i].score >= low
  {
    forall i | 0 <= i < |grown| ensures grown[i].score >= low {
      assert grown[i] in multiset(grown);
    }
  }

  lemma {:induction false} InsertFalls(ranked: seq<Row>, r: Row)
    requires IsFalling(ranked)
    ensures IsFalling(Insert(ranked, r)) && multiset(Insert(ranked, r)) == multiset(ranked) + multiset{r}
  {
    if ranked == [] || ranked[|ranked| - 1].score >= r.score {
    } else {
      var front, last := ranked[..|ranked| - 1], ranked[|ranked| - 1];
      InsertFalls(front, r);
      assert ranked == front + [last];
      AllAtLeast(Insert(front, r), front, r, last.score);
    }
  }

  lemma {:induction false} RankedFalls(rows: seq<Row>)
    ensures IsFalling(Ranked(rows)) && multiset(Ranked(rows)) == multiset(rows)
  {
    if rows != [] {
      RankedFalls(rows[..|rows| - 1]);
      InsertFalls(Ranked(rows[..|rows| - 1]), rows[|rows| - 1]);
      assert rows == rows[..|rows| - 1] + [rows[|rows| - 1]];
    }
  }

  // ---------- counting ----------

  function IsPositive(r: Row): nat { if r.tracker then 1 else 0 }

  function Positives(rows: seq<Row>): nat { SumBy(rows, IsPositive) }

  lemma {:induction false} PositivesBound(rows: seq<Row>)
    ensures Positives(rows) <= |rows|
  {
    if rows != [] { PositivesBound(rows[..|rows| - 1]); }
  }

  /** Precision of the first `k` rows. */
  function PrecisionAt(rows: seq<Row>, k: nat): real
    requires 1 <= k <= |rows|
  {
    Positives(rows[..k]) as real / k as real
  }

  /** Precision added up over the positives among the first `n` rows, at the rank of each. */
  function SumAtPositives(rows: seq<Row>, n: nat): real
    requires n <= |rows|
  {
    if n == 0 then 0.0 else SumAtPositives(rows, n - 1) + if rows[n - 1].tracker then PrecisionAt(rows, n) else 0.0
  }

  /** The mean, over the positives, of the precision at that positive's rank. */
  function MeanPrecision(rows: seq<Row>): real {
    var p := Positives(rows);
    if p == 0 then 0.0 else SumAtPositives(Ranked(rows), |rows|) / p as real
  }

  lemma OneMorePositive(rows: seq<Row>, k: nat)
    requires k < |rows|
    ensures Positives(rows[..k + 1]) == Positives(rows[..k]) + if rows[k].tracker then 1 else 0
  {
    assert rows[..k + 1] == rows[..k] + [rows[k]];
    SumByAppend(rows[..k], rows[k], IsPositive);
  }

  lemma RankedPositives(rows: seq<Row>)
    ensures Positives(Ranked(rows)) == Positives(rows)
  {
    RankedFalls(rows);
    SumByPermutation(Ranked(rows), rows, IsPositive);
  }

  // ---------- average precision, twice ----------

  function Recall(tp: nat, total: nat): real {
    if total > 0 then tp as real / total as real else 0.0
  }

  /** The area of one step: precision times the rise in recall. */
  function Step(precision: real, recall: real, previous: real): real {
    (recall - previous) * precision
  }

  /** The area under the steps of the first `n` rows. */
  function Area(rows: seq<Row>, n: nat, total: nat): real
    requires n <= |rows|
  {
    if n == 0 then 0.0
    else
      Area(rows, n - 1, total) +
      Step(PrecisionAt(rows, n), Recall(Positives(rows[..n]), total), Recall(Positives(rows[..n - 1]), total))
  }

  lemma StepIsShare(p: real, tp: nat, total: nat)
    requires total > 0
    ensures Step(p, Recall(tp + 1, total), Recall(tp, total)) == p / total as real
  {
    var t := total as real;
    assert (tp + 1) as real / t - tp as real / t == 1.0 / t;
  }

  lemma SumDivided(a: real, b: real, t: real)
    requires t > 0.0
    ensures a / t + b / t == (a + b) / t
  {
  }

  lemma NoStep(p: real, r: real)
    ensures Step(p, r, r) == 0.0
  {
  }

  /** Only the positives raise the recall, each by its share. */
  lemma {:induction false} AreaIsShare(rows: seq<Row>, n: nat, total: nat)
    requires n <= |rows| && total > 0
    ensures Area(rows, n, total) == SumAtPositives(rows, n) / total as real
  {
    if n > 0 {
      AreaIsShare(rows, n - 1, total);
      OneMorePositive(rows, n - 1);
      var p := PrecisionAt(rows, n);
      if rows[n - 1].tracker {
        StepIsShare(p, Positives(rows[..n - 1]), total);
        SumDivided(SumAtPositives(rows, n - 1), p, total as real);
      } else {
        NoStep(p, Recall(Positives(rows[..n]), total));
      }
    }
  }

  lemma {:induction false} NoArea(rows: seq<Row>, n: nat, total: nat)
    requires n <= |rows| && Positives(rows) == 0
    ensures Area(rows, n, total) == 0.0
  {
    if n > 0 {
      NoArea(rows, n - 1, total);
      HeadPositives(rows, n);
      HeadPositives(rows, n - 1);
      NoStep(PrecisionAt(rows, n), Recall(0, total));
    }
  }

  lemma HeadPositives(rows: seq<Row>, n: nat)
    requires n <= |rows|
    ensures Positives(rows[..n]) <= Positives(rows)
  {
    SumByConcat(rows[..n], rows[n..], IsPositive);
    assert rows[..n] + rows[n..] == rows;
  }

  lemma AreaIsMean(rows: seq<Row>, total: nat)
    requires total == Positives(rows) || (Positives(rows) == 0 && total == 1)
    ensures Area(Ranked(rows), |rows|, total) == MeanPrecision(rows)
  {
    RankedFalls(rows);
    RankedPositives(rows);
    if Positives(rows) == 0 { NoArea(Ranked(rows), |rows|, total); } else { AreaIsShare(Ranked(rows), |rows|, total); }
  }

  /** The running count of positives, as `cumsum` gives it. */
  method RunningPositives(y: seq<Row>) returns (tp: seq<nat>)
    ensures |tp| == |y| && forall j :: 0 <= j < |y| ==> tp[j] == Positives(y[..j + 1])
  {
    tp := [];
    for k := 0 to |y|
      invariant |tp| == k && forall j :: 0 <= j < k ==> tp[j] == Positives(y[..j + 1])
    {
      OneMorePositive(y, k);
      assert y[..0] == [];
      tp := tp + [(if k == 0 then 0 else tp[k - 1]) + if y[k].tracker then 1 else 0];
    }
  }

  method AreaOf(y: seq<Row>, tp: seq<nat>, total: nat) returns (sum: real)
    requires |tp| == |y| && forall j :: 0 <= j < |y| ==> tp[j] == Positives(y[..j + 1])
    ensures sum == Area(y, |y|, total)
  {
    var previous := 0.0;
    sum := 0.0;
    assert Positives(y[..0]) == 0 && Recall(0, total) == 0.0;
    for k := 0 to |y|
      invariant previous == Recall(Positives(y[..k]), total)
      invariant sum == Area(y, k, total)
    {
      var p, r := tp[k] as real / (k + 1) as real, Recall(tp[k], total);
      sum := sum + Step(p, r, previous);
      previous := r;
    }
  }

  /** `gate.py`: from the running counts, over every rank; no rows is an index error. */
  method GateAveragePrecision(rows: seq<Row>) returns (ap: Option<real>)
    ensures ap == if rows == [] then None else Some(MeanPrecision(rows))
  {
    RankedFalls(rows);
    RankedPositives(rows);
    var y := Ranked(rows);
    var tp := RunningPositives(y);
    if tp == [] { return None; }
    assert y[..|y|] == y;
    var last := tp[|tp| - 1];
    var total: nat := if last > 1 then last else 1;
    var sum := AreaOf(y, tp, total);
    AreaIsMean(rows, total);
    return Some(sum);
  }

  /** `evaluate.py`: true and false positives counted along the ranking. */
  method ReportAveragePrecision(rows: seq<Row>) returns (ap: real)
    ensures ap == MeanPrecision(rows)
  {
    var total := Positives(rows);
    ap := CountedArea(Ranked(rows), total);
    AreaIsMean(rows, total);
  }

  method CountedArea(y: seq<Row>, total: nat) returns (ap: real)
    ensures ap == Area(y, |y|, total)
  {
    var tp: nat, fp: nat, previous := 0, 0, 0.0;
    ap := 0.0;
    assert Positives(y[..0]) == 0 && Recall(0, total) == 0.0;
    for k := 0 to |y|
      invariant tp == Positives(y[..k]) && tp + fp == k
      invariant previous == Recall(tp, total) && ap == Area(y, k, total)
    {
      OneMorePositive(y, k);
      if y[k].tracker { tp := tp + 1; } else { fp := fp + 1; }
      var precision, recall := tp as real / (tp + fp) as real, Recall(tp, total);
      ap := ap + Step(precision, recall, previous);
      previous := recall;
    }
  }

  // ---------- precision at recall, twice ----------

  function Truths(rows: seq<Row>, t: real): nat {
    SumBy(rows, (r: Row) => if r.tracker && r.score >= t then 1 else 0)
  }

  function Above(rows: seq<Row>, t: real): nat {
    SumBy(rows, (r: Row) => if r.score >= t then 1 else 0)
  }

  function Falses(rows: seq<Row>, t: real): nat {
    SumBy(rows, (r: Row) => if !r.tracker && r.score >= t then 1 else 0)
  }

  function Misses(rows: seq<Row>, t: real): nat {
    SumBy(rows, (r: Row) => if r.tracker && r.score < t then 1 else 0)
  }

  lemma {:induction false} CountsAddUp(rows: seq<Row>, t: real)
    ensures Truths(rows, t) + Falses(rows, t) == Above(rows, t)
    ensures Truths(rows, t) + Misses(rows, t) == Positives(rows)
  {
    if rows != [] { CountsAddUp(rows[..|rows| - 1], t); }
  }

  /** A share of `part` in `all`, or what to say of nothing. */
  function Share(part: nat, all: nat, empty: real): real {
    if all > 0 then part as real / all as real else empty
  }

  predicate Reaches(tp: nat, total: nat, target: real) {
    Share(tp, total, 0.0) >= target
  }

  predicate HasScore(rows: seq<Row>, t: real) {
    exists k :: 0 <= k < |rows| && rows[k].score == t
  }

  ghost predicate OffersThreshold(rows: seq<Row>, t: real, target: real) {
    HasScore(rows, t) && Reaches(Truths(rows, t), Positives(rows), target)
  }

  function ThresholdPrecision(rows: seq<Row>, t: real): real {
    Share(Truths(rows, t), Above(rows, t), 1.0)
  }

  /** The best precision among the score thresholds that reach the target recall, or nothing. */
  ghost predicate IsBestThreshold(best: real, rows: seq<Row>, target: real) {
    && best >= 0.0
    && (forall t :: OffersThreshold(rows, t, target) ==> ThresholdPrecision(rows, t) <= best)
    && (best == 0.0 || exists t :: OffersThreshold(rows, t, target) && best == ThresholdPrecision(rows, t))
  }

  predicate OffersHead(ranked: seq<Row>, k: nat, target: real) {
    1 <= k <= |ranked| && Reaches(Positives(ranked[..k]), Positives(ranked), target)
  }

  /** The best precision among the heads of the ranking that reach the target recall, or nothing. */
  ghost predicate IsBestHead(best: real, ranked: seq<Row>, target: real) {
    && best >= 0.0
    && (forall k :: OffersHead(ranked, k, target) ==> PrecisionAt(ranked, k) <= best)
    && (best == 0.0 || exists k :: OffersHead(ranked, k, target) && best == PrecisionAt(ranked, k))
  }

  /** `np.unique`: every score once, smallest first. */
  method Unique(rows: seq<Row>) returns (ts: seq<real>)
    ensures forall t :: t in ts <==> HasScore(rows, t)
    ensures forall i, j :: 0 <= i < j < |ts| ==> ts[i] < ts[j]
  {
    ts := [];
    for k := 0 to |rows|
      invariant forall t :: t in ts <==> HasScore(rows[..k], t)
      invariant forall i, j :: 0 <= i < j < |ts| ==> ts[i] < ts[j]
    {
      forall t ensures HasScore(rows[..k + 1], t) <==> HasScore(rows[..k], t) || rows[k].score == t {
        OneMoreScore(rows, k, t);
      }
      if rows[k].score !in ts { ts := InsertedScore(ts, rows[k].score); }
    }
    assert rows[..|rows|] == rows;
  }

  lemma OneMoreScore(rows: seq<Row>, k: nat, t: real)
    requires k < |rows|
    ensures HasScore(rows[..k + 1], t) <==> HasScore(rows[..k], t) || rows[k].score == t
  {
    assert rows[..k + 1] == rows[..k] + [rows[k]];
    if HasScore(rows[..k], t) {
      var j :| 0 <= j < k && rows[..k][j].score == t;
      assert rows[..k + 1][j].score == t;
    }
    assert rows[..k + 1][k] == rows[k];
  }

  function InsertedScore(ts: seq<real>, t: real): (more: seq<real>)
    requires t !in ts && forall i, j :: 0 <= i < j < |ts| ==> ts[i] < ts[j]
    ensures forall x :: x in more <==> x == t || x in ts
    ensures forall i, j :: 0 <= i < j < |more| ==> more[i] < more[j]
  {
    if ts == [] || ts[|ts| - 1] < t then ts + [t]
    else
      var rest := ts[..|ts| - 1];
      var front := InsertedScore(rest, t);
      assert forall i :: 0 <= i < |front| ==> front[i] in front;
      assert forall x :: x in rest ==> x < ts[|ts| - 1];
      front + [ts[|ts| - 1]]
  }

  /** The rows a mask keeps. */
  function Masked(rows: seq<Row>, keep: seq<bool>): seq<Row>
    requires |keep| == |rows|
  {
    if rows == [] then []
    else Masked(rows[..|rows| - 1], keep[..|rows| - 1]) + if keep[|rows| - 1] then [rows[|rows| - 1]] else []
  }

  /** `gate.py`: every score as a threshold, over the kept rows. */
  method GatePrecisionAtRecall(all: seq<Row>, keep: Option<seq<bool>>, target: real) returns (best: real)
    requires keep.Some? ==> |keep.value| == |all|
    ensures IsBestThreshold(best, if keep.Some? then Masked(all, keep.value) else all, target)
  {
    var rows := if keep.Some? then Masked(all, keep.value) else all;
    var ts := Unique(rows);
    best := 0.0;
    for k := 0 to |ts|
      invariant best >= 0.0
      invariant forall j :: 0 <= j < k && OffersThreshold(rows, ts[j], target) ==>
                  ThresholdPrecision(rows, ts[j]) <= best
      invariant best == 0.0 || exists t :: OffersThreshold(rows, t, target) && best == ThresholdPrecision(rows, t)
    {
      var t := ts[k];
      CountsAddUp(rows, t);
      assert t in ts;
      var tp, fp, fn := Truths(rows, t), Falses(rows, t), Misses(rows, t);
      var rec, prec := Share(tp, tp + fn, 0.0), Share(tp, tp + fp, 1.0);
      if rec >= target && prec > best { best := prec; }
    }
  }

  /** `evaluate.py`: every head of the ranking. */
  method ReportPrecisionAtRecall(rows: seq<Row>, target: real) returns (best: real)
    ensures IsBestHead(best, Ranked(rows), target)
  {
    var y := Ranked(rows);
    RankedPositives(rows);
    var tp: nat, fp: nat, total := 0, 0, Positives(rows);
    best := 0.0;
    for k := 0 to |y|
      invariant tp == Positives(y[..k]) && tp + fp == k && best >= 0.0
      invariant forall j :: 1 <= j <= k && OffersHead(y, j, target) ==> PrecisionAt(y, j) <= best
      invariant best == 0.0 || exists j :: OffersHead(y, j, target) && best == PrecisionAt(y, j)
    {
      OneMorePositive(y, k);
      if y[k].tracker { tp := tp + 1; } else { fp := fp + 1; }
      var recall, precision := Share(tp, total, 0.0), tp as real / (tp + fp) as real;
      assert precision == PrecisionAt(y, k + 1);
      if recall >= target {
        assert OffersHead(y, k + 1, target);
        best := if precision > best then precision else best;
      }
    }
  }
}
