/** The trimmed list built from the rules a measurement saw fire, and what it preserves. */
module HotList {
  import opened Text
  import opened Ranking
  import opened Sorting
  import opened Coverage

  /** Lines as a list carries them: without outer whitespace, blanks dropped. */
  function CleanLines(lines: seq<string>): seq<string> {
    if lines == [] then []
    else
      var line := Trim(lines[|lines| - 1]);
      CleanLines(lines[..|lines| - 1]) + if line == "" then [] else [line]
  }

  function Available(lines: seq<string>): set<string> {
    set line | line in CleanLines(lines)
  }

  function CountsOf(ts: seq<Tally>): (counts: seq<real>)
    ensures |counts| == |ts|
  {
    if ts == [] then [] else CountsOf(ts[..|ts| - 1]) + [ts[|ts| - 1].count as real]
  }

  lemma {:induction false} CountsAt(ts: seq<Tally>, k: nat)
    requires k < |ts|
    ensures CountsOf(ts)[k] == ts[k].count as real
  {
    if k < |ts| - 1 { CountsAt(ts[..|ts| - 1], k); }
  }

  lemma CountsAreSorted(ts: seq<Tally>)
    requires InOrder(ts)
    ensures NonNegative(CountsOf(ts)) && Descending(CountsOf(ts))
  {
    forall k | 0 <= k < |ts| ensures CountsOf(ts)[k] >= 0.0 { CountsAt(ts, k); }
    forall i, j | 0 <= i <= j < |ts| ensures CountsOf(ts)[i] >= CountsOf(ts)[j] {
      CountsAt(ts, i);
      CountsAt(ts, j);
      assert i < j ==> Precedes(ts[i], ts[j]);
    }
  }

  function Total(ts: seq<Tally>): nat {
    if ts == [] then 0 else Total(ts[..|ts| - 1]) + ts[|ts| - 1].count
  }

  /** The rules of the table that the list carries, in table order. */
  function RulesIn(ts: seq<Tally>, available: set<string>): seq<string> {
    if ts == [] then []
    else RulesIn(ts[..|ts| - 1], available) + if ts[|ts| - 1].rule in available then [ts[|ts| - 1].rule] else []
  }

  function TotalIn(ts: seq<Tally>, available: set<string>): nat {
    if ts == [] then 0
    else TotalIn(ts[..|ts| - 1], available) + if ts[|ts| - 1].rule in available then ts[|ts| - 1].count else 0
  }

  function TotalMissing(ts: seq<Tally>, available: set<string>): nat {
    if ts == [] then 0
    else TotalMissing(ts[..|ts| - 1], available) + if ts[|ts| - 1].rule in available then 0 else ts[|ts| - 1].count
  }

  /** The exceptions the list carries, each once. */
  function ExceptionsIn(exceptions: seq<string>, available: set<string>): seq<string> {
    if exceptions == [] then []
    else
      var before, last := ExceptionsIn(exceptions[..|exceptions| - 1], available), exceptions[|exceptions| - 1];
      if last in available && last !in before then before + [last] else before
  }

  lemma {:induction false} RulesInMembers(ts: seq<Tally>, available: set<string>, x: string)
    ensures x in RulesIn(ts, available) <==> x in available && exists t :: t in ts && t.rule == x
  {
    if ts != [] {
      var front, last := ts[..|ts| - 1], ts[|ts| - 1];
      assert ts == front + [last];
      RulesInMembers(front, available, x);
      if last.rule == x { assert last in ts; }
    }
  }

  lemma {:induction false} ExceptionsInMembers(exceptions: seq<string>, available: set<string>, x: string)
    ensures x in ExceptionsIn(exceptions, available) <==> x in available && x in exceptions
  {
    if exceptions != [] {
      var front := exceptions[..|exceptions| - 1];
      assert exceptions == front + [exceptions[|exceptions| - 1]];
      ExceptionsInMembers(front, available, x);
    }
  }

  datatype Selection = Selection(
    lines: seq<string>,
    keptExceptions: seq<string>,
    coveredRequests: nat,
    totalRequests: nat,
    dropped: seq<Tally>,
    share: real)

  lemma TallyStep(ts: seq<Tally>, k: nat)
    requires k < |ts|
    ensures ts[..k + 1][..k] == ts[..k] && ts[..k + 1][k] == ts[k]
  {
  }

  method KeepRules(ts: seq<Tally>, available: set<string>) returns (rules: seq<string>, covered: nat, total: nat)
    ensures rules == RulesIn(ts, available) && covered == TotalIn(ts, available) && total == Total(ts)
  {
    rules, covered, total := [], 0, 0;
    for k := 0 to |ts|
      invariant rules == RulesIn(ts[..k], available)
      invariant covered == TotalIn(ts[..k], available) && total == Total(ts[..k])
    {
      TallyStep(ts, k);
      total := total + ts[k].count;
      if ts[k].rule in available {
        rules, covered := rules + [ts[k].rule], covered + ts[k].count;
      }
    }
    assert ts[..|ts|] == ts;
  }

  method KeepExceptions(exceptions: seq<string>, available: set<string>) returns (kept: seq<string>)
    ensures kept == Sorted(ExceptionsIn(exceptions, available))
  {
    kept := [];
    for k := 0 to |exceptions|
      invariant kept == ExceptionsIn(exceptions[..k], available)
    {
      assert exceptions[..k + 1][..k] == exceptions[..k];
      if exceptions[k] in available && exceptions[k] !in kept { kept := kept + [exceptions[k]]; }
    }
    assert exceptions[..|exceptions|] == exceptions;
    kept := Sorted(kept);
  }

  /** The last two results, the table and how much of it is kept, are for the contract only. */
  method SelectHotList(lines: seq<string>, hits: seq<Hit>, exceptions: seq<string>, share: Option<real>)
    returns (s: Selection, ghost table: seq<Tally>, ghost keep: nat)
    ensures IsTableOf(table, hits)
    ensures s.share == Clamp(if share.Some? then share.value else 1.0)
    ensures IsLeastHead(CountsOf(table), s.share, keep) && keep <= |table|
    ensures s.keptExceptions == Sorted(ExceptionsIn(exceptions, Available(lines)))
    ensures s.lines == RulesIn(table[..keep], Available(lines)) + s.keptExceptions
    ensures s.dropped == table[keep..] && s.totalRequests == Total(table)
    ensures s.coveredRequests == TotalIn(table[..keep], Available(lines))
  {
    var sorted := NormalizeHits(hits);
    CountsAreSorted(sorted);
    var counts := CountsOf(sorted);
    var wanted := Clamp(if share.Some? then share.value else 1.0);
    var keepCount := MinimumRulesForShare(counts, wanted);
    var available := Available(lines);
    var keptRules, covered, _ := KeepRules(sorted[..keepCount], available);
    var _, _, total := KeepRules(sorted, available);
    var keptExceptions := KeepExceptions(exceptions, available);
    s := Selection(keptRules + keptExceptions, keptExceptions, covered, total, sorted[keepCount..], wanted);
    table, keep := sorted, keepCount;
  }

  // ---------- what every selection keeps ----------

  /** A hot list is a subset of the list it came from, and of what fired. */
  lemma SelectionIsWithinSource(lines: seq<string>, table: seq<Tally>, exceptions: seq<string>, x: string)
    ensures x in RulesIn(table, Available(lines)) + Sorted(ExceptionsIn(exceptions, Available(lines))) <==>
            x in CleanLines(lines) && ((exists t :: t in table && t.rule == x) || x in exceptions)
  {
    RulesInMembers(table, Available(lines), x);
    SortedMembers(ExceptionsIn(exceptions, Available(lines)), x);
    ExceptionsInMembers(exceptions, Available(lines), x);
  }

  lemma {:induction false} TotalSplits(ts: seq<Tally>, k: nat)
    requires k <= |ts|
    ensures Total(ts) == Total(ts[..k]) + Total(ts[k..])
    decreases |ts|
  {
    if k == |ts| {
      assert ts[..k] == ts;
    } else {
      var front := ts[..|ts| - 1];
      TotalSplits(front, k);
      assert front[..k] == ts[..k];
      assert ts[k..][..|ts| - k - 1] == front[k..];
    }
  }

  lemma {:induction false} CarriedOrMissing(ts: seq<Tally>, available: set<string>)
    ensures Total(ts) == TotalIn(ts, available) + TotalMissing(ts, available)
  {
    if ts != [] { CarriedOrMissing(ts[..|ts| - 1], available); }
  }

  /** Every measured request is covered, dropped with its rule, or charged to a rule the list no longer has. */
  lemma RequestsAreAccountedFor(table: seq<Tally>, keep: nat, available: set<string>)
    requires keep <= |table|
    ensures Total(table) ==
            TotalIn(table[..keep], available) + Total(table[keep..]) + TotalMissing(table[..keep], available)
  {
    TotalSplits(table, keep);
    CarriedOrMissing(table[..keep], available);
  }

  lemma PositiveCounts(table: seq<Tally>, k: nat)
    requires (forall t :: t in table ==> t.count > 0) && k < |table|
    ensures CountsOf(table)[k] > 0.0
  {
    CountsAt(table, k);
    assert table[k] in table;
  }

  lemma WholeShare(counts: seq<real>, n: nat)
    requires n <= |counts|
    ensures Carries(counts, n, 1.0) <==> Sum(counts[..n]) >= Sum(counts)
  {
    var share, total := Clamp(1.0), Sum(counts);
    assert share == 1.0;
    assert share * total == total;
  }

  lemma HeadIsLighter(counts: seq<real>, n: nat)
    requires NonNegative(counts) && n < |counts| && counts[n] > 0.0
    ensures Sum(counts[..n]) < Sum(counts)
  {
    SumStep(counts, n);
    SumGrows(counts, n + 1, |counts|);
    assert counts[..|counts|] == counts;
  }

  /** At share 1 nothing that fired is dropped. */
  lemma FullShareKeepsAll(table: seq<Tally>, keep: nat)
    requires InOrder(table) && (forall t :: t in table ==> t.count > 0)
    requires IsLeastHead(CountsOf(table), 1.0, keep)
    ensures keep == |table|
  {
    var counts := CountsOf(table);
    CountsAreSorted(table);
    WholeShare(counts, keep);
    if keep < |table| {
      PositiveCounts(table, keep);
      HeadIsLighter(counts, keep);
    }
  }

  lemma {:induction false} CleanMembers(lines: seq<string>, x: string)
    ensures x in CleanLines(lines) <==> x != "" && exists l :: l in lines && Trim(l) == x
  {
    if lines != [] {
      var front, last := lines[..|lines| - 1], lines[|lines| - 1];
      assert lines == front + [last];
      CleanMembers(front, x);
      if Trim(last) == x { assert last in lines; }
    }
  }
}
