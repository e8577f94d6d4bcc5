/** The merge does not depend on the order of the sessions, adds up over concatenation, and loses no
    well-formed hit. */
module LedgerTheorems {
  import opened Text
  import opened Sums
  import opened Ranking
  import opened Sorting
  import opened Ledger

  // ---------- order ----------

  lemma SameTotals(a: seq<Event>, b: seq<Event>, axis: Axis, name: string)
    requires multiset(a) == multiset(b)
    ensures CountOn(a, axis, name) == CountOn(b, axis, name) && ReportsOn(a, axis, name) == ReportsOn(b, axis, name)
    ensures DaysOn(a, axis, name) == DaysOn(b, axis, name)
  {
    SumByPermutation(a, b, (e: Event) => if IsOn(e, axis, name) then e.count else 0);
    SumByPermutation(a, b, (e: Event) => if IsOn(e, axis, name) then 1 else 0);
    SameMembers(a, b);
  }

  lemma SameTable(a: seq<Event>, b: seq<Event>, axis: Axis, x: seq<Row>, y: seq<Row>)
    requires multiset(a) == multiset(b) && IsLedgerTable(x, a, axis) && IsLedgerTable(y, b, axis)
    ensures x == y
  {
    forall row: Row ensures row in x <==> row in y { SameTotals(a, b, axis, row.rule); }
    TableIsUnique(x, y);
  }

  /** Merging the same sessions in any order gives the same aggregate, line by line. */
  lemma MergeOrderIsIrrelevant(s: seq<Session>, t: seq<Session>, options: Options, g: Aggregate, h: Aggregate,
                               gAll: seq<Row>, gAllows: seq<Row>, hAll: seq<Row>, hAllows: seq<Row>)
    requires multiset(s) == multiset(t)
    requires IsAggregate(g, gAll, gAllows, Events(s), options) && IsAggregate(h, hAll, hAllows, Events(t), options)
    ensures g == h
  {
    FlatMapPermutation(s, t, (x: Session) => SessionEvents(x));
    var a, b := Events(s), Events(t);
    SameTable(a, b, Blocks, gAll, hAll);
    SameTable(a, b, Allows, gAllows, hAllows);
    SameTable(a, b, Tiers, g.tiers, h.tiers);
    SameTotals(a, b, Accepted, "");
    SameTotals(a, b, Tiered, "");
    SameTotals(a, b, Unattributed, "");
    SameTotals(a, b, RejectedTiers, "");
    SortedIsUnique(g.days, h.days);
  }

  // ---------- concatenation ----------

  /** Merging a concatenation adds the counts and the reports of the two merges and unites their days. */
  lemma MergeOfConcatenation(s: seq<Session>, t: seq<Session>, axis: Axis, name: string)
    ensures CountOn(Events(s + t), axis, name) == CountOn(Events(s), axis, name) + CountOn(Events(t), axis, name)
    ensures ReportsOn(Events(s + t), axis, name) == ReportsOn(Events(s), axis, name) + ReportsOn(Events(t), axis, name)
    ensures DaysOn(Events(s + t), axis, name) == DaysOn(Events(s), axis, name) + DaysOn(Events(t), axis, name)
  {
    FlatMapConcat(s, t, (x: Session) => SessionEvents(x));
    TotalsOfConcat(Events(s), Events(t), axis, name);
  }

  lemma TotalsOfConcat(a: seq<Event>, b: seq<Event>, axis: Axis, name: string)
    ensures CountOn(a + b, axis, name) == CountOn(a, axis, name) + CountOn(b, axis, name)
    ensures ReportsOn(a + b, axis, name) == ReportsOn(a, axis, name) + ReportsOn(b, axis, name)
    ensures DaysOn(a + b, axis, name) == DaysOn(a, axis, name) + DaysOn(b, axis, name)
  {
    SumByConcat(a, b, (e: Event) => if IsOn(e, axis, name) then e.count else 0);
    SumByConcat(a, b, (e: Event) => if IsOn(e, axis, name) then 1 else 0);
    assert forall e :: e in a + b <==> e in a || e in b;
  }

  /** A line of the merged table, in terms of the lines of the two tables it merges. */
  lemma RowOfConcatenation(s: seq<Session>, t: seq<Session>, axis: Axis, row: Row, left: Row, right: Row)
    requires IsRowOf(row, Events(s + t), axis) && row.rule == left.rule == right.rule
    requires IsRowOf(left, Events(s), axis) && IsRowOf(right, Events(t), axis)
    ensures row.count == left.count + right.count && row.more.sessions == left.more.sessions + right.more.sessions
    ensures forall d :: d in row.more.days <==> d in left.more.days || d in right.more.days
  {
    MergeOfConcatenation(s, t, axis, row.rule);
  }

  // ---------- conservation ----------

  /** Everything charged to an axis. */
  function TotalOn(events: seq<Event>, axis: Axis): nat {
    SumBy(events, (e: Event) => if e.axis == axis then e.count else 0)
  }

  function TableTotal(rows: seq<Row>): nat {
    SumBy(rows, (row: Row) => row.count)
  }

  function CountsOf(names: seq<string>, events: seq<Event>, axis: Axis): nat {
    SumBy(names, (name: string) => CountOn(events, axis, name))
  }

  function NamesOf(rows: seq<Row>): (names: seq<string>)
    ensures |names| == |rows|
    ensures forall k :: 0 <= k < |rows| ==> names[k] == rows[k].rule
  {
    if rows == [] then [] else NamesOf(rows[..|rows| - 1]) + [rows[|rows| - 1].rule]
  }

  lemma {:induction false} OneMoreEvent(names: seq<string>, events: seq<Event>, e: Event, axis: Axis)
    requires AreDistinct(names)
    ensures CountsOf(names, events + [e], axis) ==
            CountsOf(names, events, axis) + if e.axis == axis && e.name in names then e.count else 0
    decreases |names|
  {
    if names != [] {
      var front, last := names[..|names| - 1], names[|names| - 1];
      assert names == front + [last];
      OneMoreEvent(front, events, e, axis);
      SumByAppend(front, last, (name: string) => CountOn(events, axis, name));
      SumByAppend(front, last, (name: string) => CountOn(events + [e], axis, name));
      EventStep(events, e, axis, last);
    }
  }

  lemma {:induction false} NothingCounted(names: seq<string>, axis: Axis)
    ensures CountsOf(names, [], axis) == 0
    decreases |names|
  {
    if names != [] {
      var front, last := names[..|names| - 1], names[|names| - 1];
      assert names == front + [last];
      NothingCounted(front, axis);
      SumByAppend(front, last, (name: string) => CountOn([], axis, name));
    }
  }

  /** Counting name by name counts every event of the axis once, when the names cover them. */
  lemma {:induction false} NamesCoverAll(names: seq<string>, events: seq<Event>, axis: Axis)
    requires AreDistinct(names) && forall e :: e in events && e.axis == axis ==> e.name in names
    ensures CountsOf(names, events, axis) == TotalOn(events, axis)
    decreases |events|
  {
    if events == [] {
      NothingCounted(names, axis);
    } else {
      var front, last := events[..|events| - 1], events[|events| - 1];
      assert events == front + [last];
      assert last in events;
      NamesCoverAll(names, front, axis);
      OneMoreEvent(names, front, last, axis);
      SumByAppend(front, last, (e: Event) => if e.axis == axis then e.count else 0);
    }
  }

  lemma {:induction false} RowsAddUp(rows: seq<Row>, events: seq<Event>, axis: Axis)
    requires forall k :: 0 <= k < |rows| ==> rows[k].count == CountOn(events, axis, rows[k].rule)
    ensures TableTotal(rows) == CountsOf(NamesOf(rows), events, axis)
    decreases |rows|
  {
    if rows != [] {
      var front, last := rows[..|rows| - 1], rows[|rows| - 1];
      assert rows == front + [last];
      RowsAddUp(front, events, axis);
      SumByAppend(front, last, (row: Row) => row.count);
      SumByAppend(NamesOf(front), last.rule, (name: string) => CountOn(events, axis, name));
    }
  }

  lemma ReportedIsInTable(rows: seq<Row>, events: seq<Event>, axis: Axis, e: Event)
    requires IsLedgerTable(rows, events, axis) && e in events && e.axis == axis
    ensures exists k :: 0 <= k < |rows| && rows[k].rule == e.name
  {
    Reported(events, e);
    var days := SomeDayList(DaysOn(events, axis, e.name));
    SortedDays(days, DaysOn(events, axis, e.name));
    var row := Ranked(e.name, CountOn(events, axis, e.name), Kept(ReportsOn(events, axis, e.name), Sorted(days)));
    assert IsRowOf(row, events, axis);
    assert row in rows;
  }

  lemma {:induction false} SomeDayList(all: set<string>) returns (days: seq<string>)
    ensures IsDayList(days, all)
    decreases |all|
  {
    if all == {} {
      days := [];
    } else {
      var d :| d in all;
      var rest := SomeDayList(all - {d});
      days := rest + [d];
    }
  }

  lemma {:induction false} Reported(events: seq<Event>, e: Event)
    requires e in events
    ensures ReportsOn(events, e.axis, e.name) > 0
    decreases |events|
  {
    var front, last := events[..|events| - 1], events[|events| - 1];
    assert events == front + [last];
    EventStep(front, last, e.axis, e.name);
    if last != e { Reported(front, e); }
  }

  /** The lines of a table add up to everything charged to its axis. */
  lemma TableConserves(rows: seq<Row>, events: seq<Event>, axis: Axis)
    requires IsLedgerTable(rows, events, axis)
    ensures TableTotal(rows) == TotalOn(events, axis)
  {
    forall k | 0 <= k < |rows| ensures rows[k].count == CountOn(events, axis, rows[k].rule) { assert rows[k] in rows; }
    RowsAddUp(rows, events, axis);
    forall e | e in events && e.axis == axis ensures e.name in NamesOf(rows) {
      ReportedIsInTable(rows, events, axis, e);
      var k :| 0 <= k < |rows| && rows[k].rule == e.name;
      assert NamesOf(rows)[k] == e.name;
    }
    NamesCoverAll(NamesOf(rows), events, axis);
  }

  /** What one hit is worth as a block. */
  function BlockWorth(hit: LedgerHit): nat {
    var rule := NormalizeLedgerRule(hit.name);
    if rule.Some? && !IsException(rule.value) then WholeOf(hit.count) else 0
  }

  /** The well-formed block hits of a session, none when it is undated. */
  function SessionWorth(s: Session): nat {
    if LedgerDateOf(s.startedAt).Some? then SumBy(s.hits, (hit: LedgerHit) => BlockWorth(hit)) else 0
  }

  /** The well-formed block hits of the dated sessions, added up. */
  function BlockHits(sessions: seq<Session>): nat {
    SumBy(sessions, (s: Session) => SessionWorth(s))
  }

  lemma {:induction false} TotalOfFlatMap<T>(xs: seq<T>, f: T -> seq<Event>, worth: T -> nat, axis: Axis)
    requires forall x :: x in xs ==> TotalOn(f(x), axis) == worth(x)
    ensures TotalOn(FlatMap(xs, f), axis) == SumBy(xs, worth)
    decreases |xs|
  {
    if xs != [] {
      var front, last := xs[..|xs| - 1], xs[|xs| - 1];
      assert xs == front + [last];
      assert last in xs;
      TotalOfFlatMap(front, f, worth, axis);
      SumByConcat(FlatMap(front, f), f(last), (e: Event) => if e.axis == axis then e.count else 0);
    }
  }

  lemma TotalOfConcat(a: seq<Event>, b: seq<Event>, axis: Axis)
    ensures TotalOn(a + b, axis) == TotalOn(a, axis) + TotalOn(b, axis)
  {
    SumByConcat(a, b, (e: Event) => if e.axis == axis then e.count else 0);
  }

  lemma TotalOfOne(e: Event, axis: Axis)
    ensures TotalOn([e], axis) == if e.axis == axis then e.count else 0
  {
    SumByAppend([], e, (x: Event) => if x.axis == axis then x.count else 0);
    assert [] + [e] == [e];
  }

  lemma HitsAreWorth(hits: seq<LedgerHit>, day: string)
    ensures TotalOn(HitEvents(hits, day), Blocks) == SumBy(hits, (hit: LedgerHit) => BlockWorth(hit))
  {
    forall hit | hit in hits ensures TotalOn(HitEvent(hit, day), Blocks) == BlockWorth(hit) { HitIsWorth(hit, day); }
    TotalOfFlatMap(hits, (hit: LedgerHit) => HitEvent(hit, day), (hit: LedgerHit) => BlockWorth(hit), Blocks);
  }

  lemma HitIsWorth(hit: LedgerHit, day: string)
    ensures TotalOn(HitEvent(hit, day), Blocks) == BlockWorth(hit)
  {
    var reports := HitEvent(hit, day);
    if reports != [] {
      TotalOfOne(reports[0], Blocks);
      assert reports == [reports[0]];
    }
  }

  lemma TiersAreNoBlocks(hits: seq<LedgerHit>, day: string)
    ensures TotalOn(TierEvents(hits, day), Blocks) == 0
  {
    forall hit | hit in hits ensures TotalOn(TierEvent(hit, day), Blocks) == 0 {
      if TierEvent(hit, day) != [] { TotalOfOne(TierEvent(hit, day)[0], Blocks); }
    }
    TotalOfFlatMap(hits, (hit: LedgerHit) => TierEvent(hit, day), (hit: LedgerHit) => 0, Blocks);
    SumOfNothing(hits, (hit: LedgerHit) => 0);
  }

  lemma ExceptionsAreNoBlocks(rules: seq<string>, day: string)
    ensures TotalOn(ExceptionEvents(rules, day), Blocks) == 0
  {
    forall rule | rule in rules ensures TotalOn(ExceptionEvent(rule, day), Blocks) == 0 {
      if ExceptionEvent(rule, day) != [] { TotalOfOne(ExceptionEvent(rule, day)[0], Blocks); }
    }
    TotalOfFlatMap(rules, (rule: string) => ExceptionEvent(rule, day), (rule: string) => 0, Blocks);
    SumOfNothing(rules, (rule: string) => 0);
  }

  lemma {:induction false} SumOfNothing<T>(xs: seq<T>, f: T -> nat)
    requires forall x :: f(x) == 0
    ensures SumBy(xs, f) == 0
    decreases |xs|
  {
    if xs != [] { SumOfNothing(xs[..|xs| - 1], f); }
  }

  lemma DatedIsWorth(s: Session, day: string)
    ensures TotalOn(DatedEvents(s, day), Blocks) == SumBy(s.hits, (hit: LedgerHit) => BlockWorth(hit))
  {
    var first, left := Event(Accepted, "", 1, day), Event(Unattributed, "", WholeOf(s.tierUnattributed), day);
    var hits, tiered, tiers := HitEvents(s.hits, day), TieredEvent(s.tiers, day), TierEvents(s.tiers, day);
    TotalOfOne(first, Blocks);
    TotalOfOne(left, Blocks);
    if tiered != [] { TotalOfOne(tiered[0], Blocks); }
    HitsAreWorth(s.hits, day);
    TiersAreNoBlocks(s.tiers, day);
    ExceptionsAreNoBlocks(s.exceptions, day);
    TotalOfConcat([first], hits, Blocks);
    TotalOfConcat([first] + hits, tiered, Blocks);
    TotalOfConcat([first] + hits + tiered, tiers, Blocks);
    TotalOfConcat([first] + hits + tiered + tiers, [left], Blocks);
    TotalOfConcat([first] + hits + tiered + tiers + [left], ExceptionEvents(s.exceptions, day), Blocks);
  }

  lemma SessionIsWorth(s: Session)
    ensures TotalOn(SessionEvents(s), Blocks) == SessionWorth(s)
  {
    if LedgerDateOf(s.startedAt).Some? { DatedIsWorth(s, LedgerDateOf(s.startedAt).value); }
  }

  /** Before they are cut, the merged rules add up to every well-formed block hit of every dated session. */
  lemma TableIsWorth(sessions: seq<Session>, rows: seq<Row>)
    requires IsLedgerTable(rows, Events(sessions), Blocks)
    ensures TableTotal(rows) == BlockHits(sessions)
  {
    TableConserves(rows, Events(sessions), Blocks);
    forall s | s in sessions ensures TotalOn(SessionEvents(s), Blocks) == SessionWorth(s) { SessionIsWorth(s); }
    TotalOfFlatMap(sessions, (s: Session) => SessionEvents(s),
                   (s: Session) => SessionWorth(s), Blocks);
  }

  lemma {:induction false} ZeroTotal(rows: seq<Row>)
    requires forall row :: row in rows ==> row.count == 0
    ensures TableTotal(rows) == 0
    decreases |rows|
  {
    if rows != [] { ZeroTotal(rows[..|rows| - 1]); }
  }

  lemma FirstOfTotal(rows: seq<Row>, first: Row, rest: seq<Row>)
    requires rows == [first] + rest
    ensures TableTotal(rows) == first.count + TableTotal(rest)
  {
    SumByConcat([first], rest, (row: Row) => row.count);
    SumByAppend([], first, (row: Row) => row.count);
    assert [] + [first] == [first];
  }

  lemma {:induction false} LongEnoughKeeps(rows: seq<Row>, minDays: nat)
    requires InOrder(rows)
    ensures InOrder(LongEnough(rows, minDays)) && forall row :: row in LongEnough(rows, minDays) ==> row in rows
    decreases |rows|
  {
    if rows != [] {
      assert rows == [rows[0]] + rows[1..];
      forall i, j | 0 <= i < j < |rows[1..]|
        ensures Precedes(rows[1..][i], rows[1..][j]) && rows[1..][i].rule != rows[1..][j].rule
      {
        assert rows[1..][i] == rows[i + 1] && rows[1..][j] == rows[j + 1];
      }
      LongEnoughKeeps(rows[1..], minDays);
      var rest := LongEnough(rows[1..], minDays);
      forall row | row in rest ensures Precedes(rows[0], row) && rows[0].rule != row.rule {
        var k :| 0 <= k < |rows[1..]| && rows[1..][k] == row;
        assert rows[k + 1] == row;
      }
    }
  }

  lemma DurableKeeps(rows: seq<Row>, minDays: nat, maxRules: nat)
    requires InOrder(rows)
    ensures InOrder(Durable(rows, minDays, maxRules))
    ensures forall row :: row in Durable(rows, minDays, maxRules) ==> row in rows
  {
    LongEnoughKeeps(rows, minDays);
  }

  /** Dropping the lines seen on too few days loses counts exactly when one of them has any. */
  lemma {:induction false} LongTotal(rows: seq<Row>, minDays: nat)
    ensures TableTotal(LongEnough(rows, minDays)) <= TableTotal(rows)
    ensures TableTotal(LongEnough(rows, minDays)) == TableTotal(rows) <==>
            forall row :: row in rows && |row.more.days| < minDays ==> row.count == 0
  {
    if rows != [] {
      var first, rest := rows[0], rows[1..];
      var long := LongEnough(rest, minDays);
      assert rows == [first] + rest;
      assert [] + long == long;
      LongTotal(rest, minDays);
      FirstOfTotal(rows, first, rest);
      FirstOfTotal([first] + long, first, long);
    }
  }

  /** Cutting a table loses counts exactly when the first line cut has any. */
  lemma CutTotal(rows: seq<Row>, k: nat)
    requires InOrder(rows) && k < |rows|
    ensures TableTotal(rows[..k]) <= TableTotal(rows)
    ensures TableTotal(rows[..k]) == TableTotal(rows) <==> rows[k].count == 0
  {
    var tail := rows[k..];
    assert rows == rows[..k] + tail && tail == [tail[0]] + tail[1..];
    SumByConcat(rows[..k], tail, (row: Row) => row.count);
    FirstOfTotal(tail, tail[0], tail[1..]);
    if rows[k].count == 0 {
      forall row | row in tail ensures row.count == 0 {
        var i :| 0 <= i < |tail| && tail[i] == row;
        assert i > 0 ==> Precedes(rows[k], rows[k + i]);
      }
      ZeroTotal(tail);
    }
  }

  /** No line seen on too few days has a count, and neither has the first line beyond the size limit. */
  ghost predicate CutsNothing(all: seq<Row>, minDays: nat, maxRules: nat) {
    && (forall row :: row in all && |row.more.days| < minDays ==> row.count == 0)
    && (|LongEnough(all, minDays)| <= maxRules || LongEnough(all, minDays)[maxRules].count == 0)
  }

  lemma DurableTotal(all: seq<Row>, minDays: nat, maxRules: nat)
    requires InOrder(all)
    ensures TableTotal(Durable(all, minDays, maxRules)) <= TableTotal(all)
    ensures TableTotal(Durable(all, minDays, maxRules)) == TableTotal(all) <==> CutsNothing(all, minDays, maxRules)
  {
    LongTotal(all, minDays);
    LongEnoughKeeps(all, minDays);
    if |LongEnough(all, minDays)| > maxRules { CutTotal(LongEnough(all, minDays), maxRules); }
  }

  /** The counts of the merged rules never exceed the well-formed block hits of the dated sessions, and add up
      to all of them exactly when the limits cut no line with a count. */
  lemma MergeConserves(sessions: seq<Session>, options: Options, g: Aggregate, all: seq<Row>, allows: seq<Row>)
    requires IsAggregate(g, all, allows, Events(sessions), options)
    ensures TableTotal(g.rules) <= BlockHits(sessions)
    ensures TableTotal(g.rules) == BlockHits(sessions) <==>
            CutsNothing(all, AtLeastOne(options.minDays, 1), AtLeastOne(options.maxRules, MAX_SAFE_INTEGER))
  {
    TableIsWorth(sessions, all);
    DurableTotal(all, AtLeastOne(options.minDays, 1), AtLeastOne(options.maxRules, MAX_SAFE_INTEGER));
  }

  lemma RowHasDay(row: Row, events: seq<Event>, axis: Axis)
    requires IsRowOf(row, events, axis)
    ensures |row.more.days| >= 1
  {
    var e := SomeReport(events, axis, row.rule);
    assert e.day in DaysOn(events, axis, row.rule);
  }

  lemma {:induction false} SomeReport(events: seq<Event>, axis: Axis, name: string) returns (e: Event)
    requires ReportsOn(events, axis, name) > 0
    ensures e in events && IsOn(e, axis, name)
    decreases |events|
  {
    var front, last := events[..|events| - 1], events[|events| - 1];
    assert events == front + [last];
    if IsOn(last, axis, name) {
      e := last;
    } else {
      EventStep(front, last, axis, name);
      e := SomeReport(front, axis, name);
    }
  }

  /** Called without limits, the merge keeps every hit of a ledger that fits its default size. */
  lemma UnlimitedMergeConserves(sessions: seq<Session>, g: Aggregate, all: seq<Row>, allows: seq<Row>)
    requires IsAggregate(g, all, allows, Events(sessions), Options(None, None)) && |all| <= MAX_SAFE_INTEGER
    ensures g.rules == all && TableTotal(g.rules) == BlockHits(sessions)
  {
    forall row | row in all ensures |row.more.days| >= 1 { RowHasDay(row, Events(sessions), Blocks); }
    NoLimitKeepsAll(all);
    MergeConserves(sessions, Options(None, None), g, all, allows);
  }

  lemma {:induction false} NoLimitKeepsAll(rows: seq<Row>)
    requires forall row :: row in rows ==> |row.more.days| >= 1
    ensures LongEnough(rows, 1) == rows
  {
    if rows != [] {
      assert rows == [rows[0]] + rows[1..];
      assert rows[0] in rows && forall row :: row in rows[1..] ==> row in rows;
      NoLimitKeepsAll(rows[1..]);
    }
  }

  // ---------- exceptions stay exceptions ----------

  /** The names a report can carry: rules the ledger can write, `@@` exactly on the allow side, and tiers
      of the catalogue. */
  ghost predicate IsWellNamed(e: Event) {
    && (e.axis == Blocks ==> IsLedgerRule(e.name) && !IsException(e.name))
    && (e.axis == Allows ==> IsLedgerRule(e.name) && IsException(e.name))
    && (e.axis == Tiers ==> e.name in TIER_IDS)
  }

  lemma NormalizedTrim(rule: string, t: string)
    requires t == Trim(rule)
    ensures IsTrimmed(t)
    ensures NormalizeLedgerRule(rule) ==
            if t == "" || t[0] == '#' || t[0] == '!' || '\r' in t || '\n' in t || '\0' in t then None else Some(t)
  {
    TrimIsTrimmed(rule);
  }

  lemma NormalizedIsLedgerRule(rule: string)
    ensures NormalizeLedgerRule(rule).Some? ==> IsLedgerRule(NormalizeLedgerRule(rule).value)
  {
    NormalizedTrim(rule, Trim(rule));
  }

  /** A text the ledger can write and read back. */
  predicate IsLedgerRule(rule: string) {
    rule != "" && IsTrimmed(rule) && rule[0] != '#' && rule[0] != '!' && '\r' !in rule && '\n' !in rule && '\0' !in rule
  }

  lemma LedgerRuleMeans(rule: string)
    ensures NormalizeLedgerRule(rule) == Some(rule) <==> IsLedgerRule(rule)
  {
    TrimIsTrimmed(rule);
  }

  lemma MarkedIsLedgerRule(rule: string, marked: string)
    requires IsLedgerRule(rule) && marked == "@@" + rule
    ensures IsLedgerRule(marked) && IsException(marked)
  {
    assert marked[|marked| - 1] == rule[|rule| - 1] && marked[0] == '@' && marked[1] == '@';
    forall k | 0 <= k < |marked| ensures marked[k] != '\r' && marked[k] != '\n' && marked[k] != '\0' {
      if k >= 2 { assert marked[k] == rule[k - 2]; }
    }
  }

  lemma MarkedStaysLedgerRule(rule: string)
    requires IsLedgerRule(rule)
    ensures IsLedgerRule(Marked(rule)) && IsException(Marked(rule))
  {
    if !IsException(rule) { MarkedIsLedgerRule(rule, "@@" + rule); }
  }

  lemma HitIsWellNamed(hit: LedgerHit, day: string, e: Event)
    requires e in HitEvent(hit, day)
    ensures IsWellNamed(e)
  {
    NormalizedIsLedgerRule(hit.name);
  }

  lemma ExceptionIsWellNamed(rule: string, day: string, e: Event)
    requires e in ExceptionEvent(rule, day)
    ensures IsWellNamed(e)
  {
    NormalizedIsLedgerRule(rule);
    MarkedStaysLedgerRule(NormalizeLedgerRule(rule).value);
  }

  lemma HitsAreWellNamed(hits: seq<LedgerHit>, day: string, e: Event)
    requires e in HitEvents(hits, day)
    ensures IsWellNamed(e)
  {
    FlatMapMembers(hits, (hit: LedgerHit) => HitEvent(hit, day), e);
    var hit :| hit in hits && e in HitEvent(hit, day);
    HitIsWellNamed(hit, day, e);
  }

  lemma TiersAreWellNamed(hits: seq<LedgerHit>, day: string, e: Event)
    requires e in TierEvents(hits, day)
    ensures IsWellNamed(e)
  {
    FlatMapMembers(hits, (hit: LedgerHit) => TierEvent(hit, day), e);
    var hit :| hit in hits && e in TierEvent(hit, day);
  }

  lemma ExceptionsAreWellNamed(rules: seq<string>, day: string, e: Event)
    requires e in ExceptionEvents(rules, day)
    ensures IsWellNamed(e)
  {
    FlatMapMembers(rules, (rule: string) => ExceptionEvent(rule, day), e);
    var rule :| rule in rules && e in ExceptionEvent(rule, day);
    ExceptionIsWellNamed(rule, day, e);
  }

  lemma DatedIsWellNamed(s: Session, day: string, e: Event)
    requires e in DatedEvents(s, day)
    ensures IsWellNamed(e)
  {
    if e in HitEvents(s.hits, day) {
      HitsAreWellNamed(s.hits, day, e);
    } else if e in TierEvents(s.tiers, day) {
      TiersAreWellNamed(s.tiers, day, e);
    } else if e in ExceptionEvents(s.exceptions, day) {
      ExceptionsAreWellNamed(s.exceptions, day, e);
    }
  }

  lemma EventsAreWellNamed(sessions: seq<Session>, e: Event)
    requires e in Events(sessions)
    ensures IsWellNamed(e)
  {
    FlatMapMembers(sessions, (s: Session) => SessionEvents(s), e);
    var s :| s in sessions && e in SessionEvents(s);
    DatedIsWellNamed(s, LedgerDateOf(s.startedAt).value, e);
  }

  lemma {:induction false} RowHasReport(events: seq<Event>, axis: Axis, name: string) returns (e: Event)
    requires ReportsOn(events, axis, name) > 0
    ensures e in events && e.axis == axis && e.name == name
    decreases |events|
  {
    var front, last := events[..|events| - 1], events[|events| - 1];
    assert events == front + [last];
    EventStep(front, last, axis, name);
    if IsOn(last, axis, name) {
      e := last;
    } else {
      e := RowHasReport(front, axis, name);
    }
  }

  /** An `@@` rule never lands among the blocks, nothing else lands among the exceptions, and every tier
      is one of the catalogue; every rule can be written to the ledger and read back. */
  lemma SidesStayApart(sessions: seq<Session>, axis: Axis, rows: seq<Row>, row: Row)
    requires IsLedgerTable(rows, Events(sessions), axis) && row in rows
    ensures axis == Blocks ==> NormalizeLedgerRule(row.rule) == Some(row.rule) && !IsException(row.rule)
    ensures axis == Allows ==> NormalizeLedgerRule(row.rule) == Some(row.rule) && IsException(row.rule)
    ensures axis == Tiers ==> row.rule in TIER_IDS
  {
    var e := RowHasReport(Events(sessions), axis, row.rule);
    EventsAreWellNamed(sessions, e);
    LedgerRuleMeans(row.rule);
  }
}
