/** How often a session counts for a rule: once for each entry that names the rule, and so once exactly when
    no session names a rule twice. */
module LedgerSessions {
  import opened Text
  import opened Sums
  import opened Ranking
  import opened Sorting
  import opened Ledger
  import opened LedgerTheorems

  // ---------- sessions that report a name ----------

  function Reports(s: Session, axis: Axis, name: string): nat {
    ReportsOn(SessionEvents(s), axis, name)
  }

  /** The sessions that report the name at all. */
  function SessionsWith(sessions: seq<Session>, axis: Axis, name: string): nat {
    SumBy(sessions, (s: Session) => if Reports(s, axis, name) > 0 then 1 else 0)
  }

  /** Terms add up to the number of those above zero exactly when none is above one. */
  lemma {:induction false} SumIsCountIff<T>(xs: seq<T>, f: T -> nat, g: T -> nat)
    requires forall x :: g(x) == if f(x) > 0 then 1 else 0
    ensures SumBy(xs, f) >= SumBy(xs, g)
    ensures SumBy(xs, f) == SumBy(xs, g) <==> forall x :: x in xs ==> f(x) <= 1
    decreases |xs|
  {
    if xs != [] {
      var front, last := xs[..|xs| - 1], xs[|xs| - 1];
      assert xs == front + [last];
      SumIsCountIff(front, f, g);
    }
  }

  lemma ReportsAddUp(sessions: seq<Session>, axis: Axis, name: string, reports: Session -> nat)
    requires forall s :: reports(s) == Reports(s, axis, name)
    ensures ReportsOn(Events(sessions), axis, name) == SumBy(sessions, reports)
  {
    SumOfFlatMap(sessions, (s: Session) => SessionEvents(s),
                 (e: Event) => if IsOn(e, axis, name) then 1 else 0, reports);
  }

  lemma {:induction false} SameTerms<T>(xs: seq<T>, f: T -> nat, g: T -> nat)
    requires forall x :: f(x) == g(x)
    ensures SumBy(xs, f) == SumBy(xs, g)
    decreases |xs|
  {
    if xs != [] { SameTerms(xs[..|xs| - 1], f, g); }
  }

  lemma ReportersAddUp(sessions: seq<Session>, axis: Axis, name: string, reporters: Session -> nat)
    requires forall s :: reporters(s) == if Reports(s, axis, name) > 0 then 1 else 0
    ensures SessionsWith(sessions, axis, name) == SumBy(sessions, reporters)
  {
    SameTerms(sessions, (s: Session) => if Reports(s, axis, name) > 0 then 1 else 0, reporters);
  }

  lemma ReportsOf(axis: Axis, name: string) returns (reports: Session -> nat, reporters: Session -> nat)
    ensures forall s :: reports(s) == Reports(s, axis, name)
    ensures forall s :: reporters(s) == if reports(s) > 0 then 1 else 0
    ensures forall s :: reporters(s) == if Reports(s, axis, name) > 0 then 1 else 0
  {
    reports := (s: Session) => Reports(s, axis, name);
    reporters := (s: Session) => if Reports(s, axis, name) > 0 then 1 else 0;
  }

  /** A name is counted once for each session that reports it exactly when no session reports it twice. */
  lemma CountedOnceIff(sessions: seq<Session>, axis: Axis, name: string)
    ensures ReportsOn(Events(sessions), axis, name) >= SessionsWith(sessions, axis, name)
    ensures ReportsOn(Events(sessions), axis, name) == SessionsWith(sessions, axis, name) <==>
            forall s :: s in sessions ==> Reports(s, axis, name) <= 1
  {
    var reports, reporters := ReportsOf(axis, name);
    ReportsAddUp(sessions, axis, name, reports);
    ReportersAddUp(sessions, axis, name, reporters);
    SumIsCountIff(sessions, reports, reporters);
  }

  // ---------- the entries of a session ----------

  /** The rule a hit is counted for. */
  function HitRule(hit: LedgerHit): seq<string> {
    var rule := NormalizeLedgerRule(hit.name);
    if rule.None? || !IsPositive(hit.count) then [] else [rule.value]
  }

  /** The rule an exception is counted for. */
  function ExceptionRule(rule: string): seq<string> {
    match NormalizeLedgerRule(rule)
    case None => []
    case Some(normalized) => [Marked(normalized)]
  }

  /** Every rule a session names, as often as it names it: its hits that count, its exceptions. */
  function RulesNamed(s: Session): seq<string> {
    FlatMap(s.hits, (hit: LedgerHit) => HitRule(hit)) + FlatMap(s.exceptions, (rule: string) => ExceptionRule(rule))
  }

  /** The side of the ledger a rule is counted on. */
  function SideOf(rule: string): Axis {
    if IsException(rule) then Allows else Blocks
  }

  lemma ReportsOfOne(e: Event, axis: Axis, name: string)
    ensures ReportsOn([e], axis, name) == if IsOn(e, axis, name) then 1 else 0
  {
    assert [] + [e] == [e];
    EventStep([], e, axis, name);
  }

  lemma HitReports(hit: LedgerHit, day: string, axis: Axis, name: string)
    requires axis == SideOf(name)
    ensures ReportsOn(HitEvent(hit, day), axis, name) == multiset(HitRule(hit))[name]
  {
    if HitEvent(hit, day) != [] { ReportsOfOne(HitEvent(hit, day)[0], axis, name); }
  }

  lemma ExceptionReports(rule: string, day: string, axis: Axis, name: string)
    requires axis == SideOf(name)
    ensures ReportsOn(ExceptionEvent(rule, day), axis, name) == multiset(ExceptionRule(rule))[name]
  {
    if ExceptionEvent(rule, day) != [] { ReportsOfOne(ExceptionEvent(rule, day)[0], axis, name); }
  }

  /** Reports of a list of entries are the rules the entries name. */
  lemma {:induction false} EntriesReport<T>(xs: seq<T>, events: T -> seq<Event>, rules: T -> seq<string>, axis: Axis,
                                            name: string)
    requires forall x :: ReportsOn(events(x), axis, name) == multiset(rules(x))[name]
    ensures ReportsOn(FlatMap(xs, events), axis, name) == multiset(FlatMap(xs, rules))[name]
    decreases |xs|
  {
    if xs != [] {
      var front, last := xs[..|xs| - 1], xs[|xs| - 1];
      EntriesReport(front, events, rules, axis, name);
      TotalsOfConcat(FlatMap(front, events), events(last), axis, name);
    }
  }

  /** Reports of a list of entries that are on other axes only. */
  lemma NothingReported<T>(xs: seq<T>, events: T -> seq<Event>, axis: Axis, name: string)
    requires forall x :: ReportsOn(events(x), axis, name) == 0
    ensures ReportsOn(FlatMap(xs, events), axis, name) == 0
  {
    SumOfFlatMap(xs, events, (e: Event) => if IsOn(e, axis, name) then 1 else 0, (x: T) => 0);
    SumOfNothing(xs, (x: T) => 0);
  }

  lemma TiersReportNothing(tiers: seq<LedgerHit>, day: string, axis: Axis, name: string)
    requires axis == SideOf(name)
    ensures ReportsOn(TierEvents(tiers, day), axis, name) == 0 && ReportsOn(TieredEvent(tiers, day), axis, name) == 0
  {
    forall hit ensures ReportsOn(TierEvent(hit, day), axis, name) == 0 {
      if TierEvent(hit, day) != [] { ReportsOfOne(TierEvent(hit, day)[0], axis, name); }
    }
    NothingReported(tiers, (hit: LedgerHit) => TierEvent(hit, day), axis, name);
    if tiers != [] { ReportsOfOne(TieredEvent(tiers, day)[0], axis, name); }
  }

  lemma HitsReport(hits: seq<LedgerHit>, day: string, axis: Axis, name: string)
    requires axis == SideOf(name)
    ensures ReportsOn(HitEvents(hits, day), axis, name) ==
            multiset(FlatMap(hits, (hit: LedgerHit) => HitRule(hit)))[name]
  {
    forall hit ensures ReportsOn(HitEvent(hit, day), axis, name) == multiset(HitRule(hit))[name] {
      HitReports(hit, day, axis, name);
    }
    EntriesReport(hits, (hit: LedgerHit) => HitEvent(hit, day), (hit: LedgerHit) => HitRule(hit), axis, name);
  }

  lemma ExceptionsReport(rules: seq<string>, day: string, axis: Axis, name: string)
    requires axis == SideOf(name)
    ensures ReportsOn(ExceptionEvents(rules, day), axis, name) ==
            multiset(FlatMap(rules, (rule: string) => ExceptionRule(rule)))[name]
  {
    forall rule ensures ReportsOn(ExceptionEvent(rule, day), axis, name) == multiset(ExceptionRule(rule))[name] {
      ExceptionReports(rule, day, axis, name);
    }
    EntriesReport(rules, (rule: string) => ExceptionEvent(rule, day), (rule: string) => ExceptionRule(rule), axis,
                  name);
  }

  lemma ReportsOfSix(a: seq<Event>, b: seq<Event>, c: seq<Event>, d: seq<Event>, e: seq<Event>, f: seq<Event>,
                     axis: Axis, name: string)
    ensures ReportsOn(a + b + c + d + e + f, axis, name) ==
            ReportsOn(a, axis, name) + ReportsOn(b, axis, name) + ReportsOn(c, axis, name) +
            ReportsOn(d, axis, name) + ReportsOn(e, axis, name) + ReportsOn(f, axis, name)
  {
    TotalsOfConcat(a, b, axis, name);
    TotalsOfConcat(a + b, c, axis, name);
    TotalsOfConcat(a + b + c, d, axis, name);
    TotalsOfConcat(a + b + c + d, e, axis, name);
    TotalsOfConcat(a + b + c + d + e, f, axis, name);
  }

  /** A dated session reports a rule once for each entry that names it. */
  lemma DatedReports(s: Session, day: string, name: string)
    ensures ReportsOn(DatedEvents(s, day), SideOf(name), name) == multiset(RulesNamed(s))[name]
  {
    var axis := SideOf(name);
    var first, left := Event(Accepted, "", 1, day), Event(Unattributed, "", WholeOf(s.tierUnattributed), day);
    ReportsOfOne(first, axis, name);
    ReportsOfOne(left, axis, name);
    HitsReport(s.hits, day, axis, name);
    TiersReportNothing(s.tiers, day, axis, name);
    ExceptionsReport(s.exceptions, day, axis, name);
    ReportsOfSix([first], HitEvents(s.hits, day), TieredEvent(s.tiers, day), TierEvents(s.tiers, day), [left],
                 ExceptionEvents(s.exceptions, day), axis, name);
  }

  // ---------- once for each session ----------

  lemma {:induction false} DistinctIsOnce(xs: seq<string>)
    ensures AreDistinct(xs) <==> forall x :: multiset(xs)[x] <= 1
    decreases |xs|
  {
    if xs != [] {
      var front, last := xs[..|xs| - 1], xs[|xs| - 1];
      assert xs == front + [last];
      DistinctIsOnce(front);
      if AreDistinct(xs) {
        assert last !in front;
      } else if AreDistinct(front) {
        assert last in front;
        assert multiset(xs)[last] == multiset(front)[last] + 1;
      } else {
        var x :| multiset(front)[x] > 1;
        assert multiset(xs)[x] >= multiset(front)[x];
      }
    }
  }

  /** A session counts at most once for every rule exactly when it is undated or names no rule twice. */
  lemma NamesOnce(s: Session)
    ensures (forall name :: Reports(s, SideOf(name), name) <= 1) <==>
            (LedgerDateOf(s.startedAt).Some? ==> AreDistinct(RulesNamed(s)))
  {
    DistinctIsOnce(RulesNamed(s));
    if LedgerDateOf(s.startedAt).Some? {
      var day := LedgerDateOf(s.startedAt).value;
      forall name ensures Reports(s, SideOf(name), name) == multiset(RulesNamed(s))[name] {
        DatedReports(s, day, name);
      }
    }
  }

  /** Every rule is counted once for each session that names it exactly when no dated session names a rule twice:
      in two hits, or, for an exception, in two exceptions or in a hit and an exception. */
  lemma SessionsCountOnceIff(sessions: seq<Session>)
    ensures (forall name :: ReportsOn(Events(sessions), SideOf(name), name) ==
                            SessionsWith(sessions, SideOf(name), name)) <==>
            forall s :: s in sessions && LedgerDateOf(s.startedAt).Some? ==> AreDistinct(RulesNamed(s))
  {
    forall name
      ensures ReportsOn(Events(sessions), SideOf(name), name) == SessionsWith(sessions, SideOf(name), name) <==>
              forall s :: s in sessions ==> Reports(s, SideOf(name), name) <= 1
    {
      CountedOnceIff(sessions, SideOf(name), name);
    }
    forall s
      ensures (forall name :: Reports(s, SideOf(name), name) <= 1) <==>
              (LedgerDateOf(s.startedAt).Some? ==> AreDistinct(RulesNamed(s)))
    {
      NamesOnce(s);
    }
  }

  /** The row of a merged table says so: its sessions are those that name its rule, under the same condition. */
  lemma RowsCountSessions(sessions: seq<Session>, axis: Axis, rows: seq<Row>, row: Row)
    requires axis == Blocks || axis == Allows
    requires IsLedgerTable(rows, Events(sessions), axis) && row in rows
    requires forall s :: s in sessions && LedgerDateOf(s.startedAt).Some? ==> AreDistinct(RulesNamed(s))
    ensures row.more.sessions == SessionsWith(sessions, axis, row.rule)
  {
    SidesStayApart(sessions, axis, rows, row);
    SessionsCountOnceIff(sessions);
    assert axis == SideOf(row.rule);
  }

  // ---------- a session that counts twice ----------

  /** One session that lists `a` twice. */
  function Twice(): Session {
    Session("2024-01-01", [LedgerHit("a", Finite(1.0)), LedgerHit("a", Finite(1.0))], [], NotFinite, [])
  }

  lemma FirstIsOne()
    ensures Number("01") == 1 && AllDigits("01")
  {
    assert "01"[..1] == "0" && "0"[..0] == "";
    assert Number("0") == 0;
  }

  lemma DateIsRead(t: string, year: string, month: string, day: string)
    requires |t| == 10 && !IsSpace(t[0]) && !IsSpace(t[9]) && t[4] == '-' && t[7] == '-'
    requires t[..4] == year && t[5..7] == month && t[8..10] == day
    requires AllDigits(year) && AllDigits(month) && AllDigits(day)
    requires 1 <= Number(month) <= 12 && 1 <= Number(day) <= 31
    ensures LedgerDateOf(t).Some?
  {
    TrimIsTrimmed(t);
  }

  lemma TwiceIsDated()
    ensures LedgerDateOf("2024-01-01").Some?
  {
    var t := "2024-01-01";
    FirstIsOne();
    DateIsRead(t, "2024", "01", "01");
  }

  lemma FlatMapOfTwo<T, U>(x: T, f: T -> seq<U>)
    ensures FlatMap([x, x], f) == f(x) + f(x)
  {
    assert [x, x] == [x] + [x] && [x] == [] + [x];
    FlatMapAppend([x], x, f);
    FlatMapAppend([], x, f);
    assert FlatMap([], f) == [] && [] + f(x) == f(x);
  }

  lemma RuleOfHit(hit: LedgerHit)
    requires IsLedgerRule(hit.name) && IsPositive(hit.count)
    ensures HitRule(hit) == [hit.name]
  {
    LedgerRuleMeans(hit.name);
  }

  lemma NamesOfTwice()
    ensures RulesNamed(Twice()) == ["a", "a"]
  {
    var hit := LedgerHit("a", Finite(1.0));
    RuleOfHit(hit);
    FlatMapOfTwo(hit, (h: LedgerHit) => HitRule(h));
  }

  lemma SumOfOne<T>(x: T, f: T -> nat)
    ensures SumBy([x], f) == f(x)
  {
    assert [x][..0] == [];
  }

  /** A dated session alone is counted for a rule once for each entry that names it. */
  lemma AloneCounts(s: Session, name: string)
    requires LedgerDateOf(s.startedAt).Some?
    ensures ReportsOn(Events([s]), SideOf(name), name) == multiset(RulesNamed(s))[name]
    ensures SessionsWith([s], SideOf(name), name) == if name in RulesNamed(s) then 1 else 0
  {
    DatedReports(s, LedgerDateOf(s.startedAt).value, name);
    var reports, reporters := ReportsOf(SideOf(name), name);
    ReportsAddUp([s], SideOf(name), name, reports);
    ReportersAddUp([s], SideOf(name), name, reporters);
    SumOfOne(s, reports);
    SumOfOne(s, reporters);
  }

  /** One session with the same rule in two entries is counted as two. */
  lemma OneSessionCountsTwice()
    ensures ReportsOn(Events([Twice()]), Blocks, "a") == 2 && SessionsWith([Twice()], Blocks, "a") == 1
  {
    TwiceIsDated();
    NamesOfTwice();
    AloneCounts(Twice(), "a");
    assert SideOf("a") == Blocks;
  }
}
