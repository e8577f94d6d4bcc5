/** Merging browser-reported sessions into one ledger: counts, sessions and days per rule, whatever the
    order the sessions come in. */
module Ledger {
  import opened Text
  import opened Sums
  import opened Ranking
  import opened Sorting

  // ---------- sessions ----------

  /** A count as it was reported: a number, or something that is not one. */
  datatype LedgerHit = LedgerHit(name: string, count: Count)

  datatype Session = Session(
    startedAt: string,
    hits: seq<LedgerHit>,
    tiers: seq<LedgerHit>,
    tierUnattributed: Count,
    exceptions: seq<string>)

  const TIER_IDS: set<string> :=
    {"tier_core", "tier_ads", "tier_privacy", "tier_annoyances", "tier_security", "tier_unclassified"}

  function Number(digits: string): nat {
    if digits == "" then 0
    else
      var c := digits[|digits| - 1];
      Number(digits[..|digits| - 1]) * 10 + if IsDigit(c) then (c as int) - ('0' as int) else 0
  }

  predicate AllDigits(s: string) {
    forall k :: 0 <= k < |s| ==> IsDigit(s[k])
  }

  /** The UTC date a timestamp starts with, or None when it is not one. */
  function LedgerDateOf(timestamp: string): Option<string> {
    var t := Trim(timestamp);
    if |t| < 10 then None
    else if !AllDigits(t[..4]) || t[4] != '-' || !AllDigits(t[5..7]) || t[7] != '-' || !AllDigits(t[8..10]) then None
    else if !(1 <= Number(t[5..7]) <= 12) || !(1 <= Number(t[8..10]) <= 31) then None
    else Some(t[..10])
  }

  /** A rule as the ledger writes it, or None when it could corrupt the format. */
  function NormalizeLedgerRule(rule: string): Option<string> {
    var t := Trim(rule);
    if t == "" || t[0] == '#' || t[0] == '!' || '\r' in t || '\n' in t || '\0' in t then None else Some(t)
  }

  predicate IsPositive(c: Count) {
    c.Finite? && c.value > 0.0
  }

  function WholeOf(c: Count): nat {
    if IsPositive(c) then c.value.Floor else 0
  }

  predicate IsException(rule: string) {
    StartsWith(rule, "@@")
  }

  function Marked(rule: string): string {
    if IsException(rule) then rule else "@@" + rule
  }

  // ---------- what a session reports ----------

  /** What a report is charged to. */
  datatype Axis = Blocks | Allows | Tiers | Accepted | Tiered | Unattributed | RejectedTiers

  datatype Event = Event(axis: Axis, name: string, count: nat, day: string)

  function HitEvent(hit: LedgerHit, day: string): seq<Event> {
    var rule := NormalizeLedgerRule(hit.name);
    if rule.None? || !IsPositive(hit.count) then []
    else [Event(if IsException(rule.value) then Allows else Blocks, rule.value, WholeOf(hit.count), day)]
  }

  function TierEvent(hit: LedgerHit, day: string): seq<Event> {
    if hit.name !in TIER_IDS then [Event(RejectedTiers, "", 1, day)]
    else if !IsPositive(hit.count) then []
    else [Event(Tiers, hit.name, WholeOf(hit.count), day)]
  }

  function ExceptionEvent(rule: string, day: string): seq<Event> {
    match NormalizeLedgerRule(rule)
    case None => []
    case Some(normalized) => [Event(Allows, Marked(normalized), 1, day)]
  }

  function HitEvents(hits: seq<LedgerHit>, day: string): seq<Event> {
    FlatMap(hits, (hit: LedgerHit) => HitEvent(hit, day))
  }

  function TierEvents(hits: seq<LedgerHit>, day: string): seq<Event> {
    FlatMap(hits, (hit: LedgerHit) => TierEvent(hit, day))
  }

  function ExceptionEvents(rules: seq<string>, day: string): seq<Event> {
    FlatMap(rules, (rule: string) => ExceptionEvent(rule, day))
  }

  function TieredEvent(tiers: seq<LedgerHit>, day: string): seq<Event> {
    if tiers == [] then [] else [Event(Tiered, "", 1, day)]
  }

  function DatedEvents(s: Session, day: string): seq<Event> {
    [Event(Accepted, "", 1, day)] + HitEvents(s.hits, day) + TieredEvent(s.tiers, day) + TierEvents(s.tiers, day) +
    [Event(Unattributed, "", WholeOf(s.tierUnattributed), day)] + ExceptionEvents(s.exceptions, day)
  }

  /** Everything one session reports; an undated session reports nothing. */
  function SessionEvents(s: Session): seq<Event> {
    match LedgerDateOf(s.startedAt)
    case None => []
    case Some(day) => DatedEvents(s, day)
  }

  function Events(sessions: seq<Session>): seq<Event> {
    FlatMap(sessions, (s: Session) => SessionEvents(s))
  }

  // ---------- adding up ----------

  predicate IsOn(e: Event, axis: Axis, name: string) {
    e.axis == axis && e.name == name
  }

  function CountOn(events: seq<Event>, axis: Axis, name: string): nat {
    SumBy(events, (e: Event) => if IsOn(e, axis, name) then e.count else 0)
  }

  function ReportsOn(events: seq<Event>, axis: Axis, name: string): nat {
    SumBy(events, (e: Event) => if IsOn(e, axis, name) then 1 else 0)
  }

  function DaysOn(events: seq<Event>, axis: Axis, name: string): set<string> {
    set e | e in events && IsOn(e, axis, name) :: e.day
  }

  datatype Accumulator = Accumulator(count: nat, sessions: nat, days: seq<string>)

  /** The map holds, for every name reported on the axis, its count, its reports and its days. */
  ghost predicate IsTally(m: map<string, Accumulator>, events: seq<Event>, axis: Axis) {
    && (forall name :: name in m <==> ReportsOn(events, axis, name) > 0)
    && (forall name :: name in m ==>
          m[name].count == CountOn(events, axis, name) && m[name].sessions == ReportsOn(events, axis, name) &&
          IsDayList(m[name].days, DaysOn(events, axis, name)))
  }

  ghost predicate IsDayList(days: seq<string>, all: set<string>) {
    (forall d :: d in days <==> d in all) && AreDistinct(days)
  }

  function AddDay(days: seq<string>, day: string): seq<string> {
    if day in days then days else days + [day]
  }

  function Accumulate(m: map<string, Accumulator>, name: string, count: nat, day: string): map<string, Accumulator> {
    var existing := if name in m then m[name] else Accumulator(0, 0, []);
    m[name := Accumulator(existing.count + count, existing.sessions + 1, AddDay(existing.days, day))]
  }

  lemma EventStep(events: seq<Event>, e: Event, axis: Axis, name: string)
    ensures CountOn(events + [e], axis, name) ==
            CountOn(events, axis, name) + if IsOn(e, axis, name) then e.count else 0
    ensures ReportsOn(events + [e], axis, name) == ReportsOn(events, axis, name) + if IsOn(e, axis, name) then 1 else 0
    ensures DaysOn(events + [e], axis, name) == DaysOn(events, axis, name) + if IsOn(e, axis, name) then {e.day} else {}
  {
    SumByAppend(events, e, (x: Event) => if IsOn(x, axis, name) then x.count else 0);
    SumByAppend(events, e, (x: Event) => if IsOn(x, axis, name) then 1 else 0);
    assert forall x :: x in events + [e] <==> x in events || x == e;
  }

  lemma {:induction false} NoReportsNothing(events: seq<Event>, axis: Axis, name: string)
    requires ReportsOn(events, axis, name) == 0
    ensures CountOn(events, axis, name) == 0 && DaysOn(events, axis, name) == {}
    decreases |events|
  {
    if events != [] {
      var front, last := events[..|events| - 1], events[|events| - 1];
      assert events == front + [last];
      EventStep(front, last, axis, name);
      NoReportsNothing(front, axis, name);
    }
  }

  lemma DayAdded(days: seq<string>, all: set<string>, day: string)
    requires IsDayList(days, all)
    ensures IsDayList(AddDay(days, day), all + {day})
  {
  }

  lemma TallyKept(m: map<string, Accumulator>, events: seq<Event>, e: Event, axis: Axis)
    requires IsTally(m, events, axis) && e.axis != axis
    ensures IsTally(m, events + [e], axis)
  {
    forall name ensures CountOn(events + [e], axis, name) == CountOn(events, axis, name) &&
                        ReportsOn(events + [e], axis, name) == ReportsOn(events, axis, name) &&
                        DaysOn(events + [e], axis, name) == DaysOn(events, axis, name)
    {
      EventStep(events, e, axis, name);
    }
  }

  lemma TallyGrown(m: map<string, Accumulator>, events: seq<Event>, e: Event)
    requires IsTally(m, events, e.axis)
    ensures IsTally(Accumulate(m, e.name, e.count, e.day), events + [e], e.axis)
  {
    var grown := Accumulate(m, e.name, e.count, e.day);
    if e.name !in m { NoReportsNothing(events, e.axis, e.name); }
    DayAdded(if e.name in m then m[e.name].days else [], DaysOn(events, e.axis, e.name), e.day);
    EventStep(events, e, e.axis, e.name);
    forall name | name != e.name
      ensures name in grown <==> ReportsOn(events + [e], e.axis, name) > 0
      ensures name in grown ==> grown[name].count == CountOn(events + [e], e.axis, name) &&
                                grown[name].sessions == ReportsOn(events + [e], e.axis, name) &&
                                IsDayList(grown[name].days, DaysOn(events + [e], e.axis, name))
    {
      EventStep(events, e, e.axis, name);
    }
  }

  // ---------- the merged ledger ----------

  /** The reports and the days of one line of a ledger table. */
  datatype Kept = Kept(sessions: nat, days: seq<string>)

  type Row = Ranked<Kept>

  ghost predicate IsRowOf(row: Row, events: seq<Event>, axis: Axis) {
    && row.more.sessions == ReportsOn(events, axis, row.rule) > 0
    && row.count == CountOn(events, axis, row.rule)
    && IsDayList(row.more.days, DaysOn(events, axis, row.rule)) && IsSorted(row.more.days)
  }

  /** One line for each name reported on the axis, largest count first. */
  ghost predicate IsLedgerTable(rows: seq<Row>, events: seq<Event>, axis: Axis) {
    InOrder(rows) && forall row: Row :: row in rows <==> IsRowOf(row, events, axis)
  }

  function LongEnough(rows: seq<Row>, minDays: nat): seq<Row> {
    if rows == [] then []
    else (if |rows[0].more.days| >= minDays then [rows[0]] else []) + LongEnough(rows[1..], minDays)
  }

  /** The rows seen on enough days, the largest `maxRules` of them. */
  function Durable(rows: seq<Row>, minDays: nat, maxRules: nat): seq<Row> {
    var long := LongEnough(rows, minDays);
    if |long| > maxRules then long[..maxRules] else long
  }

  datatype Aggregate = Aggregate(
    rules: seq<Row>,
    exceptions: seq<Row>,
    tiers: seq<Row>,
    tierSessions: nat,
    tierUnattributed: nat,
    tierRejected: nat,
    sessions: nat,
    days: seq<string>)

  datatype Options = Options(minDays: Option<real>, maxRules: Option<real>)

  function AtLeastOne(value: Option<real>, default: nat): nat {
    if value.None? then default else if value.value < 1.0 then 1 else value.value.Floor
  }

  const MAX_SAFE_INTEGER: nat := 9007199254740991

  /** The aggregate of some reports; `all` and `allows` are its tables before they are cut. */
  ghost predicate IsAggregate(g: Aggregate, all: seq<Row>, allows: seq<Row>, events: seq<Event>, options: Options) {
    var minDays := AtLeastOne(options.minDays, 1);
    var maxRules := AtLeastOne(options.maxRules, MAX_SAFE_INTEGER);
    && IsLedgerTable(all, events, Blocks) && g.rules == Durable(all, minDays, maxRules)
    && IsLedgerTable(allows, events, Allows) && g.exceptions == Durable(allows, minDays, maxRules)
    && IsLedgerTable(g.tiers, events, Tiers)
    && g.sessions == CountOn(events, Accepted, "") && g.tierSessions == CountOn(events, Tiered, "")
    && g.tierUnattributed == CountOn(events, Unattributed, "") && g.tierRejected == CountOn(events, RejectedTiers, "")
    && IsDayList(g.days, DaysOn(events, Accepted, "")) && IsSorted(g.days)
  }

  lemma SortedDays(days: seq<string>, all: set<string>)
    requires IsDayList(days, all)
    ensures IsDayList(Sorted(days), all) && IsSorted(Sorted(days))
  {
    SortedIsInOrder(days);
    DistinctStaysDistinct(days);
    forall d ensures d in Sorted(days) <==> d in all { SortedMembers(days, d); }
  }

  lemma RowIsUnique(a: Row, b: Row, events: seq<Event>, axis: Axis)
    requires IsRowOf(a, events, axis) && IsRowOf(b, events, axis) && a.rule == b.rule
    ensures a == b
  {
    SortedIsUnique(a.more.days, b.more.days);
  }

  method Finalize(m: map<string, Accumulator>, ghost events: seq<Event>, ghost axis: Axis) returns (rows: seq<Row>)
    requires IsTally(m, events, axis)
    ensures IsLedgerTable(rows, events, axis)
  {
    rows := [];
    var left := m.Keys;
    while left != {}
      invariant left <= m.Keys && InOrder(rows)
      invariant forall row: Row :: row in rows <==> row.rule !in left && IsRowOf(row, events, axis)
    {
      var name :| name in left;
      var row := Ranked(name, m[name].count, Kept(m[name].sessions, Sorted(m[name].days)));
      SortedDays(m[name].days, DaysOn(events, axis, name));
      forall other: Row | IsRowOf(other, events, axis) && other.rule == name ensures other == row {
        RowIsUnique(other, row, events, axis);
      }
      var at := Place(rows, row);
      assert rows == rows[..at] + rows[at..];
      rows := rows[..at] + [row] + rows[at..];
      left := left - {name};
    }
    forall row: Row | IsRowOf(row, events, axis) ensures row.rule in m.Keys { }
  }

  // ---------- the merge ----------

  /** The maps and counters the merge keeps while it reads. */
  datatype Running = Running(
    blocks: map<string, Accumulator>,
    allows: map<string, Accumulator>,
    tiers: map<string, Accumulator>,
    days: seq<string>,
    accepted: nat,
    tiered: nat,
    unattributed: nat,
    rejected: nat)

  ghost predicate IsRunning(r: Running, events: seq<Event>) {
    && IsTally(r.blocks, events, Blocks) && IsTally(r.allows, events, Allows) && IsTally(r.tiers, events, Tiers)
    && IsDayList(r.days, DaysOn(events, Accepted, ""))
    && r.accepted == CountOn(events, Accepted, "") && r.tiered == CountOn(events, Tiered, "")
    && r.unattributed == CountOn(events, Unattributed, "") && r.rejected == CountOn(events, RejectedTiers, "")
  }

  /** What one report adds to the running maps and counters. */
  function Charge(r: Running, e: Event): Running {
    match e.axis
    case Blocks => r.(blocks := Accumulate(r.blocks, e.name, e.count, e.day))
    case Allows => r.(allows := Accumulate(r.allows, e.name, e.count, e.day))
    case Tiers => r.(tiers := Accumulate(r.tiers, e.name, e.count, e.day))
    case Accepted => r.(days := AddDay(r.days, e.day), accepted := r.accepted + e.count)
    case Tiered => r.(tiered := r.tiered + e.count)
    case Unattributed => r.(unattributed := r.unattributed + e.count)
    case RejectedTiers => r.(rejected := r.rejected + e.count)
  }

  predicate IsNamed(e: Event) {
    e.axis == Blocks || e.axis == Allows || e.axis == Tiers || e.name == ""
  }

  lemma TalliesCharged(r: Running, events: seq<Event>, e: Event)
    requires IsRunning(r, events) && IsNamed(e)
    ensures var after := Charge(r, e);
      IsTally(after.blocks, events + [e], Blocks) && IsTally(after.allows, events + [e], Allows) &&
      IsTally(after.tiers, events + [e], Tiers)
  {
    if e.axis == Blocks { TallyGrown(r.blocks, events, e); } else { TallyKept(r.blocks, events, e, Blocks); }
    if e.axis == Allows { TallyGrown(r.allows, events, e); } else { TallyKept(r.allows, events, e, Allows); }
    if e.axis == Tiers { TallyGrown(r.tiers, events, e); } else { TallyKept(r.tiers, events, e, Tiers); }
  }

  lemma CountersCharged(r: Running, events: seq<Event>, e: Event)
    requires IsRunning(r, events) && IsNamed(e)
    ensures var after := Charge(r, e);
      && IsDayList(after.days, DaysOn(events + [e], Accepted, ""))
      && after.accepted == CountOn(events + [e], Accepted, "") && after.tiered == CountOn(events + [e], Tiered, "")
      && after.unattributed == CountOn(events + [e], Unattributed, "")
      && after.rejected == CountOn(events + [e], RejectedTiers, "")
  {
    EventStep(events, e, Accepted, "");
    EventStep(events, e, Tiered, "");
    EventStep(events, e, Unattributed, "");
    EventStep(events, e, RejectedTiers, "");
    DayAdded(r.days, DaysOn(events, Accepted, ""), e.day);
    assert DaysOn(events, Accepted, "") + {} == DaysOn(events, Accepted, "");
  }

  method ChargeOne(r: Running, e: Event, ghost events: seq<Event>) returns (after: Running)
    requires IsRunning(r, events) && IsNamed(e)
    ensures IsRunning(after, events + [e])
  {
    TalliesCharged(r, events, e);
    CountersCharged(r, events, e);
    after := Charge(r, e);
  }

  lemma FirstOf<T>(xs: seq<T>, k: nat)
    requires k < |xs|
    ensures xs[..k + 1] == xs[..k] + [xs[k]]
  {
  }

  lemma Regroup<T>(a: seq<T>, b: seq<T>, x: T)
    ensures a + (b + [x]) == a + b + [x] && a + (b + []) == a + b
  {
  }

  /** An `@@` rule among the hits is an exception; counting it as a block would invert it. */
  method ChargeHits(r: Running, hits: seq<LedgerHit>, day: string, ghost events: seq<Event>) returns (after: Running)
    requires IsRunning(r, events)
    ensures IsRunning(after, events + HitEvents(hits, day))
  {
    after := r;
    assert events + [] == events;
    for k := 0 to |hits|
      invariant IsRunning(after, events + HitEvents(hits[..k], day))
    {
      FirstOf(hits, k);
      FlatMapAppend(hits[..k], hits[k], (hit: LedgerHit) => HitEvent(hit, day));
      var rule := NormalizeLedgerRule(hits[k].name);
      if rule.None? || !IsPositive(hits[k].count) {
        Regroup(events, HitEvents(hits[..k], day), Event(Accepted, "", 0, day));
        continue;
      }
      var e := Event(if IsException(rule.value) then Allows else Blocks, rule.value, WholeOf(hits[k].count), day);
      Regroup(events, HitEvents(hits[..k], day), e);
      after := ChargeOne(after, e, events + HitEvents(hits[..k], day));
    }
    assert hits[..|hits|] == hits;
  }

  /** A tier the catalogue does not know is refused and counted. */
  method ChargeTiers(r: Running, hits: seq<LedgerHit>, day: string, ghost events: seq<Event>) returns (after: Running)
    requires IsRunning(r, events)
    ensures IsRunning(after, events + TierEvents(hits, day))
  {
    after := r;
    assert events + [] == events;
    for k := 0 to |hits|
      invariant IsRunning(after, events + TierEvents(hits[..k], day))
    {
      FirstOf(hits, k);
      FlatMapAppend(hits[..k], hits[k], (hit: LedgerHit) => TierEvent(hit, day));
      var e := Event(RejectedTiers, "", 1, day);
      if hits[k].name in TIER_IDS {
        if !IsPositive(hits[k].count) {
          Regroup(events, TierEvents(hits[..k], day), e);
          continue;
        }
        e := Event(Tiers, hits[k].name, WholeOf(hits[k].count), day);
      }
      Regroup(events, TierEvents(hits[..k], day), e);
      after := ChargeOne(after, e, events + TierEvents(hits[..k], day));
    }
    assert hits[..|hits|] == hits;
  }

  method ChargeExceptions(r: Running, rules: seq<string>, day: string, ghost events: seq<Event>)
      returns (after: Running)
    requires IsRunning(r, events)
    ensures IsRunning(after, events + ExceptionEvents(rules, day))
  {
    after := r;
    assert events + [] == events;
    for k := 0 to |rules|
      invariant IsRunning(after, events + ExceptionEvents(rules[..k], day))
    {
      FirstOf(rules, k);
      FlatMapAppend(rules[..k], rules[k], (rule: string) => ExceptionEvent(rule, day));
      var normalized := NormalizeLedgerRule(rules[k]);
      if normalized.None? {
        Regroup(events, ExceptionEvents(rules[..k], day), Event(Accepted, "", 0, day));
        continue;
      }
      var e := Event(Allows, Marked(normalized.value), 1, day);
      Regroup(events, ExceptionEvents(rules[..k], day), e);
      after := ChargeOne(after, e, events + ExceptionEvents(rules[..k], day));
    }
    assert rules[..|rules|] == rules;
  }

  lemma JoinSix<T>(x: seq<T>, a: seq<T>, b: seq<T>, c: seq<T>, d: seq<T>, e: seq<T>, f: seq<T>)
    ensures x + (a + b + c + d + e + f) == x + a + b + c + (d + e + f)
  {
  }

  lemma JoinThree<T>(x: seq<T>, d: seq<T>, e: seq<T>, f: seq<T>)
    ensures x + (d + e + f) == x + d + e + f
  {
  }

  method ChargeTiered(r: Running, tiers: seq<LedgerHit>, day: string, ghost events: seq<Event>) returns (after: Running)
    requires IsRunning(r, events)
    ensures IsRunning(after, events + TieredEvent(tiers, day))
  {
    if tiers == [] {
      assert events + [] == events;
      return r;
    }
    after := ChargeOne(r, Event(Tiered, "", 1, day), events);
  }

  method ChargeTail(r: Running, s: Session, day: string, ghost events: seq<Event>) returns (after: Running)
    requires IsRunning(r, events)
    ensures IsRunning(after, events + (TierEvents(s.tiers, day) +
                                       [Event(Unattributed, "", WholeOf(s.tierUnattributed), day)] +
                                       ExceptionEvents(s.exceptions, day)))
  {
    var left := Event(Unattributed, "", WholeOf(s.tierUnattributed), day);
    after := ChargeTiers(r, s.tiers, day, events);
    after := ChargeOne(after, left, events + TierEvents(s.tiers, day));
    after := ChargeExceptions(after, s.exceptions, day, events + TierEvents(s.tiers, day) + [left]);
    JoinThree(events, TierEvents(s.tiers, day), [left], ExceptionEvents(s.exceptions, day));
  }

  method ChargeSession(r: Running, s: Session, day: string, ghost events: seq<Event>) returns (after: Running)
    requires IsRunning(r, events)
    ensures IsRunning(after, events + DatedEvents(s, day))
  {
    var first := Event(Accepted, "", 1, day);
    after := ChargeOne(r, first, events);
    after := ChargeHits(after, s.hits, day, events + [first]);
    after := ChargeTiered(after, s.tiers, day, events + [first] + HitEvents(s.hits, day));
    after := ChargeTail(after, s, day, events + [first] + HitEvents(s.hits, day) + TieredEvent(s.tiers, day));
    JoinSix(events, [first], HitEvents(s.hits, day), TieredEvent(s.tiers, day), TierEvents(s.tiers, day),
            [Event(Unattributed, "", WholeOf(s.tierUnattributed), day)], ExceptionEvents(s.exceptions, day));
  }

  method ReadSessions(sessions: seq<Session>) returns (r: Running)
    ensures IsRunning(r, Events(sessions))
  {
    r := Running(map[], map[], map[], [], 0, 0, 0, 0);
    NothingReported(r);
    for k := 0 to |sessions|
      invariant IsRunning(r, Events(sessions[..k]))
    {
      FirstOf(sessions, k);
      FlatMapAppend(sessions[..k], sessions[k], (s: Session) => SessionEvents(s));
      var day := LedgerDateOf(sessions[k].startedAt);
      if day.None? {
        assert Events(sessions[..k]) + [] == Events(sessions[..k]);
        continue;
      }
      r := ChargeSession(r, sessions[k], day.value, Events(sessions[..k]));
    }
    assert sessions[..|sessions|] == sessions;
  }

  lemma NothingReported(r: Running)
    requires r == Running(map[], map[], map[], [], 0, 0, 0, 0)
    ensures IsRunning(r, [])
  {
  }

  /** The last two results, the tables before they are cut, are for the contract only. */
  method MergeBrowserLedger(sessions: seq<Session>, options: Options)
    returns (g: Aggregate, ghost all: seq<Row>, ghost allows: seq<Row>)
    ensures IsAggregate(g, all, allows, Events(sessions), options)
  {
    var minDays := AtLeastOne(options.minDays, 1);
    var maxRules := AtLeastOne(options.maxRules, MAX_SAFE_INTEGER);
    var r := ReadSessions(sessions);
    ghost var events := Events(sessions);
    var rules := Finalize(r.blocks, events, Blocks);
    var exceptions := Finalize(r.allows, events, Allows);
    var tiers := Finalize(r.tiers, events, Tiers);
    SortedDays(r.days, DaysOn(events, Accepted, ""));
    g := Aggregate(Durable(rules, minDays, maxRules), Durable(exceptions, minDays, maxRules), tiers,
                   r.tiered, r.unattributed, r.rejected, r.accepted, Sorted(r.days));
    all, allows := rules, exceptions;
  }
}
