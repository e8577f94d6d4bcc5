/** The hit-ledger text: how a merged ledger is written, and how any such file is read. */
module LedgerText {
  import opened Text
  import opened Ledger
  import opened Sums
  import Coverage
  import Ranking
  import Sorting

  // ---------- numbers ----------

  function Digit(n: nat): char
    requires n < 10
  {
    (('0' as int) + n) as char
  }

  function Digits(n: nat): (s: string)
    ensures s != "" && AllDigits(s)
  {
    if n < 10 then [Digit(n)] else Digits(n / 10) + [Digit(n % 10)]
  }

  // ---------- writing ----------

  datatype Field = Field(key: string, value: string)

  function FieldLine(f: Field): string {
    "# " + f.key + ": " + f.value
  }

  function FieldLines(fields: seq<Field>): seq<string> {
    if fields == [] then [] else FieldLines(fields[..|fields| - 1]) + [FieldLine(fields[|fields| - 1])]
  }

  function TierText(row: Row): string {
    row.rule + " " + Digits(row.count)
  }

  /** `tier count`, separated by a comma and a space. */
  function TiersText(rows: seq<Row>): string
    requires rows != []
  {
    if |rows| == 1 then TierText(rows[0]) else TierText(rows[0]) + ", " + TiersText(rows[1..])
  }

  function CountFields(g: Aggregate): seq<Field> {
    [Field("Sessions", Digits(g.sessions)), Field("Days", Digits(|g.days|))]
  }

  function DayFields(g: Aggregate): seq<Field> {
    if g.days == [] then [] else [Field("First seen", g.days[0]), Field("Last seen", g.days[|g.days| - 1])]
  }

  function TierFields(g: Aggregate): seq<Field> {
    if g.tiers == [] then []
    else
      [Field("Tiers", TiersText(g.tiers)),
       Field("Tier sessions", Digits(g.tierSessions) + " of " + Digits(g.sessions))]
  }

  function RestFields(g: Aggregate): seq<Field> {
    (if g.tierUnattributed == 0 then [] else [Field("Tier unattributed", Digits(g.tierUnattributed))]) +
    if g.tierRejected == 0 then [] else [Field("Rejected tier entries", Digits(g.tierRejected))]
  }

  function Fields(g: Aggregate): seq<Field> {
    CountFields(g) + DayFields(g) + TierFields(g) + RestFields(g)
  }

  const TITLE := "# Browser-reported rule-hit ledger"
  const LEGEND_START := "# <count> <rule>, highest first. "
  const LEGEND_MIDDLE := "@@ rules are exceptions "
  const LEGEND_END := "that fired, not blocks."
  const LEGEND := LEGEND_START + LEGEND_MIDDLE + LEGEND_END

  function RuleLine(row: Row): string {
    Digits(row.count) + " " + row.rule
  }

  function RuleLines(rows: seq<Row>): seq<string> {
    if rows == [] then [] else RuleLines(rows[..|rows| - 1]) + [RuleLine(rows[|rows| - 1])]
  }

  function ExceptionLine(row: Row): string {
    "1 " + row.rule
  }

  function ExceptionLines(rows: seq<Row>): seq<string> {
    if rows == [] then [] else ExceptionLines(rows[..|rows| - 1]) + [ExceptionLine(rows[|rows| - 1])]
  }

  function LedgerLines(g: Aggregate): seq<string> {
    [TITLE] + FieldLines(Fields(g)) + ["#", LEGEND, ""] + RuleLines(g.rules) + ExceptionLines(g.exceptions)
  }

  function JoinLines(lines: seq<string>): string {
    if lines == [] then "" else lines[0] + "\n" + JoinLines(lines[1..])
  }

  lemma LastStep<T>(s: seq<T>, k: nat)
    requires k < |s|
    ensures s[..k + 1][..k] == s[..k] && s[..k + 1][k] == s[k]
  {
  }

  method PushFields(before: seq<string>, fields: seq<Field>) returns (lines: seq<string>)
    ensures lines == before + FieldLines(fields)
  {
    lines := before;
    assert before + [] == before;
    for k := 0 to |fields|
      invariant lines == before + FieldLines(fields[..k])
    {
      LastStep(fields, k);
      lines := lines + [FieldLine(fields[k])];
    }
    assert fields[..|fields|] == fields;
  }

  method PushRules(before: seq<string>, rows: seq<Row>) returns (lines: seq<string>)
    ensures lines == before + RuleLines(rows)
  {
    lines := before;
    assert before + [] == before;
    for k := 0 to |rows|
      invariant lines == before + RuleLines(rows[..k])
    {
      LastStep(rows, k);
      lines := lines + [RuleLine(rows[k])];
    }
    assert rows[..|rows|] == rows;
  }

  method PushExceptions(before: seq<string>, rows: seq<Row>) returns (lines: seq<string>)
    ensures lines == before + ExceptionLines(rows)
  {
    lines := before;
    assert before + [] == before;
    for k := 0 to |rows|
      invariant lines == before + ExceptionLines(rows[..k])
    {
      LastStep(rows, k);
      lines := lines + [ExceptionLine(rows[k])];
    }
    assert rows[..|rows|] == rows;
  }

  method ToHitLedgerText(g: Aggregate) returns (text: string)
    ensures text == JoinLines(LedgerLines(g))
  {
    var lines := PushFields([TITLE], Fields(g));
    lines := PushRules(lines + ["#", LEGEND, ""], g.rules);
    lines := PushExceptions(lines, g.exceptions);
    text := JoinLines(lines);
  }

  // ---------- reading ----------

  function WithoutReturn(line: string): string {
    if line != "" && line[|line| - 1] == '\r' then line[..|line| - 1] else line
  }

  /** The lines of a text, each ended by a line feed that a carriage return may precede. */
  function SplitLines(text: string): seq<string>
    decreases |text|
  {
    var i := IndexOf(text, '\n', 0);
    if i < 0 then [text] else [WithoutReturn(text[..i])] + SplitLines(text[i + 1..])
  }

  predicate IsAlpha(c: char) {
    'A' <= c <= 'Z' || 'a' <= c <= 'z'
  }

  /** Letters, with inner spaces. */
  predicate IsKeyText(key: string) {
    forall k :: 0 <= k < |key| ==> IsAlpha(key[k]) || (k > 0 && key[k] == ' ')
  }

  function ReadField(body: string): Option<Field> {
    var colon := IndexOf(body, ':', 0);
    if colon <= 0 || !IsKeyText(body[..colon]) || colon + 1 == |body| then None
    else Some(Field(Lower(Trim(body[..colon])), Trim(body[colon + 1..])))
  }

  /** The field of a `# Key: value` line. */
  function ReadLedgerHeaderLine(line: string): Option<Field> {
    if StartsWith(line, "#") then ReadField(TrimStart(line[1..])) else None
  }

  function DigitsBack(s: string, i: nat): (r: nat)
    requires i <= |s|
    ensures r <= i
  {
    if i > 0 && IsDigit(s[i - 1]) then DigitsBack(s, i - 1) else i
  }

  function SpacesBack(s: string, i: nat): (r: nat)
    requires i <= |s|
    ensures r <= i
  {
    if i > 0 && IsSpace(s[i - 1]) then SpacesBack(s, i - 1) else i
  }

  /** A rule and how often it fired, as one line says it. */
  datatype Counted = Counted(rule: string, count: nat)

  function LeadingCountSplit(line: string): Option<Counted> {
    var i := DigitsFrom(line, 0);
    var j := SpacesFrom(line, i);
    if i == 0 || j == i then None
    else Some(Counted(if j < |line| then line[j..] else line[j - 1..], Number(line[..i])))
  }

  function TrailingCountSplit(line: string): Option<Counted> {
    var i := DigitsBack(line, |line|);
    var j := SpacesBack(line, i);
    if i == |line| || j == i || j == 0 then None else Some(Counted(line[..j], Number(line[i..])))
  }

  /** The count may stand on either side; a rule alone counts once. */
  function ReadCounted(line: string): Counted {
    if LeadingCountSplit(line).Some? then LeadingCountSplit(line).value
    else if TrailingCountSplit(line).Some? then TrailingCountSplit(line).value
    else Counted(line, 1)
  }

  datatype Reading = Nothing | Header(field: Field) | Hit(rule: string, count: nat) | Exception(rule: string)

  function ReadRule(line: string): Reading {
    if AllDigits(line) then Nothing
    else
      var c := ReadCounted(line);
      var rule := NormalizeLedgerRule(c.rule);
      if rule.None? || c.count == 0 then Nothing
      else if IsException(rule.value) then Exception(rule.value)
      else Hit(rule.value, c.count)
  }

  function ReadLine(raw: string): Reading {
    var line := Trim(raw);
    if line == "" then Nothing
    else if line[0] == '#' || line[0] == '!' then
      var field := ReadLedgerHeaderLine(line);
      if field.Some? then Header(field.value) else Nothing
    else ReadRule(line)
  }

  /** How the lines read, as a function value, so that lemmas about many lines do not unfold the reading
      of one. */
  predicate Read(line: string) {
    true
  }

  ghost predicate IsReader(read: string -> Reading) {
    forall line {:trigger Read(line)} :: read(line) == ReadLine(line)
  }

  lemma ReaderOf() returns (read: string -> Reading)
    ensures IsReader(read)
  {
    read := line => ReadLine(line);
  }

  function HitsOf(readings: seq<Reading>): seq<Coverage.Hit> {
    if readings == [] then []
    else
      var last := readings[|readings| - 1];
      HitsOf(readings[..|readings| - 1]) +
      if last.Hit? then [Coverage.Hit(last.rule, Ranking.Finite(last.count as real))] else []
  }

  function ExceptionsOf(readings: seq<Reading>): set<string> {
    set r | r in readings && r.Exception? :: r.rule
  }

  /** The last value of a header key. */
  function HeaderOf(readings: seq<Reading>, key: string): Option<string> {
    if readings == [] then None
    else
      var last := readings[|readings| - 1];
      if last.Header? && last.field.key == key
      then Some(last.field.value)
      else HeaderOf(readings[..|readings| - 1], key)
  }

  datatype ParsedLedger = ParsedLedger(hits: seq<Coverage.Tally>, exceptions: seq<string>, header: map<string, string>)

  ghost predicate IsParsed(p: ParsedLedger, readings: seq<Reading>) {
    && Coverage.IsTableOf(p.hits, HitsOf(readings))
    && Sorting.IsSorted(p.exceptions) && (forall x :: x in p.exceptions <==> x in ExceptionsOf(readings))
    && forall key :: (if key in p.header then Some(p.header[key]) else None) == HeaderOf(readings, key)
  }

  method ReadLines(lines: seq<string>, ghost read: string -> Reading) returns (readings: seq<Reading>)
    requires IsReader(read)
    ensures readings == MapBy(lines, read)
  {
    readings := [];
    for k := 0 to |lines|
      invariant readings == MapBy(lines[..k], read)
    {
      LastStep(lines, k);
      assert Read(lines[k]);
      readings := readings + [ReadLine(lines[k])];
    }
    assert lines[..|lines|] == lines;
  }

  lemma ExceptionsStep(readings: seq<Reading>, r: Reading)
    ensures ExceptionsOf(readings + [r]) == ExceptionsOf(readings) + if r.Exception? then {r.rule} else {}
  {
    assert forall x :: x in readings + [r] <==> x in readings || x == r;
  }

  method Tabulate(readings: seq<Reading>) returns (p: ParsedLedger)
    ensures IsParsed(p, readings)
  {
    var hits: seq<Coverage.Hit> := [];
    var exceptions: seq<string> := [];
    var header: map<string, string> := map[];
    for k := 0 to |readings|
      invariant hits == HitsOf(readings[..k])
      invariant forall x :: x in exceptions <==> x in ExceptionsOf(readings[..k])
      invariant forall key :: (if key in header then Some(header[key]) else None) == HeaderOf(readings[..k], key)
    {
      LastStep(readings, k);
      assert readings[..k + 1] == readings[..k] + [readings[k]];
      ExceptionsStep(readings[..k], readings[k]);
      match readings[k] {
        case Nothing =>
        case Header(field) => header := header[field.key := field.value];
        case Hit(rule, count) => hits := hits + [Coverage.Hit(rule, Ranking.Finite(count as real))];
        case Exception(rule) => if rule !in exceptions { exceptions := exceptions + [rule]; }
      }
    }
    assert readings[..|readings|] == readings;
    var table := Coverage.NormalizeHits(hits);
    Sorting.SortedIsInOrder(exceptions);
    forall x ensures x in Sorting.Sorted(exceptions) <==> x in exceptions { Sorting.SortedMembers(exceptions, x); }
    p := ParsedLedger(table, Sorting.Sorted(exceptions), header);
  }

  method ParseHitLedgerText(text: string, ghost read: string -> Reading) returns (p: ParsedLedger)
    requires IsReader(read)
    ensures IsParsed(p, MapBy(SplitLines(text), read))
  {
    var readings := ReadLines(SplitLines(text), read);
    p := Tabulate(readings);
  }

  // ---------- the tier tally of a header ----------

  /** `word digits`. */
  function ReadTierEntry(part: string): Option<Counted> {
    var i := WordEnd(part, 0);
    var j := SpacesFrom(part, i);
    if i == 0 || j == i || j == |part| || !AllDigits(part[j..]) then None
    else Some(Counted(part[..i], Number(part[j..])))
  }

  /** A part of a tiers value: a known tier with a positive count, or nothing that can be used. */
  function TierEntry(part: string): Option<Counted> {
    var entry := ReadTierEntry(Trim(part));
    if entry.Some? && entry.value.rule in TIER_IDS && entry.value.count > 0 then entry else None
  }

  function TierEntries(parts: seq<string>): seq<Option<Counted>> {
    MapBy(parts, TierEntry)
  }

  /** What the entries say of one tier, added up. */
  function TierCount(entries: seq<Option<Counted>>, tier: string): nat {
    if entries == [] then 0
    else
      var last := entries[|entries| - 1];
      TierCount(entries[..|entries| - 1], tier) + if last.Some? && last.value.rule == tier then last.value.count else 0
  }

  function Unreadable(entries: seq<Option<Counted>>): nat {
    if entries == [] then 0 else Unreadable(entries[..|entries| - 1]) + if entries[|entries| - 1].Some? then 0 else 1
  }

  ghost predicate ArePositive(entries: seq<Option<Counted>>) {
    forall k :: 0 <= k < |entries| && entries[k].Some? ==> entries[k].value.count > 0
  }

  function ReadInt(value: Option<string>): Option<nat> {
    if value.Some? && Trim(value.value) != "" && AllDigits(Trim(value.value))
    then Some(Number(Trim(value.value)))
    else None
  }

  /** `X of Y`. */
  function ReadSplit(value: string): Option<(nat, nat)> {
    var a := DigitsFrom(value, 0);
    var b := SpacesFrom(value, a);
    if a == 0 || b == a || !At(value, b, "of") then None
    else
      var c := SpacesFrom(value, b + 2);
      if c == b + 2 || c == |value| || !AllDigits(value[c..]) then None
      else Some((Number(value[..a]), Number(value[c..])))
  }

  datatype TierTally = TierTally(hits: map<string, nat>, tierSessions: Option<nat>, sessions: Option<nat>,
                                 rejected: nat)

  function Lookup(header: map<string, string>, key: string): Option<string> {
    if key in header then Some(header[key]) else None
  }

  ghost predicate IsTierTally(t: TierTally, header: map<string, string>) {
    "tiers" in header &&
    var entries := TierEntries(Split(header["tiers"], ','));
    var split := ReadSplit(if "tier sessions" in header then header["tier sessions"] else "");
    && (forall tier :: tier in t.hits <==> TierCount(entries, tier) > 0)
    && (forall tier :: tier in t.hits ==> t.hits[tier] == TierCount(entries, tier))
    && t.rejected == Unreadable(entries)
    && t.tierSessions == (if split.Some? then Some(split.value.0) else ReadInt(Lookup(header, "tier sessions")))
    && t.sessions == (if split.Some? then Some(split.value.1) else ReadInt(Lookup(header, "sessions")))
  }

  method ReadTierParts(parts: seq<string>) returns (entries: seq<Option<Counted>>)
    ensures entries == TierEntries(parts) && ArePositive(entries)
  {
    entries := [];
    for k := 0 to |parts|
      invariant entries == TierEntries(parts[..k]) && ArePositive(entries)
    {
      LastStep(parts, k);
      entries := entries + [TierEntry(parts[k])];
    }
    assert parts[..|parts|] == parts;
  }

  method TallyTiers(entries: seq<Option<Counted>>) returns (hits: map<string, nat>, rejected: nat)
    requires ArePositive(entries)
    ensures forall tier :: tier in hits <==> TierCount(entries, tier) > 0
    ensures forall tier :: tier in hits ==> hits[tier] == TierCount(entries, tier)
    ensures rejected == Unreadable(entries)
  {
    hits, rejected := map[], 0;
    for k := 0 to |entries|
      invariant forall tier :: tier in hits <==> TierCount(entries[..k], tier) > 0
      invariant forall tier :: tier in hits ==> hits[tier] == TierCount(entries[..k], tier)
      invariant rejected == Unreadable(entries[..k])
    {
      LastStep(entries, k);
      match entries[k] {
        case None => rejected := rejected + 1;
        case Some(e) => hits := hits[e.rule := (if e.rule in hits then hits[e.rule] else 0) + e.count];
      }
    }
    assert entries[..|entries|] == entries;
  }

  method ReadLedgerTierTally(header: map<string, string>) returns (t: Option<TierTally>)
    ensures t.None? <==> "tiers" !in header
    ensures t.Some? ==> IsTierTally(t.value, header)
  {
    if "tiers" !in header { return None; }
    var entries := ReadTierParts(Split(header["tiers"], ','));
    var hits, rejected := TallyTiers(entries);
    var split := ReadSplit(if "tier sessions" in header then header["tier sessions"] else "");
    t := Some(TierTally(
      hits,
      if split.Some? then Some(split.value.0) else ReadInt(Lookup(header, "tier sessions")),
      if split.Some? then Some(split.value.1) else ReadInt(Lookup(header, "sessions")),
      rejected));
  }
}
