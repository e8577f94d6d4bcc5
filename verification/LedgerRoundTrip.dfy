/** Writing a merged ledger and reading it back gives the same hits, exceptions and tier counts. */
module LedgerRoundTrip {
  import opened Text
  import opened Ledger
  import opened Sums
  import opened LedgerTheorems
  import opened LedgerText
  import Coverage
  import opened Ranking
  import Sorting

  // ---------- numbers ----------

  lemma {:induction false} NumberOfDigits(n: nat)
    ensures Number(Digits(n)) == n
  {
    if n >= 10 {
      NumberOfDigits(n / 10);
      assert Digits(n)[..|Digits(n)| - 1] == Digits(n / 10);
    } else {
      assert Digits(n)[..|Digits(n)| - 1] == "";
    }
  }

  lemma DigitsAreNoSpace(s: string, k: nat)
    requires AllDigits(s) && k < |s|
    ensures !IsSpace(s[k]) && s[k] != '#' && s[k] != '!' && s[k] != '\n' && s[k] != '\r' && s[k] != ',' && s[k] != ':'
  {
    assert IsDigit(s[k]);
  }

  // ---------- lines ----------

  /** A line that survives being joined and split. */
  predicate IsLine(line: string) {
    '\n' !in line && '\r' !in line
  }

  lemma SplitFirst(line: string, rest: string)
    requires IsLine(line)
    ensures SplitLines(line + "\n" + rest) == [line] + SplitLines(rest)
  {
    var text := line + "\n" + rest;
    IndexOfIs(text, '\n', 0, |line|);
    assert text[..|line|] == line && text[|line| + 1..] == rest;
  }

  /** Splitting joined lines gives them back, and the empty rest. */
  lemma {:induction false} SplitOfJoined(lines: seq<string>)
    requires forall line :: line in lines ==> IsLine(line)
    ensures SplitLines(JoinLines(lines)) == lines + [""]
  {
    if lines == [] {
      assert IndexOf("", '\n', 0) == -1;
    } else {
      assert lines == [lines[0]] + lines[1..];
      assert lines[0] in lines && forall line :: line in lines[1..] ==> line in lines;
      SplitOfJoined(lines[1..]);
      SplitFirst(lines[0], JoinLines(lines[1..]));
    }
  }

  // ---------- one rule line ----------

  lemma CountedLine(digits: string, rule: string, line: string)
    requires digits != "" && AllDigits(digits) && IsLedgerRule(rule) && line == digits + " " + rule
    ensures LeadingCountSplit(line) == Some(Counted(rule, Number(digits))) && !AllDigits(line)
  {
    assert line[|digits|] == ' ' && line[|digits| + 1] == rule[0] && line[..|digits|] == digits;
    forall k | 0 <= k < |digits| ensures IsDigit(line[k]) { assert line[k] == digits[k] && IsDigit(digits[k]); }
    DigitsRead(line, 0, |digits|);
    SpacesRead(line, |digits|, |digits| + 1);
    assert line[|digits| + 1..] == rule;
    assert !IsDigit(line[|digits|]);
  }

  lemma CountedLineIsTrimmed(digits: string, rule: string, line: string)
    requires digits != "" && AllDigits(digits) && IsLedgerRule(rule) && line == digits + " " + rule
    ensures IsTrimmed(line) && line != "" && line[0] != '#' && line[0] != '!' && IsLine(line)
  {
    DigitsAreNoSpace(digits, 0);
    assert line[0] == digits[0] && line[|line| - 1] == rule[|rule| - 1];
    forall k | 0 <= k < |line| ensures line[k] != '\n' && line[k] != '\r' {
      if k < |digits| {
        DigitsAreNoSpace(digits, k);
      } else if k > |digits| {
        assert line[k] == rule[k - |digits| - 1];
      }
    }
  }

  function ReadCount(rule: string, count: nat): Reading {
    if count == 0 then Nothing else if IsException(rule) then Exception(rule) else Hit(rule, count)
  }

  lemma RuleReading(line: string, rule: string, count: nat)
    requires !AllDigits(line) && LeadingCountSplit(line) == Some(Counted(rule, count))
    requires NormalizeLedgerRule(rule) == Some(rule)
    ensures ReadRule(line) == ReadCount(rule, count)
  {
  }

  lemma LineIsRule(line: string)
    requires IsTrimmed(line) && line != "" && line[0] != '#' && line[0] != '!'
    ensures ReadLine(line) == ReadRule(line)
  {
    TrimIsTrimmed(line);
  }

  lemma CountedRuleReads(digits: string, rule: string, line: string, reading: Reading)
    requires digits != "" && AllDigits(digits) && IsLedgerRule(rule) && line == digits + " " + rule
    requires reading == ReadCount(rule, Number(digits))
    ensures ReadRule(line) == reading
  {
    CountedLine(digits, rule, line);
    LedgerRuleMeans(rule);
    RuleReading(line, rule, Number(digits));
  }

  lemma CountedLineReads(digits: string, rule: string, line: string, reading: Reading)
    requires digits != "" && AllDigits(digits) && IsLedgerRule(rule) && line == digits + " " + rule
    requires reading == ReadCount(rule, Number(digits))
    ensures ReadLine(line) == reading
  {
    CountedRuleReads(digits, rule, line, reading);
    CountedLineIsTrimmed(digits, rule, line);
    LineIsRule(line);
  }

  lemma RuleLineReads(row: Row)
    requires IsLedgerRule(row.rule)
    ensures ReadLine(RuleLine(row)) == ReadCount(row.rule, row.count) && IsLine(RuleLine(row))
  {
    NumberOfDigits(row.count);
    CountedLineReads(Digits(row.count), row.rule, RuleLine(row), ReadCount(row.rule, row.count));
    CountedLineIsTrimmed(Digits(row.count), row.rule, RuleLine(row));
  }

  lemma ExceptionLineReads(row: Row)
    requires IsLedgerRule(row.rule)
    ensures ReadLine(ExceptionLine(row)) == ReadCount(row.rule, 1) && IsLine(ExceptionLine(row))
  {
    OneIsOne("1");
    CountedLineReads("1", row.rule, ExceptionLine(row), ReadCount(row.rule, 1));
    CountedLineIsTrimmed("1", row.rule, ExceptionLine(row));
  }

  lemma OneIsOne(s: string)
    requires s == "1"
    ensures AllDigits(s) && Number(s) == 1
  {
    assert s[..0] == "";
  }

  // ---------- one header line ----------

  predicate IsKey(key: string) {
    key != "" && IsKeyText(key) && IsAlpha(key[|key| - 1])
  }

  predicate IsValue(value: string) {
    value != "" && IsTrimmed(value) && IsLine(value)
  }

  lemma AlphaIsPlain(c: char)
    requires IsAlpha(c)
    ensures !IsSpace(c) && c != ':' && c != '\n' && c != '\r'
  {
  }

  lemma KeyIsTrimmed(key: string)
    requires IsKey(key)
    ensures Trim(key) == key && IsAlpha(key[0])
  {
    AlphaIsPlain(key[0]);
    AlphaIsPlain(key[|key| - 1]);
    TrimIsTrimmed(key);
  }

  lemma KeyHasNo(key: string)
    requires IsKey(key)
    ensures ':' !in key && IsLine(key)
  {
    forall k | 0 <= k < |key| ensures key[k] != ':' && key[k] != '\n' && key[k] != '\r' {
      if key[k] != ' ' { AlphaIsPlain(key[k]); }
    }
  }

  lemma BodyReads(key: string, value: string, body: string)
    requires IsKey(key) && IsValue(value) && body == key + ": " + value
    ensures IsBodyOf(body, key, value)
  {
    KeyHasNo(key);
    assert body[|key|] == ':';
    forall k | 0 <= k < |key| ensures body[k] != ':' { assert body[k] == key[k] && key[k] in key; }
    IndexOfIs(body, ':', 0, |key|);
    SpacedValue(value, body[|key| + 1..]);
  }

  lemma SpacedValue(value: string, spaced: string)
    requires value != "" && IsTrimmed(value) && spaced == " " + value
    ensures Trim(spaced) == value
  {
    assert spaced[0] == ' ' && spaced[1..] == value;
    assert TrimStart(value) == value;
    assert TrimStart(spaced) == value;
  }

  /** A body that reads as a key and a value. */
  predicate IsBodyOf(body: string, key: string, value: string) {
    |key| + 1 < |body| && IndexOf(body, ':', 0) == |key| && body[..|key|] == key && Trim(body[|key| + 1..]) == value
  }

  lemma FieldOf(body: string, key: string, value: string)
    requires IsBodyOf(body, key, value) && key != "" && IsKeyText(key) && Trim(key) == key
    ensures ReadField(body) == Some(Field(Lower(key), value))
  {
  }

  lemma BodyStarts(key: string, value: string, body: string)
    requires IsKey(key) && body == key + ": " + value
    ensures body != "" && !IsSpace(body[0])
  {
    KeyIsTrimmed(key);
    assert body[0] == key[0];
    AlphaIsPlain(key[0]);
  }

  lemma HeaderReads(line: string, key: string, value: string, body: string)
    requires IsKey(key) && IsBodyOf(body, key, value) && StartsWith(line, "#") && TrimStart(line[1..]) == body
    ensures ReadLedgerHeaderLine(line) == Some(Field(Lower(key), value))
  {
    KeyIsTrimmed(key);
    FieldOf(body, key, value);
  }

  lemma HashBody(line: string, body: string)
    requires line == "#" + (" " + body) && body != "" && !IsSpace(body[0])
    ensures StartsWith(line, "#") && TrimStart(line[1..]) == body
  {
    assert line[1..] == " " + body;
    SpacedBody(body);
  }

  lemma SpacedBody(body: string)
    requires body != "" && !IsSpace(body[0])
    ensures TrimStart(" " + body) == body
  {
    var spaced := " " + body;
    assert spaced[1..] == body;
    assert TrimStart(body) == body;
  }

  lemma HeaderLineIsTrimmed(line: string, key: string, value: string)
    requires value != "" && IsTrimmed(value) && line == "# " + key + ": " + value
    ensures IsTrimmed(line) && line != "" && line[0] == '#'
  {
    assert line[0] == '#' && line[|line| - 1] == value[|value| - 1];
  }

  lemma LinesConcat(a: string, b: string)
    requires IsLine(a) && IsLine(b)
    ensures IsLine(a + b)
  {
  }

  lemma HeaderLineIsLine(line: string, key: string, value: string)
    requires IsKey(key) && IsLine(value) && line == "# " + key + ": " + value
    ensures IsLine(line)
  {
    KeyHasNo(key);
    LinesConcat("# ", key);
    LinesConcat("# " + key, ": ");
    LinesConcat("# " + key + ": ", value);
  }

  lemma HashLineReads(line: string, field: Option<Field>)
    requires Trim(line) == line && line != "" && line[0] == '#' && ReadLedgerHeaderLine(line) == field
    ensures ReadLine(line) == if field.Some? then Header(field.value) else Nothing
  {
  }

  lemma BodyOfLine(line: string, key: string, value: string) returns (body: string)
    requires IsKey(key) && IsValue(value) && line == "# " + key + ": " + value
    ensures IsBodyOf(body, key, value) && StartsWith(line, "#") && TrimStart(line[1..]) == body
  {
    body := key + ": " + value;
    assert line == "#" + (" " + body);
    BodyReads(key, value, body);
    BodyStarts(key, value, body);
    HashBody(line, body);
  }

  lemma FieldHeaderReads(line: string, key: string, value: string)
    requires IsKey(key) && IsValue(value) && line == "# " + key + ": " + value
    ensures ReadLedgerHeaderLine(line) == Some(Field(Lower(key), value))
  {
    var body := BodyOfLine(line, key, value);
    HeaderReads(line, key, value, body);
  }

  lemma FieldTextReads(line: string, key: string, value: string)
    requires IsKey(key) && IsValue(value) && line == "# " + key + ": " + value
    ensures ReadLine(line) == Header(Field(Lower(key), value)) && IsLine(line)
  {
    HeaderLineIsTrimmed(line, key, value);
    TrimIsTrimmed(line);
    HeaderLineIsLine(line, key, value);
    FieldHeaderReads(line, key, value);
    HashLineReads(line, Some(Field(Lower(key), value)));
  }

  lemma FieldLineReads(f: Field)
    requires IsKey(f.key) && IsValue(f.value)
    ensures ReadLine(FieldLine(f)) == Header(Field(Lower(f.key), f.value)) && IsLine(FieldLine(f))
  {
    FieldTextReads(FieldLine(f), f.key, f.value);
  }

  lemma NoColonInTail(line: string)
    requires ':' !in line && line != ""
    ensures ReadField(TrimStart(line[1..])) == None
  {
    var body := TrimStart(line[1..]);
    assert ':' !in line[1..] && ':' !in body;
    IndexOfAbsent(body, ':', 0);
  }

  lemma NoColonNoField(line: string)
    requires ':' !in line
    ensures ReadLedgerHeaderLine(line) == None
  {
    if StartsWith(line, "#") {
      NoColonInTail(line);
    }
  }

  /** A comment without a colon. */
  predicate IsComment(line: string) {
    line != "" && line[0] == '#' && !IsSpace(line[|line| - 1]) && ':' !in line && IsLine(line)
  }

  lemma CommentReads(line: string)
    requires IsComment(line)
    ensures ReadLine(line) == Nothing
  {
    TrimIsTrimmed(line);
    NoColonNoField(line);
    HashLineReads(line, None);
  }

  lemma TitleIsComment()
    ensures IsComment(TITLE)
  {
    assert TITLE[|TITLE| - 1] == 'r';
  }

  lemma HashIsComment(line: string)
    requires line == "#"
    ensures IsComment(line)
  {
  }

  /** No colon and no line break. */
  predicate IsPlain(s: string) {
    ':' !in s && IsLine(s)
  }

  lemma PlainConcat(a: string, b: string)
    requires IsPlain(a) && IsPlain(b)
    ensures IsPlain(a + b)
  {
  }

  lemma ThreePartComment(a: string, b: string, c: string)
    requires IsPlain(a) && IsPlain(b) && IsPlain(c) && a != "" && a[0] == '#' && c != "" && !IsSpace(c[|c| - 1])
    ensures IsComment(a + b + c)
  {
    PlainConcat(a, b);
    PlainConcat(a + b, c);
    var line := a + b + c;
    assert line[0] == a[0] && line[|line| - 1] == c[|c| - 1];
  }

  lemma LegendStarts()
    ensures IsPlain(LEGEND_START) && LEGEND_START[0] == '#'
  {
  }

  lemma LegendGoesOn()
    ensures IsPlain(LEGEND_MIDDLE)
  {
  }

  lemma LegendEnds()
    ensures IsPlain(LEGEND_END) && LEGEND_END[|LEGEND_END| - 1] == '.'
  {
  }

  lemma LegendIsComment()
    ensures IsComment(LEGEND)
  {
    LegendStarts();
    LegendGoesOn();
    LegendEnds();
    ThreePartComment(LEGEND_START, LEGEND_MIDDLE, LEGEND_END);
  }

  lemma BlankReads(line: string)
    requires line == ""
    ensures ReadLine(line) == Nothing
  {
  }

  // ---------- all the lines ----------

  function RowReadings(rows: seq<Row>): seq<Reading> {
    if rows == [] then []
    else RowReadings(rows[..|rows| - 1]) + [ReadCount(rows[|rows| - 1].rule, rows[|rows| - 1].count)]
  }

  function ExceptionReadings(rows: seq<Row>): seq<Reading> {
    if rows == [] then [] else ExceptionReadings(rows[..|rows| - 1]) + [ReadCount(rows[|rows| - 1].rule, 1)]
  }

  function FieldReadings(fields: seq<Field>): seq<Reading> {
    if fields == [] then []
    else
      FieldReadings(fields[..|fields| - 1]) +
      [Header(Field(Lower(fields[|fields| - 1].key), fields[|fields| - 1].value))]
  }

  ghost predicate AreRules(rows: seq<Row>) {
    forall row :: row in rows ==> IsLedgerRule(row.rule)
  }

  ghost predicate AreFields(fields: seq<Field>) {
    forall f :: f in fields ==> IsKey(f.key) && IsValue(f.value)
  }

  ghost predicate AreLines(lines: seq<string>) {
    forall line :: line in lines ==> IsLine(line)
  }

  lemma {:induction false} RuleLinesRead(rows: seq<Row>, read: string -> Reading)
    requires IsReader(read) && AreRules(rows)
    ensures MapBy(RuleLines(rows), read) == RowReadings(rows) && AreLines(RuleLines(rows))
    decreases |rows|
  {
    if rows != [] {
      var front, last := rows[..|rows| - 1], rows[|rows| - 1];
      assert last in rows && forall row :: row in front ==> row in rows;
      RuleLinesRead(front, read);
      RuleLineReads(last);
      assert Read(RuleLine(last));
      MapByAppend(RuleLines(front), RuleLine(last), read);
    }
  }

  lemma {:induction false} ExceptionLinesRead(rows: seq<Row>, read: string -> Reading)
    requires IsReader(read) && AreRules(rows)
    ensures MapBy(ExceptionLines(rows), read) == ExceptionReadings(rows) && AreLines(ExceptionLines(rows))
    decreases |rows|
  {
    if rows != [] {
      var front, last := rows[..|rows| - 1], rows[|rows| - 1];
      assert last in rows && forall row :: row in front ==> row in rows;
      ExceptionLinesRead(front, read);
      ExceptionLineReads(last);
      assert Read(ExceptionLine(last));
      MapByAppend(ExceptionLines(front), ExceptionLine(last), read);
    }
  }

  lemma {:induction false} FieldLinesRead(fields: seq<Field>, read: string -> Reading)
    requires IsReader(read) && AreFields(fields)
    ensures MapBy(FieldLines(fields), read) == FieldReadings(fields) && AreLines(FieldLines(fields))
    decreases |fields|
  {
    if fields != [] {
      var front, last := fields[..|fields| - 1], fields[|fields| - 1];
      assert last in fields && forall f :: f in front ==> f in fields;
      FieldLinesRead(front, read);
      FieldLineReads(last);
      assert Read(FieldLine(last));
      MapByAppend(FieldLines(front), FieldLine(last), read);
    }
  }

  lemma CommentIsRead(line: string, read: string -> Reading)
    requires IsReader(read) && (IsComment(line) || line == "")
    ensures read(line) == Nothing && IsLine(line)
  {
    assert Read(line);
    if line == "" { BlankReads(line); } else { CommentReads(line); }
  }

  lemma OneReads(line: string, read: string -> Reading)
    requires IsReader(read) && (IsComment(line) || line == "")
    ensures MapBy([line], read) == [Nothing] && IsLine(line)
  {
    CommentIsRead(line, read);
    MapByAppend([], line, read);
    assert [] + [line] == [line];
  }

  lemma LegendReads(a: string, b: string, c: string, read: string -> Reading)
    requires IsReader(read) && IsComment(a) && IsComment(b) && c == ""
    ensures MapBy([a, b, c], read) == [Nothing, Nothing, Nothing] && AreLines([a, b, c])
  {
    CommentIsRead(a, read);
    CommentIsRead(b, read);
    CommentIsRead(c, read);
    OneReads(a, read);
    MapByAppend([a], b, read);
    MapByAppend([a, b], c, read);
    assert [a] + [b] == [a, b] && [a, b] + [c] == [a, b, c];
  }

  /** What the written ledger reads as. */
  function LedgerReadings(fields: seq<Field>, rules: seq<Row>, exceptions: seq<Row>): seq<Reading> {
    [Nothing] + FieldReadings(fields) + [Nothing, Nothing, Nothing] + RowReadings(rules) +
    ExceptionReadings(exceptions) + [Nothing]
  }

  lemma FivePartsRead(a: seq<string>, b: seq<string>, c: seq<string>, d: seq<string>, e: seq<string>, f: seq<string>,
                      read: string -> Reading)
    ensures MapBy(a + b + c + d + e + f, read) ==
            MapBy(a, read) + MapBy(b, read) + MapBy(c, read) + MapBy(d, read) + MapBy(e, read) + MapBy(f, read)
  {
    MapByConcat(a, b, read);
    MapByConcat(a + b, c, read);
    MapByConcat(a + b + c, d, read);
    MapByConcat(a + b + c + d, e, read);
    MapByConcat(a + b + c + d + e, f, read);
  }

  /** The title, the legend and the rest, whatever their wording. */
  lemma PartsRead(title: string, fields: seq<Field>, a: string, b: string, rules: seq<Row>, exceptions: seq<Row>,
                  read: string -> Reading)
    requires IsReader(read) && IsComment(title) && IsComment(a) && IsComment(b)
    requires AreFields(fields) && AreRules(rules) && AreRules(exceptions)
    ensures var lines := [title] + FieldLines(fields) + [a, b, ""] + RuleLines(rules) + ExceptionLines(exceptions);
      AreLines(lines) && MapBy(lines + [""], read) == LedgerReadings(fields, rules, exceptions)
  {
    OneReads(title, read);
    FieldLinesRead(fields, read);
    LegendReads(a, b, "", read);
    RuleLinesRead(rules, read);
    ExceptionLinesRead(exceptions, read);
    OneReads("", read);
    FivePartsRead([title], FieldLines(fields), [a, b, ""], RuleLines(rules), ExceptionLines(exceptions), [""], read);
  }

  lemma TextReads(g: Aggregate, read: string -> Reading)
    requires IsReader(read) && AreFields(Fields(g)) && AreRules(g.rules) && AreRules(g.exceptions)
    ensures MapBy(SplitLines(JoinLines(LedgerLines(g))), read) == LedgerReadings(Fields(g), g.rules, g.exceptions)
  {
    TitleIsComment();
    HashIsComment("#");
    LegendIsComment();
    PartsRead(TITLE, Fields(g), "#", LEGEND, g.rules, g.exceptions, read);
    SplitOfJoined(LedgerLines(g));
  }
}
