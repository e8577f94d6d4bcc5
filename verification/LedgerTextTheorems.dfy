/** The ledger text round trip: hits in order, exceptions, tier counts and the tier coverage. */
module LedgerTextTheorems {
  import opened Text
  import opened Ledger
  import opened Sums
  import opened LedgerTheorems
  import opened LedgerText
  import opened LedgerRoundTrip
  import Coverage
  import opened Ranking
  import Sorting

  // ---------- what the readings say ----------

  lemma {:induction false} HitsOfConcat(a: seq<Reading>, b: seq<Reading>)
    ensures HitsOf(a + b) == HitsOf(a) + HitsOf(b)
    decreases |b|
  {
    if b == [] {
      assert a + b == a;
    } else {
      var front := b[..|b| - 1];
      assert (a + b)[..|a + b| - 1] == a + front;
      HitsOfConcat(a, front);
    }
  }

  lemma ExceptionsOfConcat(a: seq<Reading>, b: seq<Reading>)
    ensures ExceptionsOf(a + b) == ExceptionsOf(a) + ExceptionsOf(b)
  {
    assert forall r :: r in a + b <==> r in a || r in b;
  }

  lemma {:induction false} HeaderOfConcat(a: seq<Reading>, b: seq<Reading>, key: string)
    ensures HeaderOf(a + b, key) == if HeaderOf(b, key).Some? then HeaderOf(b, key) else HeaderOf(a, key)
    decreases |b|
  {
    if b == [] {
      assert a + b == a;
    } else {
      var front := b[..|b| - 1];
      assert (a + b)[..|a + b| - 1] == a + front;
      HeaderOfConcat(a, front, key);
    }
  }

  ghost predicate SaysNothing(rs: seq<Reading>) {
    HitsOf(rs) == [] && ExceptionsOf(rs) == {} && forall key :: HeaderOf(rs, key) == None
  }

  lemma SaysAppend(rs: seq<Reading>, r: Reading)
    ensures HitsOf(rs + [r]) ==
            HitsOf(rs) + if r.Hit? then [Coverage.Hit(r.rule, Ranking.Finite(r.count as real))] else []
    ensures ExceptionsOf(rs + [r]) == ExceptionsOf(rs) + if r.Exception? then {r.rule} else {}
    ensures forall key :: HeaderOf(rs + [r], key) ==
                          if r.Header? && r.field.key == key then Some(r.field.value) else HeaderOf(rs, key)
  {
    assert (rs + [r])[..|rs|] == rs && (rs + [r])[|rs|] == r;
    ExceptionsStep(rs, r);
  }

  lemma {:induction false} NothingSaysNothing(rs: seq<Reading>)
    requires forall k :: 0 <= k < |rs| ==> rs[k] == Nothing
    ensures SaysNothing(rs)
    decreases |rs|
  {
    if rs != [] {
      var front := rs[..|rs| - 1];
      assert rs == front + [Nothing];
      NothingSaysNothing(front);
      SaysAppend(front, Nothing);
    }
  }

  /** The rows that read back: those with a count. */
  function RowHits(rows: seq<Row>): seq<Coverage.Hit> {
    if rows == [] then []
    else
      var row := rows[|rows| - 1];
      RowHits(rows[..|rows| - 1]) +
      if row.count == 0 then [] else [Coverage.Hit(row.rule, Ranking.Finite(row.count as real))]
  }

  ghost predicate NoneIsException(rows: seq<Row>) {
    forall row :: row in rows ==> !IsException(row.rule)
  }

  ghost predicate AllAreExceptions(rows: seq<Row>) {
    forall row :: row in rows ==> IsException(row.rule)
  }

  lemma {:induction false} RowReadingsSay(rows: seq<Row>)
    requires NoneIsException(rows)
    ensures HitsOf(RowReadings(rows)) == RowHits(rows) && ExceptionsOf(RowReadings(rows)) == {}
    ensures forall key :: HeaderOf(RowReadings(rows), key) == None
    decreases |rows|
  {
    if rows != [] {
      var front, last := rows[..|rows| - 1], rows[|rows| - 1];
      assert last in rows && forall row :: row in front ==> row in rows;
      RowReadingsSay(front);
      SaysAppend(RowReadings(front), ReadCount(last.rule, last.count));
    }
  }

  function RulesOf(rows: seq<Row>): set<string> {
    set row | row in rows :: row.rule
  }

  lemma RulesAppend(front: seq<Row>, last: Row)
    ensures RulesOf(front + [last]) == RulesOf(front) + {last.rule}
  {
    assert forall row :: row in front + [last] <==> row in front || row == last;
  }

  lemma {:induction false} ExceptionReadingsSay(rows: seq<Row>)
    requires AllAreExceptions(rows)
    ensures HitsOf(ExceptionReadings(rows)) == [] && ExceptionsOf(ExceptionReadings(rows)) == RulesOf(rows)
    ensures forall key :: HeaderOf(ExceptionReadings(rows), key) == None
    decreases |rows|
  {
    if rows != [] {
      var front, last := rows[..|rows| - 1], rows[|rows| - 1];
      assert rows == front + [last];
      assert last in rows && forall row :: row in front ==> row in rows;
      ExceptionReadingsSay(front);
      SaysAppend(ExceptionReadings(front), ReadCount(last.rule, 1));
      RulesAppend(front, last);
    }
  }

  lemma {:induction false} FieldReadingsSay(fields: seq<Field>)
    ensures HitsOf(FieldReadings(fields)) == [] && ExceptionsOf(FieldReadings(fields)) == {}
    decreases |fields|
  {
    if fields != [] {
      var front, last := fields[..|fields| - 1], fields[|fields| - 1];
      FieldReadingsSay(front);
      SaysAppend(FieldReadings(front), Header(Field(Lower(last.key), last.value)));
    }
  }

  lemma HitsOfSix(a: seq<Reading>, b: seq<Reading>, c: seq<Reading>, d: seq<Reading>, e: seq<Reading>, f: seq<Reading>)
    ensures HitsOf(a + b + c + d + e + f) == HitsOf(a) + HitsOf(b) + HitsOf(c) + HitsOf(d) + HitsOf(e) + HitsOf(f)
    ensures ExceptionsOf(a + b + c + d + e + f) ==
            ExceptionsOf(a) + ExceptionsOf(b) + ExceptionsOf(c) + ExceptionsOf(d) + ExceptionsOf(e) + ExceptionsOf(f)
  {
    HitsOfConcat(a, b);
    HitsOfConcat(a + b, c);
    HitsOfConcat(a + b + c, d);
    HitsOfConcat(a + b + c + d, e);
    HitsOfConcat(a + b + c + d + e, f);
    ExceptionsOfConcat(a, b);
    ExceptionsOfConcat(a + b, c);
    ExceptionsOfConcat(a + b + c, d);
    ExceptionsOfConcat(a + b + c + d, e);
    ExceptionsOfConcat(a + b + c + d + e, f);
  }

  /** The written ledger's hits are its rules with a count, its exceptions are its exceptions. */
  lemma LedgerSays(fields: seq<Field>, rules: seq<Row>, exceptions: seq<Row>)
    requires NoneIsException(rules) && AllAreExceptions(exceptions)
    ensures HitsOf(LedgerReadings(fields, rules, exceptions)) == RowHits(rules)
    ensures ExceptionsOf(LedgerReadings(fields, rules, exceptions)) == RulesOf(exceptions)
  {
    FieldReadingsSay(fields);
    RowReadingsSay(rules);
    ExceptionReadingsSay(exceptions);
    NothingSaysNothing([Nothing]);
    NothingSaysNothing([Nothing, Nothing, Nothing]);
    HitsOfSix([Nothing], FieldReadings(fields), [Nothing, Nothing, Nothing], RowReadings(rules),
              ExceptionReadings(exceptions), [Nothing]);
    assert [] + RowHits(rules) + [] + [] == RowHits(rules);
  }

  lemma HeaderOfSix(a: seq<Reading>, b: seq<Reading>, c: seq<Reading>, d: seq<Reading>, e: seq<Reading>,
                    f: seq<Reading>, key: string)
    requires HeaderOf(a, key) == HeaderOf(c, key) == HeaderOf(d, key) == HeaderOf(e, key) == HeaderOf(f, key) == None
    ensures HeaderOf(a + b + c + d + e + f, key) == HeaderOf(b, key)
  {
    HeaderOfConcat(a, b, key);
    HeaderOfConcat(a + b, c, key);
    HeaderOfConcat(a + b + c, d, key);
    HeaderOfConcat(a + b + c + d, e, key);
    HeaderOfConcat(a + b + c + d + e, f, key);
  }

  lemma LedgerHeader(fields: seq<Field>, rules: seq<Row>, exceptions: seq<Row>, key: string)
    requires NoneIsException(rules) && AllAreExceptions(exceptions)
    ensures HeaderOf(LedgerReadings(fields, rules, exceptions), key) == HeaderOf(FieldReadings(fields), key)
  {
    RowReadingsSay(rules);
    ExceptionReadingsSay(exceptions);
    NothingSaysNothing([Nothing]);
    NothingSaysNothing([Nothing, Nothing, Nothing]);
    HeaderOfSix([Nothing], FieldReadings(fields), [Nothing, Nothing, Nothing], RowReadings(rules),
                ExceptionReadings(exceptions), [Nothing], key);
  }

  // ---------- the hits ----------

  /** The table that reads back: the rows with a count, in order. */
  function Printed(rows: seq<Row>): seq<Coverage.Tally> {
    if rows == [] then []
    else
      var row := rows[|rows| - 1];
      Printed(rows[..|rows| - 1]) + if row.count == 0 then [] else [Ranked(row.rule, row.count, ())]
  }

  ghost predicate Names(rows: seq<Row>, x: string) {
    exists row :: row in rows && row.rule == x
  }

  lemma NamesStep(front: seq<Row>, last: Row, x: string)
    ensures Names(front + [last], x) <==> Names(front, x) || last.rule == x
  {
    assert last in front + [last];
    if Names(front, x) {
      var row :| row in front && row.rule == x;
      assert row in front + [last];
    }
  }

  lemma InOrderStep(front: seq<Row>, last: Row)
    requires InOrder(front + [last])
    ensures InOrder(front) && !Names(front, last.rule)
  {
    var rows := front + [last];
    forall i, j | 0 <= i < j < |front| ensures Precedes(front[i], front[j]) && front[i].rule != front[j].rule {
      assert front[i] == rows[i] && front[j] == rows[j];
    }
    forall row | row in front ensures row.rule != last.rule {
      var k :| 0 <= k < |front| && front[k] == row;
      assert rows[k] == row && rows[|front|] == last;
    }
  }

  /** `n` is the count of the row named `x`, or 0 when there is none. */
  ghost predicate Counts(rows: seq<Row>, x: string, n: nat) {
    (!Names(rows, x) ==> n == 0) && forall row :: row in rows && row.rule == x ==> n == row.count
  }

  lemma CountsStep(front: seq<Row>, last: Row, x: string, n: nat)
    requires InOrder(front + [last]) && Counts(front, x, n)
    ensures Counts(front + [last], x, n + if last.rule == x then last.count else 0)
  {
    InOrderStep(front, last);
    NamesStep(front, last, x);
    forall row | row in front ensures row.rule != last.rule {
      assert row.rule == last.rule ==> Names(front, last.rule);
    }
  }

  /** Each rule's hits are its row's count. */
  lemma {:induction false} HitsOnRows(rows: seq<Row>, x: string)
    requires InOrder(rows)
    ensures Counts(rows, x, Coverage.HitsOn(RowHits(rows), x))
    decreases |rows|
  {
    if rows != [] {
      var front, last := rows[..|rows| - 1], rows[|rows| - 1];
      assert rows == front + [last];
      InOrderStep(front, last);
      HitsOnRows(front, x);
      CountsStep(front, last, x, Coverage.HitsOn(RowHits(front), x));
      if last.count > 0 {
        RowHitAppended(RowHits(front), last, x);
      } else {
        assert RowHits(front) + [] == RowHits(front);
      }
    }
  }

  lemma RowHitAppended(hits: seq<Coverage.Hit>, row: Row, x: string)
    requires row.count > 0
    ensures Coverage.HitsOn(hits + [Coverage.Hit(row.rule, Ranking.Finite(row.count as real))], x) ==
            Coverage.HitsOn(hits, x) + if row.rule == x then row.count else 0
  {
    var hit := Coverage.Hit(row.rule, Ranking.Finite(row.count as real));
    assert (hits + [hit])[..|hits|] == hits;
    assert (row.count as real).Floor == row.count;
  }

  lemma {:induction false} PrintedMembers(rows: seq<Row>, t: Coverage.Tally)
    ensures t in Printed(rows) <==>
            t.count > 0 && exists row :: row in rows && row.rule == t.rule && row.count == t.count
    decreases |rows|
  {
    if rows != [] {
      var front, last := rows[..|rows| - 1], rows[|rows| - 1];
      assert rows == front + [last];
      PrintedMembers(front, t);
      assert t == Ranked(t.rule, t.count, t.more) && t.more == ();
      if last.rule == t.rule && last.count == t.count { assert last in rows; }
    }
  }

  lemma {:induction false} PrintedInOrder(rows: seq<Row>)
    requires InOrder(rows)
    ensures InOrder(Printed(rows))
    decreases |rows|
  {
    if rows != [] {
      var front, last := rows[..|rows| - 1], rows[|rows| - 1];
      PrintedInOrder(front);
      if last.count > 0 {
        forall i | 0 <= i < |Printed(front)|
          ensures Precedes(Printed(front)[i], Ranked(last.rule, last.count, ())) && Printed(front)[i].rule != last.rule
        {
          var t := Printed(front)[i];
          PrintedMembers(front, t);
          var row :| row in front && row.rule == t.rule && row.count == t.count;
          var k :| 0 <= k < |front| && front[k] == row;
          assert rows[k] == row && Precedes(rows[k], rows[|rows| - 1]);
        }
      }
    }
  }

  lemma PrintedIsTable(rows: seq<Row>)
    requires InOrder(rows)
    ensures Coverage.IsTableOf(Printed(rows), RowHits(rows))
  {
    PrintedInOrder(rows);
    forall t: Coverage.Tally
      ensures t in Printed(rows) <==> t.count > 0 && t.count == Coverage.HitsOn(RowHits(rows), t.rule)
    {
      PrintedMembers(rows, t);
      HitsOnRows(rows, t.rule);
    }
  }

  /** With whole counts of at least one, every row reads back in its place. */
  lemma {:induction false} PrintedIsWhole(rows: seq<Row>)
    requires forall row :: row in rows ==> row.count >= 1
    ensures |Printed(rows)| == |rows|
    ensures forall k :: 0 <= k < |rows| ==> Printed(rows)[k] == Ranked(rows[k].rule, rows[k].count, ())
    decreases |rows|
  {
    if rows != [] {
      assert rows[|rows| - 1] in rows && forall row :: row in rows[..|rows| - 1] ==> row in rows;
      PrintedIsWhole(rows[..|rows| - 1]);
    }
  }

  // ---------- the header ----------

  /** The last value of a key among the fields, keys folded. */
  function FieldValue(fields: seq<Field>, key: string): Option<string> {
    if fields == [] then None
    else if Lower(fields[|fields| - 1].key) == key then Some(fields[|fields| - 1].value)
    else FieldValue(fields[..|fields| - 1], key)
  }

  lemma {:induction false} HeaderOfFields(fields: seq<Field>, key: string)
    ensures HeaderOf(FieldReadings(fields), key) == FieldValue(fields, key)
    decreases |fields|
  {
    if fields != [] {
      var front, last := fields[..|fields| - 1], fields[|fields| - 1];
      HeaderOfFields(front, key);
      SaysAppend(FieldReadings(front), Header(Field(Lower(last.key), last.value)));
    }
  }

  lemma {:induction false} FieldValueConcat(a: seq<Field>, b: seq<Field>, key: string)
    ensures FieldValue(a + b, key) == if FieldValue(b, key).Some? then FieldValue(b, key) else FieldValue(a, key)
    decreases |b|
  {
    if b == [] {
      assert a + b == a;
    } else {
      assert (a + b)[..|a + b| - 1] == a + b[..|b| - 1];
      FieldValueConcat(a, b[..|b| - 1], key);
    }
  }

  lemma OneField(f: Field, key: string)
    ensures FieldValue([f], key) == if Lower(f.key) == key then Some(f.value) else None
  {
    assert [f][..0] == [];
  }

  lemma TwoFields(f: Field, h: Field, key: string)
    ensures FieldValue([f, h], key) ==
            if Lower(h.key) == key then Some(h.value) else if Lower(f.key) == key then Some(f.value) else None
  {
    OneField(f, key);
    OneField(h, key);
    FieldValueConcat([f], [h], key);
    assert [f] + [h] == [f, h];
  }

  lemma FoldedKeys()
    ensures Lower("Sessions") == "sessions" && Lower("Days") == "days"
    ensures Lower("First seen") == "first seen" && Lower("Last seen") == "last seen"
    ensures Lower("Tiers") == "tiers" && Lower("Tier sessions") == "tier sessions"
  {
  }

  lemma FoldedRestKeys()
    ensures Lower("Tier unattributed") == "tier unattributed"
    ensures Lower("Rejected tier entries") == "rejected tier entries"
  {
  }

  lemma RestSaysNothingOf(g: Aggregate, key: string)
    requires key == "tiers" || key == "tier sessions"
    ensures FieldValue(RestFields(g), key) == None
  {
    FoldedRestKeys();
    var unattributed, rejected := Field("Tier unattributed", Digits(g.tierUnattributed)),
                                  Field("Rejected tier entries", Digits(g.tierRejected));
    FieldValueConcat(if g.tierUnattributed == 0 then [] else [unattributed],
                     if g.tierRejected == 0 then [] else [rejected], key);
    OneField(unattributed, key);
    OneField(rejected, key);
  }

  lemma TierFieldValues(g: Aggregate)
    requires g.tiers != []
    ensures FieldValue(TierFields(g), "tiers") == Some(TiersText(g.tiers))
    ensures FieldValue(TierFields(g), "tier sessions") == Some(Digits(g.tierSessions) + " of " + Digits(g.sessions))
  {
    FoldedKeys();
    var tiers, coverage := Field("Tiers", TiersText(g.tiers)),
                           Field("Tier sessions", Digits(g.tierSessions) + " of " + Digits(g.sessions));
    TwoFields(tiers, coverage, "tiers");
    TwoFields(tiers, coverage, "tier sessions");
  }

  /** The header's tier fields are the ones that were written. */
  lemma TierHeader(g: Aggregate, key: string, value: string)
    requires key == "tiers" || key == "tier sessions"
    requires FieldValue(TierFields(g), key) == Some(value)
    ensures FieldValue(Fields(g), key) == Some(value)
  {
    RestSaysNothingOf(g, key);
    FieldValueConcat(CountFields(g) + DayFields(g), TierFields(g), key);
    FieldValueConcat(CountFields(g) + DayFields(g) + TierFields(g), RestFields(g), key);
  }

  // ---------- the tier tally ----------

  predicate IsWord(s: string) {
    s != "" && forall k :: 0 <= k < |s| ==> !IsSpace(s[k]) && s[k] != ','
  }

  lemma TierIsWord(tier: string)
    requires tier in TIER_IDS
    ensures IsWord(tier)
  {
    assert tier == "tier_core" || tier == "tier_ads" || tier == "tier_privacy" || tier == "tier_annoyances" ||
           tier == "tier_security" || tier == "tier_unclassified";
  }

  ghost predicate AreTiers(rows: seq<Row>) {
    forall k :: 0 <= k < |rows| ==> rows[k].rule in TIER_IDS && IsWord(rows[k].rule)
  }

  lemma TierTextHasNoComma(row: Row)
    requires IsWord(row.rule)
    ensures ',' !in TierText(row)
  {
    var digits, text := Digits(row.count), TierText(row);
    forall k | 0 <= k < |text| ensures text[k] != ',' {
      if k < |row.rule| {
        assert text[k] == row.rule[k];
      } else if k > |row.rule| {
        assert text[k] == digits[k - |row.rule| - 1];
        DigitsAreNoSpace(digits, k - |row.rule| - 1);
      }
    }
  }

  lemma SplitOne(part: string)
    requires ',' !in part
    ensures Split(part, ',') == [part]
  {
    IndexOfAbsent(part, ',', 0);
  }

  lemma SplitHead(part: string, rest: string)
    requires ',' !in part
    ensures Split(part + "," + rest, ',') == [part] + Split(rest, ',')
  {
    var s := part + "," + rest;
    IndexOfIs(s, ',', 0, |part|);
    assert s[..|part|] == part && s[|part| + 1..] == rest;
  }

  lemma NoCommaConcat(a: string, b: string)
    requires ',' !in a && ',' !in b
    ensures ',' !in a + b
  {
  }

  /** The parts of a tiers value, each after the first behind a space. */
  function PartsOf(rows: seq<Row>, lead: string): (parts: seq<string>)
    ensures |parts| == |rows|
    ensures forall k :: 0 <= k < |rows| ==> parts[k] == (if k == 0 then lead else " ") + TierText(rows[k])
  {
    if rows == [] then [] else [lead + TierText(rows[0])] + PartsOf(rows[1..], " ")
  }

  lemma Regrouped(lead: string, first: string, rest: string)
    ensures lead + (first + ", " + rest) == lead + first + "," + (" " + rest)
  {
  }

  lemma SplitStep(lead: string, first: string, rest: string)
    requires ',' !in lead && ',' !in first
    ensures Split(lead + (first + ", " + rest), ',') == [lead + first] + Split(" " + rest, ',')
  {
    NoCommaConcat(lead, first);
    Regrouped(lead, first, rest);
    SplitHead(lead + first, " " + rest);
  }

  lemma {:induction false} SplitTiers(rows: seq<Row>, lead: string)
    requires rows != [] && AreTiers(rows) && ',' !in lead
    ensures Split(lead + TiersText(rows), ',') == PartsOf(rows, lead)
    decreases |rows|
  {
    TierTextHasNoComma(rows[0]);
    if |rows| == 1 {
      NoCommaConcat(lead, TierText(rows[0]));
      SplitOne(lead + TierText(rows[0]));
    } else {
      SplitTiers(rows[1..], " ");
      SplitStep(lead, TierText(rows[0]), TiersText(rows[1..]));
    }
  }

  lemma TierTextEdges(row: Row)
    requires IsWord(row.rule)
    ensures TierText(row) != "" && IsTrimmed(TierText(row))
  {
    var digits, text := Digits(row.count), TierText(row);
    DigitsAreNoSpace(digits, |digits| - 1);
    assert text[0] == row.rule[0] && text[|text| - 1] == digits[|digits| - 1];
  }

  lemma LeadIsTrimmed(lead: string, text: string)
    requires text != "" && IsTrimmed(text) && (lead == "" || lead == " ")
    ensures Trim(lead + text) == text
  {
    if lead == " " {
      SpacedValue(text, lead + text);
    } else {
      assert lead + text == text;
      TrimIsTrimmed(text);
    }
  }

  lemma TierTextIsTrimmed(row: Row, lead: string)
    requires IsWord(row.rule) && (lead == "" || lead == " ")
    ensures Trim(lead + TierText(row)) == TierText(row)
  {
    TierTextEdges(row);
    LeadIsTrimmed(lead, TierText(row));
  }

  lemma TierTextReads(row: Row)
    requires IsWord(row.rule)
    ensures ReadTierEntry(TierText(row)) == Some(Counted(row.rule, row.count))
  {
    var digits, text := Digits(row.count), TierText(row);
    var i := |row.rule|;
    assert text[i] == ' ' && text[..i] == row.rule && text[i + 1..] == digits;
    forall k | 0 <= k < i ensures !IsSpace(text[k]) { assert text[k] == row.rule[k]; }
    WordRead(text, 0, i);
    DigitsAreNoSpace(digits, 0);
    assert text[i + 1] == digits[0];
    SpacesRead(text, i, i + 1);
    NumberOfDigits(row.count);
  }

  function EntryOf(row: Row): Option<Counted> {
    if row.count > 0 then Some(Counted(row.rule, row.count)) else None
  }

  lemma PartReads(row: Row, lead: string)
    requires IsWord(row.rule) && row.rule in TIER_IDS && (lead == "" || lead == " ")
    ensures TierEntry(lead + TierText(row)) == EntryOf(row)
  {
    TierTextIsTrimmed(row, lead);
    TierTextReads(row);
  }

  function EntriesOf(rows: seq<Row>): (entries: seq<Option<Counted>>)
    ensures |entries| == |rows|
    ensures forall k :: 0 <= k < |rows| ==> entries[k] == EntryOf(rows[k])
  {
    if rows == [] then [] else EntriesOf(rows[..|rows| - 1]) + [EntryOf(rows[|rows| - 1])]
  }

  /** The tiers value reads as the rows it was written from. */
  lemma TiersRead(rows: seq<Row>)
    requires rows != [] && AreTiers(rows)
    ensures TierEntries(Split(TiersText(rows), ',')) == EntriesOf(rows)
  {
    SplitTiers(rows, "");
    assert "" + TiersText(rows) == TiersText(rows);
    var parts := PartsOf(rows, "");
    forall k | 0 <= k < |rows| ensures TierEntries(parts)[k] == EntryOf(rows[k]) {
      MapByAt(parts, TierEntry, k);
      PartReads(rows[k], if k == 0 then "" else " ");
    }
  }

  lemma EntryAppended(entries: seq<Option<Counted>>, e: Option<Counted>, tier: string)
    ensures TierCount(entries + [e], tier) ==
            TierCount(entries, tier) + if e.Some? && e.value.rule == tier then e.value.count else 0
  {
    assert (entries + [e])[..|entries|] == entries;
  }

  lemma {:induction false} CountOfTier(rows: seq<Row>, tier: string)
    requires InOrder(rows)
    ensures Counts(rows, tier, TierCount(EntriesOf(rows), tier))
    decreases |rows|
  {
    if rows != [] {
      var front, last := rows[..|rows| - 1], rows[|rows| - 1];
      assert rows == front + [last];
      InOrderStep(front, last);
      CountOfTier(front, tier);
      CountsStep(front, last, tier, TierCount(EntriesOf(front), tier));
      EntryAppended(EntriesOf(front), EntryOf(last), tier);
    }
  }

  lemma {:induction false} NoneUnreadable(rows: seq<Row>)
    requires forall row :: row in rows ==> row.count >= 1
    ensures Unreadable(EntriesOf(rows)) == 0
    decreases |rows|
  {
    if rows != [] {
      assert rows[|rows| - 1] in rows && forall row :: row in rows[..|rows| - 1] ==> row in rows;
      NoneUnreadable(rows[..|rows| - 1]);
      var front := EntriesOf(rows[..|rows| - 1]);
      assert (front + [EntryOf(rows[|rows| - 1])])[..|front|] == front;
    }
  }

  /** `X of Y` reads as both numbers. */
  lemma SplitReads(x: nat, y: nat, a: string, b: string, s: string)
    requires a == Digits(x) && b == Digits(y) && s == a + " of " + b
    ensures ReadSplit(s) == Some((x, y))
  {
    NumberOfDigits(x);
    NumberOfDigits(y);
    var i := |a|;
    assert s[i] == ' ' && s[i + 1] == 'o' && s[i + 2] == 'f' && s[i + 3] == ' ' && s[..i] == a && s[i + 4..] == b;
    forall k | 0 <= k < i ensures IsDigit(s[k]) { assert s[k] == a[k] && IsDigit(a[k]); }
    DigitsRead(s, 0, i);
    SpacesRead(s, i, i + 1);
    assert s[i + 1..i + 3] == "of" && At(s, i + 1, "of");
    DigitsAreNoSpace(b, 0);
    assert s[i + 4] == b[0];
    SpacesRead(s, i + 3, i + 4);
  }

  // ---------- every field can be read back ----------

  lemma KeysAreKeys()
    ensures IsKey("Sessions") && IsKey("Days") && IsKey("First seen") && IsKey("Last seen")
    ensures IsKey("Tiers") && IsKey("Tier sessions") && IsKey("Tier unattributed")
  {
  }

  lemma LongKeyIsKey()
    ensures IsKey("Rejected tier entries")
  {
  }

  lemma DigitsAreValue(n: nat)
    ensures IsValue(Digits(n))
  {
    var s := Digits(n);
    DigitsAreNoSpace(s, 0);
    DigitsAreNoSpace(s, |s| - 1);
    forall k | 0 <= k < |s| ensures s[k] != '\n' && s[k] != '\r' { DigitsAreNoSpace(s, k); }
  }

  lemma ValueConcat(a: string, sep: string, b: string)
    requires IsValue(a) && IsLine(sep) && IsValue(b)
    ensures IsValue(a + sep + b)
  {
    var s := a + sep + b;
    assert s[0] == a[0] && s[|s| - 1] == b[|b| - 1];
    LinesConcat(a, sep);
    LinesConcat(a + sep, b);
  }

  lemma WordIsValue(s: string)
    requires IsWord(s)
    ensures IsValue(s)
  {
    assert !IsSpace(s[0]) && !IsSpace(s[|s| - 1]);
    forall k | 0 <= k < |s| ensures s[k] != '\n' && s[k] != '\r' { assert !IsSpace(s[k]); }
  }

  lemma TierTextIsValue(row: Row)
    requires IsWord(row.rule)
    ensures IsValue(TierText(row))
  {
    WordIsValue(row.rule);
    DigitsAreValue(row.count);
    ValueConcat(row.rule, " ", Digits(row.count));
  }

  lemma {:induction false} TiersTextIsValue(rows: seq<Row>)
    requires rows != [] && AreTiers(rows)
    ensures IsValue(TiersText(rows))
    decreases |rows|
  {
    TierTextIsValue(rows[0]);
    if |rows| > 1 {
      TiersTextIsValue(rows[1..]);
      ValueConcat(TierText(rows[0]), ", ", TiersText(rows[1..]));
    }
  }

  /** What a merged ledger is like, as far as writing it is concerned. */
  ghost predicate IsPrintable(g: Aggregate) {
    && InOrder(g.rules) && AreRules(g.rules) && NoneIsException(g.rules)
    && AreRules(g.exceptions) && AllAreExceptions(g.exceptions)
    && InOrder(g.tiers) && AreTiers(g.tiers)
    && forall k :: 0 <= k < |g.days| ==> IsValue(g.days[k])
  }

  lemma FieldsConcat(a: seq<Field>, b: seq<Field>)
    requires AreFields(a) && AreFields(b)
    ensures AreFields(a + b)
  {
  }

  lemma CountFieldsAreFields(g: Aggregate)
    ensures AreFields(CountFields(g))
  {
    KeysAreKeys();
    DigitsAreValue(g.sessions);
    DigitsAreValue(|g.days|);
  }

  lemma DayFieldsAreFields(g: Aggregate)
    requires IsPrintable(g)
    ensures AreFields(DayFields(g))
  {
    KeysAreKeys();
  }

  lemma TierFieldsAreFields(g: Aggregate)
    requires AreTiers(g.tiers)
    ensures AreFields(TierFields(g))
  {
    KeysAreKeys();
    if g.tiers != [] {
      TiersTextIsValue(g.tiers);
      DigitsAreValue(g.tierSessions);
      DigitsAreValue(g.sessions);
      ValueConcat(Digits(g.tierSessions), " of ", Digits(g.sessions));
    }
  }

  lemma RestFieldsAreFields(g: Aggregate)
    ensures AreFields(RestFields(g))
  {
    KeysAreKeys();
    LongKeyIsKey();
    DigitsAreValue(g.tierUnattributed);
    DigitsAreValue(g.tierRejected);
  }

  lemma PrintableFields(g: Aggregate)
    requires IsPrintable(g)
    ensures AreFields(Fields(g))
  {
    CountFieldsAreFields(g);
    DayFieldsAreFields(g);
    TierFieldsAreFields(g);
    RestFieldsAreFields(g);
    FieldsConcat(CountFields(g), DayFields(g));
    FieldsConcat(CountFields(g) + DayFields(g), TierFields(g));
    FieldsConcat(CountFields(g) + DayFields(g) + TierFields(g), RestFields(g));
  }

  // ---------- the round trip ----------

  /** The header holds the fields that were written, keys folded. */
  ghost predicate HoldsFields(header: map<string, string>, g: Aggregate) {
    forall key :: Lookup(header, key) == FieldValue(Fields(g), key)
  }

  /** Reading the written ledger back gives the rules with a count, in order, the exceptions, and the header. */
  lemma LedgerReadsBack(g: Aggregate, read: string -> Reading, p: ParsedLedger)
    requires IsPrintable(g) && IsReader(read)
    requires IsParsed(p, MapBy(SplitLines(JoinLines(LedgerLines(g))), read))
    ensures p.hits == Printed(g.rules)
    ensures forall x :: x in p.exceptions <==> x in RulesOf(g.exceptions)
    ensures HoldsFields(p.header, g)
  {
    PrintableFields(g);
    TextReads(g, read);
    var readings := LedgerReadings(Fields(g), g.rules, g.exceptions);
    LedgerSays(Fields(g), g.rules, g.exceptions);
    PrintedIsTable(g.rules);
    TableIsUnique(p.hits, Printed(g.rules));
    forall key ensures Lookup(p.header, key) == FieldValue(Fields(g), key) {
      LedgerHeader(Fields(g), g.rules, g.exceptions, key);
      HeaderOfFields(Fields(g), key);
      assert Lookup(p.header, key) == HeaderOf(readings, key);
    }
  }

  /** With whole counts of at least one, every rule reads back with its count, in its place. */
  lemma HitsRoundTrip(g: Aggregate, read: string -> Reading, p: ParsedLedger)
    requires IsPrintable(g) && IsReader(read) && forall row :: row in g.rules ==> row.count >= 1
    requires IsParsed(p, MapBy(SplitLines(JoinLines(LedgerLines(g))), read))
    ensures |p.hits| == |g.rules|
    ensures forall k :: 0 <= k < |g.rules| ==> p.hits[k] == Ranked(g.rules[k].rule, g.rules[k].count, ())
  {
    LedgerReadsBack(g, read, p);
    PrintedIsWhole(g.rules);
  }

  lemma TierTallyIs(g: Aggregate, header: map<string, string>, t: TierTally)
    requires g.tiers != [] && AreTiers(g.tiers) && InOrder(g.tiers) && IsTierTally(t, header)
    requires Lookup(header, "tiers") == Some(TiersText(g.tiers))
    requires Lookup(header, "tier sessions") == Some(Digits(g.tierSessions) + " of " + Digits(g.sessions))
    ensures t.tierSessions == Some(g.tierSessions) && t.sessions == Some(g.sessions)
    ensures forall tier :: tier in t.hits <==> TierCount(EntriesOf(g.tiers), tier) > 0
    ensures forall tier :: tier in t.hits ==> t.hits[tier] == TierCount(EntriesOf(g.tiers), tier)
    ensures t.rejected == Unreadable(EntriesOf(g.tiers))
  {
    TiersRead(g.tiers);
    SplitReads(g.tierSessions, g.sessions, Digits(g.tierSessions), Digits(g.sessions),
               Digits(g.tierSessions) + " of " + Digits(g.sessions));
  }

  lemma TierFieldsReadBack(g: Aggregate, header: map<string, string>)
    requires g.tiers != [] && HoldsFields(header, g)
    ensures Lookup(header, "tiers") == Some(TiersText(g.tiers))
    ensures Lookup(header, "tier sessions") == Some(Digits(g.tierSessions) + " of " + Digits(g.sessions))
  {
    TierFieldValues(g);
    TierFieldReadsBack(g, header, "tiers", TiersText(g.tiers));
    TierFieldReadsBack(g, header, "tier sessions", Digits(g.tierSessions) + " of " + Digits(g.sessions));
  }

  lemma TierFieldReadsBack(g: Aggregate, header: map<string, string>, key: string, value: string)
    requires HoldsFields(header, g) && FieldValue(TierFields(g), key) == Some(value)
    requires key == "tiers" || key == "tier sessions"
    ensures Lookup(header, key) == Some(value)
  {
    TierHeader(g, key, value);
  }

  lemma TallyMatchesRows(rows: seq<Row>, hits: map<string, nat>)
    requires InOrder(rows) && forall row :: row in rows ==> row.count >= 1
    requires forall tier :: tier in hits <==> TierCount(EntriesOf(rows), tier) > 0
    requires forall tier :: tier in hits ==> hits[tier] == TierCount(EntriesOf(rows), tier)
    ensures forall tier :: tier in hits <==> Names(rows, tier)
    ensures forall row :: row in rows ==> row.rule in hits && hits[row.rule] == row.count
  {
    forall tier ensures tier in hits <==> Names(rows, tier) { CountOfTier(rows, tier); }
    forall row | row in rows ensures row.rule in hits && hits[row.rule] == row.count { CountOfTier(rows, row.rule); }
  }

  /** The tier tally is read off the header that reads back: the same tiers with the same counts, and the
      same coverage fraction. */
  lemma TierTallyRoundTrip(g: Aggregate, header: map<string, string>, t: TierTally)
    requires IsPrintable(g) && g.tiers != [] && forall row :: row in g.tiers ==> row.count >= 1
    requires HoldsFields(header, g) && IsTierTally(t, header)
    ensures t.tierSessions == Some(g.tierSessions) && t.sessions == Some(g.sessions) && t.rejected == 0
    ensures forall tier :: tier in t.hits <==> Names(g.tiers, tier)
    ensures forall row :: row in g.tiers ==> row.rule in t.hits && t.hits[row.rule] == row.count
  {
    TierFieldsReadBack(g, header);
    TierTallyIs(g, header, t);
    NoneUnreadable(g.tiers);
    TallyMatchesRows(g.tiers, t.hits);
  }

  // ---------- a merged ledger can be written ----------

  lemma DateIsValue(timestamp: string)
    ensures var d := LedgerDateOf(timestamp); d.Some? ==> IsValue(d.value)
  {
    var t := Trim(timestamp);
    var d := LedgerDateOf(timestamp);
    if d.Some? {
      var s := d.value;
      assert s == t[..10];
      forall k | 0 <= k < 10 ensures IsDigit(s[k]) || s[k] == '-' {
        assert 0 <= k < 4 ==> s[k] == t[..4][k];
        assert 5 <= k < 7 ==> s[k] == t[5..7][k - 5];
        assert 8 <= k < 10 ==> s[k] == t[8..10][k - 8];
      }
    }
  }

  lemma DayOfEvent(s: Session, day: string, e: Event)
    requires e in DatedEvents(s, day)
    ensures e.day == day
  {
    FlatMapMembers(s.hits, (hit: LedgerHit) => HitEvent(hit, day), e);
    FlatMapMembers(s.tiers, (hit: LedgerHit) => TierEvent(hit, day), e);
    FlatMapMembers(s.exceptions, (rule: string) => ExceptionEvent(rule, day), e);
  }

  lemma DaysAreValues(sessions: seq<Session>, d: string)
    requires d in DaysOn(Events(sessions), Accepted, "")
    ensures IsValue(d)
  {
    var e :| e in Events(sessions) && IsOn(e, Accepted, "") && e.day == d;
    FlatMapMembers(sessions, (s: Session) => SessionEvents(s), e);
    var s :| s in sessions && e in SessionEvents(s);
    DayOfEvent(s, LedgerDateOf(s.startedAt).value, e);
    DateIsValue(s.startedAt);
  }

  /** Whatever was merged can be written and read back. */
  lemma MergedIsPrintable(sessions: seq<Session>, options: Options, g: Aggregate, all: seq<Row>, allows: seq<Row>)
    requires IsAggregate(g, all, allows, Events(sessions), options)
    ensures IsPrintable(g)
  {
    var minDays, maxRules := AtLeastOne(options.minDays, 1), AtLeastOne(options.maxRules, MAX_SAFE_INTEGER);
    DurableKeeps(all, minDays, maxRules);
    DurableKeeps(allows, minDays, maxRules);
    forall row | row in g.rules ensures IsLedgerRule(row.rule) && !IsException(row.rule) {
      SidesStayApart(sessions, Blocks, all, row);
      LedgerRuleMeans(row.rule);
    }
    forall row | row in g.exceptions ensures IsLedgerRule(row.rule) && IsException(row.rule) {
      SidesStayApart(sessions, Allows, allows, row);
      LedgerRuleMeans(row.rule);
    }
    forall k | 0 <= k < |g.tiers| ensures g.tiers[k].rule in TIER_IDS && IsWord(g.tiers[k].rule) {
      assert g.tiers[k] in g.tiers;
      SidesStayApart(sessions, Tiers, g.tiers, g.tiers[k]);
      TierIsWord(g.tiers[k].rule);
    }
    forall k | 0 <= k < |g.days| ensures IsValue(g.days[k]) {
      assert g.days[k] in g.days;
      DaysAreValues(sessions, g.days[k]);
    }
  }
}
