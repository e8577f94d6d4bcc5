/** What every sequence of `addRule` calls keeps, and exactly what is stored at its end. */
module RuleStoreTheorems {
  import opened Text
  import opened RuleSyntax
  import opened Sums
  import opened RuleStore

  // ---------- sources ----------

  /** Each value where it first comes. */
  function Firsts<T(==)>(xs: seq<T>): seq<T> {
    if xs == [] then []
    else
      var before := Firsts(xs[..|xs| - 1]);
      if xs[|xs| - 1] in before then before else before + [xs[|xs| - 1]]
  }

  lemma {:induction false} FirstsAreDistinct<T>(xs: seq<T>)
    ensures AreDistinct(Firsts(xs)) && forall x :: x in Firsts(xs) <==> x in xs
  {
    if xs != [] {
      var front, last := xs[..|xs| - 1], xs[|xs| - 1];
      FirstsAreDistinct(front);
      assert xs == front + [last];
    }
  }

  function Taken<T>(xs: seq<T>): (r: seq<T>)
    ensures |r| <= MAX_SOURCES && r <= xs
  {
    if |xs| <= MAX_SOURCES then xs else xs[..MAX_SOURCES]
  }

  lemma OneMoreSource(current: seq<string>, x: string)
    ensures MergedSources(current, [x]) == if x !in current && |current| < MAX_SOURCES then current + [x] else current
  {
    assert [x][1..] == [];
  }

  /** A repeated rule merges one source at a time, and ends with its first fifty distinct sources. */
  lemma FirstFifty(xs: seq<string>, x: string)
    ensures MergedSources(Taken(Firsts(xs)), [x]) == Taken(Firsts(xs + [x]))
  {
    assert (xs + [x])[..|xs|] == xs;
    var before := Firsts(xs);
    OneMoreSource(Taken(before), x);
    if |before| >= MAX_SOURCES && x !in before {
      assert Taken(before + [x]) == Taken(before);
    }
  }

  // ---------- what a run of lines stores ----------

  /** The rules put in a collection, one for each text, in the order their texts first come. */
  function RulesOf(lines: seq<Line>, slot: Slot): seq<Rule> {
    if lines == [] then []
    else
      var before, last := RulesOf(lines[..|lines| - 1], slot), lines[|lines| - 1];
      if last.Put? && last.slot == slot && !Names(before, last.rule.text) then before + [last.rule] else before
  }

  predicate Names(rules: seq<Rule>, text: string) {
    exists k :: 0 <= k < |rules| && rules[k].text == text
  }

  /** Every source a text is put in a collection from, in order. */
  function SourcesOf(lines: seq<Line>, slot: Slot, text: string): seq<string> {
    if lines == [] then []
    else
      var before, last := SourcesOf(lines[..|lines| - 1], slot, text), lines[|lines| - 1];
      if last.Put? && last.slot == slot && last.rule.text == text then before + [last.source] else before
  }

  /** One collection holds the rules put there, in order, each with its first fifty sources. */
  ghost predicate Holds(stored: seq<StoredRule>, lines: seq<Line>, slot: Slot) {
    && |stored| == |RulesOf(lines, slot)|
    && forall k :: 0 <= k < |stored| ==>
         stored[k].rule == RulesOf(lines, slot)[k] &&
         stored[k].sources == Taken(Firsts(SourcesOf(lines, slot, stored[k].rule.text)))
  }

  ghost predicate TextsDiffer(rules: seq<Rule>) {
    forall i, j :: 0 <= i < j < |rules| ==> rules[i].text != rules[j].text
  }

  lemma {:induction false} RulesOfDiffer(lines: seq<Line>, slot: Slot)
    ensures TextsDiffer(RulesOf(lines, slot))
  {
    if lines != [] { RulesOfDiffer(lines[..|lines| - 1], slot); }
  }

  lemma {:induction false} FindTextFinds(stored: seq<StoredRule>, text: string)
    ensures FindText(stored, text) == -1 ==> forall k :: 0 <= k < |stored| ==> stored[k].rule.text != text
  {
    if stored != [] && stored[|stored| - 1].rule.text != text { FindTextFinds(stored[..|stored| - 1], text); }
  }

  lemma {:induction false} UnnamedHasNoSources(lines: seq<Line>, slot: Slot, text: string)
    ensures !Names(RulesOf(lines, slot), text) <==> SourcesOf(lines, slot, text) == []
  {
    if lines != [] {
      UnnamedHasNoSources(lines[..|lines| - 1], slot, text);
      var before, after := RulesOf(lines[..|lines| - 1], slot), RulesOf(lines, slot);
      if |after| > |before| {
        assert after[|before|] == lines[|lines| - 1].rule;
        assert forall k :: 0 <= k < |before| ==> after[k] == before[k];
      }
    }
  }

  /** A text put again: its rule stays, with the source merged. */
  lemma HoldsDuplicate(stored: seq<StoredRule>, lines: seq<Line>, line: Line, at: nat, after: seq<StoredRule>)
    requires line.Put? && Holds(stored, lines, line.slot) && at < |stored| && stored[at].rule.text == line.rule.text
    requires after == stored[at := stored[at].(sources := MergedSources(stored[at].sources, [line.source]))]
    ensures Holds(after, lines + [line], line.slot)
  {
    var slot, all := line.slot, lines + [line];
    assert all[..|lines|] == lines;
    assert RulesOf(lines, slot)[at].text == line.rule.text;
    assert RulesOf(all, slot) == RulesOf(lines, slot);
    RulesOfDiffer(lines, slot);
    FirstFifty(SourcesOf(lines, slot, line.rule.text), line.source);
    forall k | 0 <= k < |after|
      ensures after[k].rule == RulesOf(all, slot)[k] &&
              after[k].sources == Taken(Firsts(SourcesOf(all, slot, after[k].rule.text)))
    {
      assert after[k].rule == stored[k].rule;
      if k != at { assert after[k].rule.text != line.rule.text; }
    }
  }

  lemma OnlySource(x: string)
    ensures Taken(Firsts([x])) == [x]
  {
    assert [x][..0] == [];
    assert Firsts<string>([]) == [];
    assert Firsts([x]) == [] + [x];
  }

  /** A text put for the first time comes last, with its one source. */
  lemma HoldsNew(stored: seq<StoredRule>, lines: seq<Line>, line: Line, after: seq<StoredRule>)
    requires line.Put? && Holds(stored, lines, line.slot)
    requires forall k :: 0 <= k < |stored| ==> stored[k].rule.text != line.rule.text
    requires after == stored + [StoredRule(line.rule, [line.source])]
    ensures Holds(after, lines + [line], line.slot)
  {
    var slot, all := line.slot, lines + [line];
    assert all[..|lines|] == lines;
    forall k | 0 <= k < |RulesOf(lines, slot)| ensures RulesOf(lines, slot)[k].text != line.rule.text {
      assert stored[k].rule == RulesOf(lines, slot)[k];
    }
    assert RulesOf(all, slot) == RulesOf(lines, slot) + [line.rule];
    UnnamedHasNoSources(lines, slot, line.rule.text);
    OnlySource(line.source);
    assert SourcesOf(all, slot, line.rule.text) == [] + [line.source] == [line.source];
    forall k | 0 <= k < |after|
      ensures after[k].rule == RulesOf(all, slot)[k] &&
              after[k].sources == Taken(Firsts(SourcesOf(all, slot, after[k].rule.text)))
    {
      if k < |stored| { assert after[k] == stored[k]; }
    }
  }

  lemma HoldsElsewhere(stored: seq<StoredRule>, lines: seq<Line>, line: Line, slot: Slot)
    requires Holds(stored, lines, slot) && !(line.Put? && line.slot == slot)
    ensures Holds(stored, lines + [line], slot)
  {
    assert (lines + [line])[..|lines|] == lines;
    assert RulesOf(lines + [line], slot) == RulesOf(lines, slot);
    forall k | 0 <= k < |stored|
      ensures SourcesOf(lines + [line], slot, stored[k].rule.text) == SourcesOf(lines, slot, stored[k].rule.text)
    {
    }
  }

  lemma KeptHolds(s: Store, lines: seq<Line>, line: Line)
    requires line.Put? && Holds(RulesIn(s.rules, line.slot), lines, line.slot)
    ensures Holds(RulesIn(Keep(s, line.slot, line.rule, line.source).rules, line.slot), lines + [line], line.slot)
  {
    var found := RulesIn(s.rules, line.slot);
    var at := FindText(found, line.rule.text);
    if at >= 0 {
      HoldsDuplicate(found, lines, line, at,
                     found[at := found[at].(sources := MergedSources(found[at].sources, [line.source]))]);
    } else {
      FindTextFinds(found, line.rule.text);
      HoldsNew(found, lines, line, found + [StoredRule(line.rule, [line.source])]);
    }
  }

  lemma KeptElsewhere(s: Store, line: Line, other: Slot)
    requires line.Put? && other != line.slot
    ensures RulesIn(Keep(s, line.slot, line.rule, line.source).rules, other) == RulesIn(s.rules, other)
  {
  }

  lemma SortHolds(s: Store, lines: seq<Line>, line: Line, slot: Slot)
    requires Holds(RulesIn(s.rules, slot), lines, slot)
    ensures Holds(RulesIn(Sort(Counted(s), line).rules, slot), lines + [line], slot)
  {
    if line.Put? && line.slot == slot {
      KeptHolds(Counted(s), lines, line);
    } else {
      HoldsElsewhere(RulesIn(s.rules, slot), lines, line, slot);
      if line.Put? { KeptElsewhere(Counted(s), line, slot); }
    }
  }

  /** At the end of any run of lines, each collection holds exactly the rules put there. */
  lemma {:induction false} RunHolds(lines: seq<Line>, slot: Slot)
    ensures Holds(RulesIn(SortAll(EMPTY, lines).rules, slot), lines, slot)
  {
    if lines == [] {
    } else {
      var front, last := lines[..|lines| - 1], lines[|lines| - 1];
      RunHolds(front, slot);
      assert lines == front + [last];
      SortHolds(SortAll(EMPTY, front), front, last, slot);
    }
  }

  // ---------- counters ----------

  function TotalCount(counts: map<Slot, int>): int {
    CountIn(counts, Blocking) + CountIn(counts, Unblocking) + CountIn(counts, Cosmetic) + CountIn(counts, Scriptlet) +
    CountIn(counts, Csp) + CountIn(counts, Redirect) + CountIn(counts, Replace) + CountIn(counts, RemoveHeader) +
    CountIn(counts, RemoveParam) + CountIn(counts, HtmlFiltering) + CountIn(counts, Permissions) +
    CountIn(counts, ExtendedCss)
  }

  /** Every line that was processed has one outcome. */
  ghost predicate IsBalanced(s: Stats) {
    s.totalProcessed == s.duplicates + s.skipped + s.invalid + s.preprocessor + s.hint + TotalCount(s.counts)
  }

  /** Each counter counts its outcome. */
  ghost predicate Tallies(s: Stats, lines: seq<Line>) {
    && s.totalProcessed == |lines|
    && s.skipped == multiset(lines)[Skipped]
    && s.invalid == multiset(lines)[Invalid]
    && s.preprocessor == multiset(lines)[PreprocessorLine]
    && s.hint == multiset(lines)[HintLine]
  }

  lemma OneMoreCount(counts: map<Slot, int>, slot: Slot)
    ensures TotalCount(counts[slot := CountIn(counts, slot) + 1]) == TotalCount(counts) + 1
  {
  }

  /** Keeping a rule counts one outcome: a duplicate, or one more of its collection. */
  lemma KeepBalances(s: Store, slot: Slot, rule: Rule, source: string)
    ensures var t := Keep(s, slot, rule, source).stats;
      t.duplicates + TotalCount(t.counts) == s.stats.duplicates + TotalCount(s.stats.counts) + 1
  {
    var counts := s.stats.counts;
    var more := counts[slot := CountIn(counts, slot) + 1];
    var total, next := TotalCount(counts), TotalCount(more);
    assert next == total + 1 by { OneMoreCount(counts, slot); }
    var t := Keep(s, slot, rule, source).stats;
    if FindText(RulesIn(s.rules, slot), rule.text) >= 0 {
      assert t.counts == counts && t.duplicates == s.stats.duplicates + 1;
    } else {
      assert t.counts == more && t.duplicates == s.stats.duplicates;
    }
  }

  lemma KeepLeavesRest(s: Store, slot: Slot, rule: Rule, source: string)
    ensures var t := Keep(s, slot, rule, source).stats;
      && t.totalProcessed == s.stats.totalProcessed && t.skipped == s.stats.skipped && t.invalid == s.stats.invalid
      && t.preprocessor == s.stats.preprocessor && t.hint == s.stats.hint
  {
  }

  lemma SortBalances(s: Store, line: Line)
    requires IsBalanced(s.stats)
    ensures IsBalanced(Sort(Counted(s), line).stats)
  {
    if line.Put? {
      KeepBalances(Counted(s), line.slot, line.rule, line.source);
      KeepLeavesRest(Counted(s), line.slot, line.rule, line.source);
    }
  }

  lemma {:induction false} RunBalances(lines: seq<Line>)
    ensures IsBalanced(SortAll(EMPTY, lines).stats)
  {
    if lines != [] {
      RunBalances(lines[..|lines| - 1]);
      SortBalances(SortAll(EMPTY, lines[..|lines| - 1]), lines[|lines| - 1]);
    }
  }

  lemma SortTallies(s: Store, lines: seq<Line>, line: Line)
    requires Tallies(s.stats, lines)
    ensures Tallies(Sort(Counted(s), line).stats, lines + [line])
  {
    if line.Put? { KeepLeavesRest(Counted(s), line.slot, line.rule, line.source); }
  }

  lemma {:induction false} RunTallies(lines: seq<Line>)
    ensures Tallies(SortAll(EMPTY, lines).stats, lines)
  {
    if lines == [] {
    } else {
      var front, last := lines[..|lines| - 1], lines[|lines| - 1];
      RunTallies(front);
      assert lines == front + [last];
      SortTallies(SortAll(EMPTY, front), front, last);
    }
  }

  lemma KeepCounts(s: Store, line: Line, slot: Slot)
    requires line.Put? && CountIn(s.stats.counts, slot) == |RulesIn(s.rules, slot)|
    ensures var t := Keep(s, line.slot, line.rule, line.source);
      CountIn(t.stats.counts, slot) == |RulesIn(t.rules, slot)|
  {
  }

  /** Each counter is the size of its collection. */
  lemma {:induction false} RunCounts(lines: seq<Line>, slot: Slot)
    ensures CountIn(SortAll(EMPTY, lines).stats.counts, slot) == |RulesIn(SortAll(EMPTY, lines).rules, slot)|
  {
    if lines != [] {
      var front, last := lines[..|lines| - 1], lines[|lines| - 1];
      RunCounts(front, slot);
      if last.Put? { KeepCounts(Counted(SortAll(EMPTY, front)), last, slot); }
    }
  }

  // ---------- whole runs ----------

  /** One call of `addRule`. */
  datatype Call = Call(raw: string, source: string)

  function AllLines(calls: seq<Call>, o: Oracle): seq<Line> {
    FlatMap(calls, (c: Call) => LinesOf(c.raw, c.source, o))
  }

  lemma {:induction false} SortAllConcat(s: Store, a: seq<Line>, b: seq<Line>)
    ensures SortAll(s, a + b) == SortAll(SortAll(s, a), b)
  {
    if b == [] {
      assert a + b == a;
    } else {
      assert (a + b)[..|a + b| - 1] == a + b[..|b| - 1];
      SortAllConcat(s, a, b[..|b| - 1]);
    }
  }

  /** The store after every call of a run, each call as `AddRule` states it. */
  function Run(calls: seq<Call>, o: Oracle): Store {
    if calls == [] then EMPTY
    else SortAll(Run(calls[..|calls| - 1], o), LinesOf(calls[|calls| - 1].raw, calls[|calls| - 1].source, o))
  }

  lemma {:induction false} RunIsItsLines(calls: seq<Call>, o: Oracle)
    ensures Run(calls, o) == SortAll(EMPTY, AllLines(calls, o))
  {
    if calls == [] {
    } else {
      var front, last := calls[..|calls| - 1], calls[|calls| - 1];
      RunIsItsLines(front, o);
      SortAllConcat(EMPTY, AllLines(front, o), LinesOf(last.raw, last.source, o));
    }
  }

  /** After any calls, every processed line has one outcome, each outcome is counted, and each per-type
      counter is the size of its collection. */
  lemma EveryRunIsCounted(calls: seq<Call>, o: Oracle, slot: Slot)
    ensures IsBalanced(Run(calls, o).stats)
    ensures Tallies(Run(calls, o).stats, AllLines(calls, o))
    ensures CountIn(Run(calls, o).stats.counts, slot) == |RulesIn(Run(calls, o).rules, slot)|
  {
    RunIsItsLines(calls, o);
    RunBalances(AllLines(calls, o));
    RunTallies(AllLines(calls, o));
    RunCounts(AllLines(calls, o), slot);
  }

  /** After any calls, each collection holds exactly the rules put there, in the order their texts first
      come, each once and with the first fifty of its sources. */
  lemma EveryRunHolds(calls: seq<Call>, o: Oracle, slot: Slot)
    ensures Holds(RulesIn(Run(calls, o).rules, slot), AllLines(calls, o), slot)
    ensures TextsDiffer(RulesOf(AllLines(calls, o), slot))
  {
    RunIsItsLines(calls, o);
    RunHolds(AllLines(calls, o), slot);
    RulesOfDiffer(AllLines(calls, o), slot);
  }

  /** A rule belongs to the collection its type names. */
  predicate Belongs(line: Line, o: Oracle) {
    line.Put? ==>
      && line.rule.text != ""
      && line.rule == NewRule(line.slot, line.rule.text, o)
      && ClassOf(o.classify(line.rule.text)) == Kept(line.slot)
      && IsStorable(line.slot, line.rule.text, o)
  }

  lemma ReadLineBelongs(text: string, source: string, o: Oracle)
    ensures Belongs(ReadLine(text, source, o), o)
  {
  }

  lemma {:induction false} ReadAllBelong(texts: seq<string>, source: string, o: Oracle, line: Line)
    requires line in ReadAll(texts, source, o)
    ensures Belongs(line, o)
  {
    ReadLineBelongs(texts[|texts| - 1], source, o);
    if line != ReadLine(texts[|texts| - 1], source, o) { ReadAllBelong(texts[..|texts| - 1], source, o, line); }
  }

  lemma EntriesBelong(texts: seq<string>, source: string, o: Oracle, line: Line)
    requires line in LinesOfEntries(texts, source, o)
    ensures Belongs(line, o)
  {
    if texts != [] { ReadAllBelong(texts, source, o, line); }
  }

  lemma AllLinesBelong(calls: seq<Call>, o: Oracle, line: Line)
    requires line in AllLines(calls, o)
    ensures Belongs(line, o)
  {
    var of_ := (c: Call) => LinesOf(c.raw, c.source, o);
    FlatMapMembers(calls, of_, line);
    var c :| c in calls && line in of_(c);
    EntriesBelong(if HasControl(c.raw) then [] else ExpandHostsLine(Text.Trim(c.raw)), c.source, o, line);
  }

  lemma {:induction false} RulesComeFromLines(lines: seq<Line>, slot: Slot, rule: Rule)
    ensures rule in RulesOf(lines, slot) ==> exists l :: l in lines && l.Put? && l.slot == slot && l.rule == rule
    ensures (exists l :: l in lines && l.Put? && l.slot == slot && l.rule == rule) ==>
            Names(RulesOf(lines, slot), rule.text)
  {
    if lines != [] {
      var front, last := lines[..|lines| - 1], lines[|lines| - 1];
      assert lines == front + [last];
      RulesComeFromLines(front, slot, rule);
      var before, after := RulesOf(front, slot), RulesOf(lines, slot);
      assert last in lines;
      assert before <= after;
      assert forall k :: 0 <= k < |before| ==> after[k] == before[k];
      if |after| > |before| { assert after[|before|] == last.rule; }
    }
  }

  /** A stored rule is the one its text makes, in the one collection its type names. */
  lemma StoredBelongs(calls: seq<Call>, o: Oracle, slot: Slot, k: nat)
    requires k < |RulesIn(Run(calls, o).rules, slot)|
    ensures var stored := RulesIn(Run(calls, o).rules, slot)[k];
      && stored.rule == NewRule(slot, stored.rule.text, o)
      && ClassOf(o.classify(stored.rule.text)) == Kept(slot)
      && 1 <= |stored.sources| <= MAX_SOURCES && AreDistinct(stored.sources)
  {
    EveryRunHolds(calls, o, slot);
    var lines := AllLines(calls, o);
    var rule := RulesOf(lines, slot)[k];
    RulesComeFromLines(lines, slot, rule);
    var l :| l in lines && l.Put? && l.slot == slot && l.rule == rule;
    AllLinesBelong(calls, o, l);
    UnnamedHasNoSources(lines, slot, rule.text);
    var sources := SourcesOf(lines, slot, rule.text);
    FirstsAreDistinct(sources);
    assert sources[0] in Firsts(sources);
  }

  /** A text is stored in one collection only, and there once. */
  lemma TextsAreStoredOnce(calls: seq<Call>, o: Oracle, a: Slot, i: nat, b: Slot, j: nat)
    requires i < |RulesIn(Run(calls, o).rules, a)| && j < |RulesIn(Run(calls, o).rules, b)|
    requires RulesIn(Run(calls, o).rules, a)[i].rule.text == RulesIn(Run(calls, o).rules, b)[j].rule.text
    ensures a == b && i == j
  {
    StoredBelongs(calls, o, a, i);
    StoredBelongs(calls, o, b, j);
    EveryRunHolds(calls, o, a);
  }

  // ---------- the order of the calls ----------

  lemma {:induction false} DistinctCount<T>(a: seq<T>, b: seq<T>)
    requires AreDistinct(a) && AreDistinct(b) && forall x :: x in a <==> x in b
    ensures |a| == |b|
  {
    assert |b| > 0 ==> b[0] in b;
    if a == [] {
    } else {
      assert a[0] in b;
      var k :| 0 <= k < |b| && b[k] == a[0];
      var rest := b[..k] + b[k + 1..];
      assert b == b[..k] + [b[k]] + b[k + 1..];
      forall x ensures x in a[1..] <==> x in rest { assert x in a <==> x in b; }
      DistinctCount(a[1..], rest);
    }
  }

  function TextsOf(rules: seq<Rule>): (texts: seq<string>)
    ensures |texts| == |rules| && forall k :: 0 <= k < |rules| ==> texts[k] == rules[k].text
  {
    seq(|rules|, k requires 0 <= k < |rules| => rules[k].text)
  }

  lemma RuleTextsAreInLines(lines: seq<Line>, slot: Slot, text: string)
    ensures text in TextsOf(RulesOf(lines, slot)) <==>
            exists l :: l in lines && l.Put? && l.slot == slot && l.rule.text == text
  {
    var rules := RulesOf(lines, slot);
    if text in TextsOf(rules) {
      var k :| 0 <= k < |rules| && TextsOf(rules)[k] == text;
      RulesComeFromLines(lines, slot, rules[k]);
    }
    if l :| l in lines && l.Put? && l.slot == slot && l.rule.text == text {
      RulesComeFromLines(lines, slot, l.rule);
      assert Names(rules, text);
    }
  }

  lemma SameLinesSameTexts(a: seq<Line>, b: seq<Line>, slot: Slot)
    requires forall l :: l in a <==> l in b
    ensures forall text :: text in TextsOf(RulesOf(a, slot)) <==> text in TextsOf(RulesOf(b, slot))
    ensures |RulesOf(a, slot)| == |RulesOf(b, slot)|
  {
    forall text ensures text in TextsOf(RulesOf(a, slot)) <==> text in TextsOf(RulesOf(b, slot)) {
      RuleTextsAreInLines(a, slot, text);
      RuleTextsAreInLines(b, slot, text);
    }
    RulesOfDiffer(a, slot);
    RulesOfDiffer(b, slot);
    DistinctCount(TextsOf(RulesOf(a, slot)), TextsOf(RulesOf(b, slot)));
  }

  /** The rule is in the collection. */
  ghost predicate IsStored(s: Store, slot: Slot, rule: Rule) {
    exists k :: 0 <= k < |RulesIn(s.rules, slot)| && RulesIn(s.rules, slot)[k].rule == rule
  }

  lemma StoredIsPut(calls: seq<Call>, o: Oracle, slot: Slot, rule: Rule)
    ensures IsStored(Run(calls, o), slot, rule) <==>
            rule.text in TextsOf(RulesOf(AllLines(calls, o), slot)) && rule == NewRule(slot, rule.text, o)
  {
    EveryRunHolds(calls, o, slot);
    var stored, rules := RulesIn(Run(calls, o).rules, slot), RulesOf(AllLines(calls, o), slot);
    if k :| 0 <= k < |stored| && stored[k].rule == rule {
      StoredBelongs(calls, o, slot, k);
      assert TextsOf(rules)[k] == rule.text;
    }
    if k :| 0 <= k < |rules| && TextsOf(rules)[k] == rule.text {
      StoredBelongs(calls, o, slot, k);
      assert stored[k].rule.text == rule.text;
    }
  }

  /** What is stored, and every counter but the merges, does not depend on the order of the calls. */
  lemma CallOrderIsIrrelevant(a: seq<Call>, b: seq<Call>, o: Oracle)
    requires multiset(a) == multiset(b)
    ensures forall slot, rule :: IsStored(Run(a, o), slot, rule) <==> IsStored(Run(b, o), slot, rule)
    ensures var x, y := Run(a, o).stats, Run(b, o).stats;
      && x.totalProcessed == y.totalProcessed && x.skipped == y.skipped && x.invalid == y.invalid
      && x.preprocessor == y.preprocessor && x.hint == y.hint && x.duplicates == y.duplicates
      && forall slot :: CountIn(x.counts, slot) == CountIn(y.counts, slot)
  {
    var la, lb := AllLines(a, o), AllLines(b, o);
    FlatMapPermutation(a, b, (c: Call) => LinesOf(c.raw, c.source, o));
    SameMembers(la, lb);
    forall slot ensures CountIn(Run(a, o).stats.counts, slot) == CountIn(Run(b, o).stats.counts, slot)
      ensures forall text :: text in TextsOf(RulesOf(la, slot)) <==> text in TextsOf(RulesOf(lb, slot))
    {
      SameLinesSameTexts(la, lb, slot);
      EveryRunHolds(a, o, slot);
      EveryRunHolds(b, o, slot);
      EveryRunIsCounted(a, o, slot);
      EveryRunIsCounted(b, o, slot);
    }
    forall slot, rule ensures IsStored(Run(a, o), slot, rule) <==> IsStored(Run(b, o), slot, rule) {
      StoredIsPut(a, o, slot, rule);
      StoredIsPut(b, o, slot, rule);
    }
    EveryRunIsCounted(a, o, Blocking);
    EveryRunIsCounted(b, o, Blocking);
    assert |multiset(la)| == |multiset(lb)|;
  }

  // ---------- every stored rule ----------

  lemma {:induction false} FromSlot(rules: map<Slot, seq<StoredRule>>, slots: seq<Slot>, k: nat)
      returns (at: nat, j: nat)
    requires k < |AllRules(rules, slots)|
    ensures at < |slots| && j < |RulesIn(rules, slots[at])| && AllRules(rules, slots)[k] == RulesIn(rules, slots[at])[j]
    ensures k == |AllRules(rules, slots[..at])| + j
  {
    var front, last := slots[..|slots| - 1], slots[|slots| - 1];
    if k < |AllRules(rules, front)| {
      at, j := FromSlot(rules, front, k);
      assert front[..at] == slots[..at];
    } else {
      at, j := |slots| - 1, k - |AllRules(rules, front)|;
    }
  }

  /** No two of the rules `getUniqueRules` returns share a text. */
  lemma UniqueRulesAreUnique(calls: seq<Call>, o: Oracle, i: nat, j: nat)
    requires i < j < |AllRules(Run(calls, o).rules, ORDER)|
    ensures AllRules(Run(calls, o).rules, ORDER)[i].rule.text != AllRules(Run(calls, o).rules, ORDER)[j].rule.text
  {
    var rules := Run(calls, o).rules;
    var a, x := FromSlot(rules, ORDER, i);
    var b, y := FromSlot(rules, ORDER, j);
    if AllRules(rules, ORDER)[i].rule.text == AllRules(rules, ORDER)[j].rule.text {
      TextsAreStoredOnce(calls, o, ORDER[a], x, ORDER[b], y);
      SlotsDiffer(a, b);
      assert false;
    }
  }

  lemma SlotsDiffer(a: nat, b: nat)
    requires a < |ORDER| && b < |ORDER| && ORDER[a] == ORDER[b]
    ensures a == b
  {
  }

  function CountUpTo(counts: map<Slot, int>, k: nat): int
    requires k <= |ORDER|
  {
    if k == 0 then 0 else CountUpTo(counts, k - 1) + CountIn(counts, ORDER[k - 1])
  }

  lemma {:induction false} SizesAddUp(rules: map<Slot, seq<StoredRule>>, counts: map<Slot, int>, k: nat)
    requires k <= |ORDER| && forall slot :: CountIn(counts, slot) == |RulesIn(rules, slot)|
    ensures |AllRules(rules, ORDER[..k])| == CountUpTo(counts, k)
  {
    if k > 0 {
      SizesAddUp(rules, counts, k - 1);
      assert ORDER[..k][..k - 1] == ORDER[..k - 1];
    }
  }

  lemma FirstSix(counts: map<Slot, int>)
    ensures CountUpTo(counts, 6) ==
            CountIn(counts, Blocking) + CountIn(counts, Unblocking) + CountIn(counts, Cosmetic) +
            CountIn(counts, Scriptlet) + CountIn(counts, Csp) + CountIn(counts, Redirect)
  {
    assert CountUpTo(counts, 0) == 0 && CountUpTo(counts, 1) == CountIn(counts, Blocking);
    assert CountUpTo(counts, 2) == CountIn(counts, Blocking) + CountIn(counts, Unblocking);
    assert CountUpTo(counts, 4) == CountUpTo(counts, 2) + CountIn(counts, Cosmetic) + CountIn(counts, Scriptlet);
  }

  lemma LastSix(counts: map<Slot, int>)
    ensures CountUpTo(counts, 12) == CountUpTo(counts, 6) +
            CountIn(counts, Replace) + CountIn(counts, RemoveHeader) + CountIn(counts, RemoveParam) +
            CountIn(counts, HtmlFiltering) + CountIn(counts, Permissions) + CountIn(counts, ExtendedCss)
  {
    assert CountUpTo(counts, 7) == CountUpTo(counts, 6) + CountIn(counts, Replace);
    assert CountUpTo(counts, 8) == CountUpTo(counts, 7) + CountIn(counts, RemoveHeader);
    assert CountUpTo(counts, 9) == CountUpTo(counts, 8) + CountIn(counts, RemoveParam);
    assert CountUpTo(counts, 10) == CountUpTo(counts, 9) + CountIn(counts, HtmlFiltering);
  }

  /** `getUniqueRules` returns as many rules as the per-type counters add up to. */
  lemma UniqueRulesAreAllCounted(calls: seq<Call>, o: Oracle)
    ensures |AllRules(Run(calls, o).rules, ORDER)| == TotalCount(Run(calls, o).stats.counts)
  {
    var rules, counts := Run(calls, o).rules, Run(calls, o).stats.counts;
    forall slot ensures CountIn(counts, slot) == |RulesIn(rules, slot)| { EveryRunIsCounted(calls, o, slot); }
    SizesAddUp(rules, counts, 12);
    assert ORDER[..12] == ORDER;
    FirstSix(counts);
    LastSix(counts);
  }
}
