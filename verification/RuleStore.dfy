/** The store every line of every source goes through: one rule for each text, by type, with a counter
    for every outcome. */
module RuleStore {
  import opened Text
  import opened RuleSyntax
  import opened HostsEntries

  /** The twelve collections. */
  datatype Slot =
    | Blocking | Unblocking | Cosmetic | Scriptlet | Csp | Redirect | Replace | RemoveHeader | RemoveParam
    | HtmlFiltering | Permissions | ExtendedCss

  /** The line classifier, the selector reader and the digest, which only read the text. */
  datatype Oracle = Oracle(classify: string -> string, selector: string -> string, digest: string -> string)

  datatype Rule = Rule(text: string, kind: string, digest: string, isException: bool)

  datatype StoredRule = StoredRule(rule: Rule, sources: seq<string>)

  datatype Stats = Stats(
    totalProcessed: int,
    duplicates: int,
    merged: int,
    skipped: int,
    invalid: int,
    preprocessor: int,
    hint: int,
    counts: map<Slot, int>)

  datatype Store = Store(rules: map<Slot, seq<StoredRule>>, stats: Stats)

  const EMPTY := Store(map[], Stats(0, 0, 0, 0, 0, 0, 0, map[]))
  const MAX_SOURCES := 50

  function RulesIn(rules: map<Slot, seq<StoredRule>>, slot: Slot): seq<StoredRule> {
    if slot in rules then rules[slot] else []
  }

  function CountIn(counts: map<Slot, int>, slot: Slot): int {
    if slot in counts then counts[slot] else 0
  }

  // ---------- what a type means ----------

  datatype Class = Comment | Kept(slot: Slot) | Preprocessor | Hint | Unknown

  /** The collection each type goes to; `parameter` shares the one of `removeparam`. */
  function ClassOf(kind: string): Class {
    if kind == "" || kind == "comment" then Comment
    else if kind == "blocking" then Kept(Blocking)
    else if kind == "unblocking" then Kept(Unblocking)
    else if kind == "cosmetic" then Kept(Cosmetic)
    else if kind == "scriptlet" then Kept(Scriptlet)
    else if kind == "csp" then Kept(Csp)
    else if kind == "redirect" then Kept(Redirect)
    else if kind == "replace" then Kept(Replace)
    else if kind == "removeheader" then Kept(RemoveHeader)
    else if kind == "removeparam" || kind == "parameter" then Kept(RemoveParam)
    else if kind == "html-filtering" then Kept(HtmlFiltering)
    else if kind == "permissions" then Kept(Permissions)
    else if kind == "extended-css" then Kept(ExtendedCss)
    else if kind == "preprocessor" then Preprocessor
    else if kind == "hint" then Hint
    else Unknown
  }

  // ---------- sources ----------

  /** New sources are added while there are fewer than fifty. */
  function MergedSources(current: seq<string>, new_: seq<string>): (r: seq<string>)
    decreases |new_|
  {
    if new_ == [] then current
    else
      MergedSources(if new_[0] !in current && |current| < MAX_SOURCES then current + [new_[0]] else current, new_[1..])
  }

  // ---------- what one line is ----------

  /** What a line comes to: nothing to store, or a rule for one collection. */
  datatype Line = Skipped | PreprocessorLine | HintLine | Invalid | Put(slot: Slot, rule: Rule, source: string)

  function NewRule(slot: Slot, text: string, o: Oracle): Rule {
    Rule(text, o.classify(text), o.digest(text), slot == Unblocking || IsRuleException(text))
  }

  /** A cosmetic rule needs a selector. */
  predicate IsStorable(slot: Slot, text: string, o: Oracle) {
    slot == Cosmetic ==> o.selector(text) != ""
  }

  function ReadLine(text: string, source: string, o: Oracle): Line {
    if text == "" then Skipped
    else
      match ClassOf(o.classify(text))
      case Comment => Skipped
      case Preprocessor => PreprocessorLine
      case Hint => HintLine
      case Unknown => Invalid
      case Kept(slot) => if IsStorable(slot, text, o) then Put(slot, NewRule(slot, text, o), source) else Invalid
  }

  predicate HasControl(raw: string) {
    exists k :: 0 <= k < |raw| && IsControl(raw[k])
  }

  function ReadAll(texts: seq<string>, source: string, o: Oracle): (lines: seq<Line>)
    ensures |lines| == |texts|
  {
    if texts == [] then [] else ReadAll(texts[..|texts| - 1], source, o) + [ReadLine(texts[|texts| - 1], source, o)]
  }

  /** What one call adds: one line, or one for each entry a hosts line expands to. */
  function LinesOf(raw: string, source: string, o: Oracle): (lines: seq<Line>)
    ensures lines != []
  {
    LinesOfEntries(if HasControl(raw) then [] else ExpandHostsLine(Trim(raw)), source, o)
  }

  function LinesOfEntries(entries: seq<string>, source: string, o: Oracle): (lines: seq<Line>)
    ensures lines != []
  {
    if entries == [] then [Invalid] else ReadAll(entries, source, o)
  }

  // ---------- what a line changes ----------

  function FindText(rules: seq<StoredRule>, text: string): (r: int)
    ensures r == -1 || (0 <= r < |rules| && rules[r].rule.text == text)
  {
    if rules == [] then -1
    else if rules[|rules| - 1].rule.text == text then |rules| - 1
    else FindText(rules[..|rules| - 1], text)
  }

  function WithDuplicate(s: Store, slot: Slot, at: nat, source: string): Store
    requires at < |RulesIn(s.rules, slot)|
  {
    var rules := RulesIn(s.rules, slot);
    var sources := MergedSources(rules[at].sources, [source]);
    s.(rules := s.rules[slot := rules[at := rules[at].(sources := sources)]],
       stats := s.stats.(duplicates := s.stats.duplicates + 1,
                         merged := s.stats.merged + if sources == rules[at].sources then 0 else 1))
  }

  function WithNew(s: Store, slot: Slot, rule: Rule, source: string): Store {
    s.(rules := s.rules[slot := RulesIn(s.rules, slot) + [StoredRule(rule, [source])]],
       stats := s.stats.(counts := s.stats.counts[slot := CountIn(s.stats.counts, slot) + 1]))
  }

  /** A duplicate merges its source; a new text is stored and counted. */
  function Keep(s: Store, slot: Slot, rule: Rule, source: string): Store {
    var at := FindText(RulesIn(s.rules, slot), rule.text);
    if at >= 0 then WithDuplicate(s, slot, at, source) else WithNew(s, slot, rule, source)
  }

  function Counted(s: Store): Store {
    s.(stats := s.stats.(totalProcessed := s.stats.totalProcessed + 1))
  }

  function Sort(s: Store, line: Line): Store {
    match line
    case Skipped => s.(stats := s.stats.(skipped := s.stats.skipped + 1))
    case PreprocessorLine => s.(stats := s.stats.(preprocessor := s.stats.preprocessor + 1))
    case HintLine => s.(stats := s.stats.(hint := s.stats.hint + 1))
    case Invalid => s.(stats := s.stats.(invalid := s.stats.invalid + 1))
    case Put(slot, rule, source) => Keep(s, slot, rule, source)
  }

  function SortAll(s: Store, lines: seq<Line>): Store {
    if lines == [] then s else Sort(Counted(SortAll(s, lines[..|lines| - 1])), lines[|lines| - 1])
  }

  lemma OneLine(s: Store, line: Line)
    ensures SortAll(s, [line]) == Sort(Counted(s), line)
  {
    assert [line][..0] == [];
    assert SortAll(s, []) == s;
  }

  lemma OneLineOf(raw: string, source: string, o: Oracle)
    requires !HasControl(raw) && IsEntry(Trim(raw))
    ensures LinesOf(raw, source, o) == [ReadLine(Trim(raw), source, o)]
  {
    var text := Trim(raw);
    assert [text][..0] == [];
    assert ReadAll([], source, o) == [];
    assert ReadAll([text], source, o) == [] + [ReadLine(text, source, o)];
  }

  lemma SortAllStep(s: Store, texts: seq<string>, k: nat, source: string, o: Oracle)
    requires k < |texts|
    ensures SortAll(s, ReadAll(texts[..k + 1], source, o)) ==
            Sort(Counted(SortAll(s, ReadAll(texts[..k], source, o))), ReadLine(texts[k], source, o))
  {
    assert texts[..k + 1][..k] == texts[..k];
    var front, last := ReadAll(texts[..k], source, o), ReadLine(texts[k], source, o);
    assert ReadAll(texts[..k + 1], source, o) == front + [last];
    assert (front + [last])[..|front|] == front;
  }

  class RuleStore {
    const oracle: Oracle
    var rules: map<Slot, seq<StoredRule>>
    var totalProcessed: int
    var duplicates: int
    var merged: int
    var skipped: int
    var invalid: int
    var preprocessor: int
    var hint: int
    var counts: map<Slot, int>

    function Contents(): Store
      reads this
    {
      Store(rules, Stats(totalProcessed, duplicates, merged, skipped, invalid, preprocessor, hint, counts))
    }

    constructor (o: Oracle)
      ensures oracle == o && Contents() == EMPTY
    {
      oracle := o;
      rules, counts := map[], map[];
      totalProcessed, duplicates, merged, skipped, invalid, preprocessor, hint := 0, 0, 0, 0, 0, 0, 0;
    }

    method Clear()
      modifies this
      ensures Contents() == EMPTY
    {
      rules, counts := map[], map[];
      totalProcessed, duplicates, merged, skipped, invalid, preprocessor, hint := 0, 0, 0, 0, 0, 0, 0;
    }

    /** Adds the new sources of a rule that is already stored. */
    method MergeSources(slot: Slot, at: nat, newSources: seq<string>)
      requires at < |RulesIn(rules, slot)|
      modifies this`rules, this`merged
      ensures var found := old(RulesIn(rules, slot));
        var sources := MergedSources(found[at].sources, newSources);
        && rules == old(rules)[slot := found[at := found[at].(sources := sources)]]
        && merged == old(merged) + if sources == found[at].sources then 0 else 1
    {
      var found := RulesIn(rules, slot);
      var current := found[at].sources;
      var sources, updated, k := current, false, 0;
      while k < |newSources|
        invariant k <= |newSources|
        invariant MergedSources(sources, newSources[k..]) == MergedSources(current, newSources)
        invariant |sources| >= |current| && sources[..|current|] == current
        invariant updated <==> |sources| > |current|
      {
        assert newSources[k..][0] == newSources[k] && newSources[k..][1..] == newSources[k + 1..];
        if newSources[k] !in sources && |sources| < MAX_SOURCES {
          sources, updated := sources + [newSources[k]], true;
        }
        k := k + 1;
      }
      if updated { merged := merged + 1; }
      rules := rules[slot := found[at := found[at].(sources := sources)]];
    }

    /** The one path every collection shares: an exact duplicate merges sources, a new text is stored. */
    method AddGenericRule(slot: Slot, text: string, source: string)
      modifies this`rules, this`duplicates, this`merged, this`counts
      ensures Contents() == Keep(old(Contents()), slot, NewRule(slot, text, oracle), source)
    {
      var at := FindText(RulesIn(rules, slot), text);
      if at >= 0 {
        MergeSources(slot, at, [source]);
        duplicates := duplicates + 1;
        return;
      }
      rules := rules[slot := RulesIn(rules, slot) + [StoredRule(NewRule(slot, text, oracle), [source])]];
      counts := counts[slot := CountIn(counts, slot) + 1];
    }

    method HandleCosmeticRule(text: string, source: string)
      modifies this`rules, this`duplicates, this`merged, this`counts, this`invalid
      ensures Contents() == Sort(old(Contents()), if oracle.selector(text) == "" then Invalid
                                                  else Put(Cosmetic, NewRule(Cosmetic, text, oracle), source))
    {
      if oracle.selector(text) == "" {
        invalid := invalid + 1;
        return;
      }
      AddGenericRule(Cosmetic, text, source);
    }

    method SortRule(text: string, source: string)
      modifies this
      ensures Contents() == Sort(old(Contents()), ReadLine(text, source, oracle))
    {
      if text == "" {
        skipped := skipped + 1;
        return;
      }
      match ClassOf(oracle.classify(text)) {
        case Comment => skipped := skipped + 1;
        case Preprocessor => preprocessor := preprocessor + 1;
        case Hint => hint := hint + 1;
        case Unknown => invalid := invalid + 1;
        case Kept(slot) =>
          if slot == Cosmetic {
            HandleCosmeticRule(text, source);
          } else {
            AddGenericRule(slot, text, source);
          }
      }
    }

    method AddRule(originalRule: string, sourceName: string)
      modifies this
      ensures Contents() == SortAll(old(Contents()), LinesOf(originalRule, sourceName, oracle))
      decreases if IsEntry(Trim(originalRule)) then 0 else 1, 0
    {
      totalProcessed := totalProcessed + 1;
      OneLine(old(Contents()), Invalid);
      if HasControl(originalRule) {
        invalid := invalid + 1;
        return;
      }
      var trimmedRule := Trim(originalRule);
      if IsEntry(trimmedRule) {
        OneLineOf(originalRule, sourceName, oracle);
        OneLine(old(Contents()), ReadLine(trimmedRule, sourceName, oracle));
        SortRule(trimmedRule, sourceName);
        return;
      }
      totalProcessed := totalProcessed - 1;
      AddEntries(trimmedRule, sourceName);
      if ExpandHostsLine(trimmedRule) == [] {
        totalProcessed := totalProcessed + 1;
        invalid := invalid + 1;
      }
    }

    method AddEntries(trimmedRule: string, sourceName: string)
      requires !IsEntry(trimmedRule)
      modifies this
      ensures Contents() == SortAll(old(Contents()), ReadAll(ExpandHostsLine(trimmedRule), sourceName, oracle))
      decreases 0, 1
    {
      var expanded := ExpandHostsLine(trimmedRule);
      for k := 0 to |expanded|
        invariant Contents() == SortAll(old(Contents()), ReadAll(expanded[..k], sourceName, oracle))
      {
        ghost var before := Contents();
        SortAllStep(old(Contents()), expanded, k, sourceName, oracle);
        ExpandedArePlain(trimmedRule, expanded[k]);
        OneLineOf(expanded[k], sourceName, oracle);
        OneLine(before, ReadLine(expanded[k], sourceName, oracle));
        AddRule(expanded[k], sourceName);
      }
      assert expanded[..|expanded|] == expanded;
    }

    /** Every stored rule, collection by collection. */
    method GetUniqueRules() returns (all: seq<StoredRule>)
      ensures all == AllRules(rules, ORDER)
    {
      all := [];
      for k := 0 to |ORDER|
        invariant all == AllRules(rules, ORDER[..k])
      {
        assert ORDER[..k + 1][..k] == ORDER[..k];
        all := all + RulesIn(rules, ORDER[k]);
      }
      assert ORDER[..|ORDER|] == ORDER;
    }
  }

  const ORDER: seq<Slot> :=
    [Blocking, Unblocking, Cosmetic, Scriptlet, Csp, Redirect, Replace, RemoveHeader, RemoveParam, HtmlFiltering,
     Permissions, ExtendedCss]

  function AllRules(rules: map<Slot, seq<StoredRule>>, slots: seq<Slot>): seq<StoredRule> {
    if slots == [] then [] else AllRules(rules, slots[..|slots| - 1]) + RulesIn(rules, slots[|slots| - 1])
  }
}
