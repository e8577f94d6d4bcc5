/** Grouping rules by canonical key, keeping the best of each group, and pruning what a kept parent
    wildcard already blocks. */
module Deduplicator {
  import opened Text
  import opened RuleKeys

  datatype StoredRule = StoredRule(
    originalRule: string,
    kind: string,
    enabled: bool,
    sources: seq<string>,
    modifiers: seq<string>,
    tags: seq<string>,
    isDated: bool,
    isTrusted: bool,
    attribution: string)

  // ---------- the best rule of a group ----------

  function Bonus(condition: bool, points: nat): nat {
    if condition then points else 0
  }

  /** The pattern before any `$` or `#` has no wildcard. */
  predicate IsExactMatch(rule: string) {
    var core := Trim(Split(Split(rule, '$')[0], '#')[0]);
    '*' !in core && '^' !in core && '|' !in core
  }

  function Score(rule: StoredRule): nat {
    if rule.originalRule == "" then 0
    else
      var lower := Lower(rule.originalRule);
      |rule.sources| * 2 + |rule.modifiers| * 2 + Bonus(rule.isDated, 5) + Bonus(Contains(lower, "$important"), 10) +
      Bonus(rule.isTrusted, 15) + Bonus(Contains(Lower(rule.attribution), "greigh studios llc"), 20) +
      Bonus(Contains(lower, "$domain="), 8) + Bonus(IsExactMatch(rule.originalRule), 5)
  }

  predicate HasImportant(rule: StoredRule) {
    Contains(rule.originalRule, "$important")
  }

  predicate IsSuffix(rule: StoredRule) {
    SuffixDomain(rule.originalRule).Some?
  }

  /** The three preferences that come before the score, as one rank: enabled, important, suffix. */
  function Rank(rule: StoredRule): nat {
    Bonus(rule.enabled, 4) + Bonus(HasImportant(rule), 2) + Bonus(IsSuffix(rule), 1)
  }

  predicate Displaces(current: StoredRule, best: StoredRule) {
    if current.enabled != best.enabled then current.enabled
    else if HasImportant(current) != HasImportant(best) then HasImportant(current)
    else if IsSuffix(current) != IsSuffix(best) then IsSuffix(current)
    else if Score(current) == Score(best) then |current.originalRule| < |best.originalRule|
    else Score(current) > Score(best)
  }

  function Best(group: seq<StoredRule>): StoredRule
    requires group != []
  {
    var last := group[|group| - 1];
    if |group| == 1 then last
    else
      var best := Best(group[..|group| - 1]);
      if Displaces(last, best) then last else best
  }

  method SelectBestRule(group: seq<StoredRule>) returns (best: StoredRule)
    requires group != []
    ensures best == Best(group)
  {
    best := group[0];
    for k := 1 to |group|
      invariant best == Best(group[..k])
    {
      assert group[..k + 1][..k] == group[..k];
      if Displaces(group[k], best) { best := group[k]; }
    }
    assert group[..|group|] == group;
  }

  /** Insertion-ordered union, as a `Set` keeps it. */
  function Union(a: seq<string>, b: seq<string>): (r: seq<string>)
    decreases |b|
  {
    if b == [] then a else Union(if b[0] in a then a else a + [b[0]], b[1..])
  }

  function AllSources(group: seq<StoredRule>, start: seq<string>): seq<string>
    decreases |group|
  {
    if group == [] then start else AllSources(group[1..], Union(start, group[0].sources))
  }

  function AllModifiers(group: seq<StoredRule>, start: seq<string>): seq<string>
    decreases |group|
  {
    if group == [] then start else AllModifiers(group[1..], Union(start, group[0].modifiers))
  }

  function AllTags(group: seq<StoredRule>, start: seq<string>): seq<string>
    decreases |group|
  {
    if group == [] then start else AllTags(group[1..], Union(start, group[0].tags))
  }

  /** The best rule with the metadata of its whole group. */
  function Merged(group: seq<StoredRule>): StoredRule
    requires group != []
  {
    var best := Best(group);
    best.(sources := AllSources(group, Union([], best.sources)),
          modifiers := AllModifiers(group, Union([], best.modifiers)),
          tags := AllTags(group, []),
          isDated := true)
  }

  /** What a group is reduced to: a lone rule as it is, several as the best with merged metadata. */
  function Representative(group: seq<StoredRule>): StoredRule
    requires group != []
  {
    if |group| > 1 then Merged(group) else group[0]
  }

  // ---------- grouping ----------

  datatype Keyed = Keyed(key: string, rule: StoredRule)

  /** The canonical key as a function value, so that lemmas about grouping do not unfold its reading. */
  predicate Read(text: string) {
    true
  }

  ghost predicate IsKeying(keyOf: string -> string) {
    forall text {:trigger Read(text)} :: keyOf(text) == StripRule(text)
  }

  lemma KeyingOf() returns (keyOf: string -> string)
    ensures IsKeying(keyOf)
  {
    keyOf := text => StripRule(text);
  }

  /** Each rule with its key; a rule without text has the empty key. */
  function KeyedOf(rules: seq<StoredRule>, keyOf: string -> string): (r: seq<Keyed>)
    ensures |r| == |rules|
  {
    if rules == [] then []
    else
      var rule := rules[|rules| - 1];
      KeyedOf(rules[..|rules| - 1], keyOf) + [Keyed(keyOf(rule.originalRule), rule)]
  }

  /** The keys in the order they are first met. */
  function Keys(ks: seq<Keyed>): seq<string> {
    if ks == [] then []
    else
      var front, key := Keys(ks[..|ks| - 1]), ks[|ks| - 1].key;
      if key == "" || key in front then front else front + [key]
  }

  function Group(ks: seq<Keyed>, key: string): seq<StoredRule> {
    if ks == [] then []
    else Group(ks[..|ks| - 1], key) + if ks[|ks| - 1].key == key then [ks[|ks| - 1].rule] else []
  }

  function Skipped(ks: seq<Keyed>): nat {
    if ks == [] then 0 else Skipped(ks[..|ks| - 1]) + if ks[|ks| - 1].key == "" then 1 else 0
  }

  ghost predicate IsGrouping(groups: map<string, seq<StoredRule>>, keys: seq<string>, ks: seq<Keyed>) {
    && keys == Keys(ks)
    && (forall key :: key in keys <==> key in groups)
    && (forall key :: key in groups ==> groups[key] == Group(ks, key))
  }

  lemma Extended(ks: seq<Keyed>, k: Keyed)
    ensures (ks + [k])[..|ks|] == ks && (ks + [k])[|ks + [k]| - 1] == k
  {
  }

  lemma Appended(ks: seq<Keyed>, k: Keyed, key: string)
    ensures Group(ks + [k], key) == if k.key == key then Group(ks, key) + [k.rule] else Group(ks, key)
  {
    Extended(ks, k);
    assert Group(ks, key) + [] == Group(ks, key);
  }

  lemma {:induction false} NoEmptyKey(ks: seq<Keyed>)
    ensures "" !in Keys(ks)
  {
    if ks != [] { NoEmptyKey(ks[..|ks| - 1]); }
  }

  lemma GroupingKept(groups: map<string, seq<StoredRule>>, keys: seq<string>, ks: seq<Keyed>, k: Keyed)
    requires IsGrouping(groups, keys, ks) && k.key == ""
    ensures IsGrouping(groups, keys, ks + [k])
  {
    Extended(ks, k);
    NoEmptyKey(ks);
    forall key | key in groups ensures groups[key] == Group(ks + [k], key) { Appended(ks, k, key); }
  }

  lemma GroupingGrown(groups: map<string, seq<StoredRule>>, keys: seq<string>, ks: seq<Keyed>, k: Keyed,
                      grown: map<string, seq<StoredRule>>)
    requires IsGrouping(groups, keys, ks) && k.key != ""
    requires grown == groups[k.key := (if k.key in groups then groups[k.key] else []) + [k.rule]]
    ensures IsGrouping(grown, if k.key in groups then keys else keys + [k.key], ks + [k])
  {
    Extended(ks, k);
    KeysHaveGroups(ks, k.key);
    forall key | key in grown ensures grown[key] == Group(ks + [k], key) { Appended(ks, k, key); }
  }

  // ---------- the reduced list ----------

  /** One rule for each key, in the order the keys were met: the representative of its group. */
  ghost predicate IsReduced(reduced: seq<StoredRule>, ks: seq<Keyed>, keys: seq<string>) {
    |reduced| == |keys| &&
    forall i :: 0 <= i < |keys| ==> Group(ks, keys[i]) != [] && reduced[i] == Representative(Group(ks, keys[i]))
  }

  lemma ReducedGrown(reduced: seq<StoredRule>, ks: seq<Keyed>, keys: seq<string>, key: string, kept: StoredRule)
    requires IsReduced(reduced, ks, keys) && Group(ks, key) != [] && kept == Representative(Group(ks, key))
    ensures IsReduced(reduced + [kept], ks, keys + [key])
  {
  }

  lemma {:induction false} KeysHaveGroups(ks: seq<Keyed>, key: string)
    ensures key in Keys(ks) <==> key != "" && Group(ks, key) != []
  {
    if ks != [] { KeysHaveGroups(ks[..|ks| - 1], key); }
  }

  // ---------- pruning ----------

  /** The domain a `||domain^$badfilter` line disables. */
  function DisabledDomain(rule: StoredRule): Option<string> {
    var marker := "^$badfilter";
    var text := rule.originalRule;
    var n := |text| - |marker|;
    if rule.enabled && n > 2 && StartsWith(text, "||") && Lower(text[n..]) == marker && IsDomainText(text[2..n])
    then Some(Lower(text[2..n]))
    else None
  }

  /** The domain a rule blocks with everything under it. */
  function WildcardDomain(rule: StoredRule): Option<string> {
    if rule.kind == "blocking" && rule.enabled && !StartsWith(rule.originalRule, "@@") &&
       SuffixDomain(rule.originalRule).Some?
    then Some(Lower(SuffixDomain(rule.originalRule).value))
    else None
  }

  /** The words between runs of whitespace, of a text without outer whitespace. */
  function SecondWord(s: string): Option<string> {
    var end := WordEnd(s, 0);
    var from := SpacesFrom(s, end);
    if end == |s| then None else Some(s[from..WordEnd(s, from)])
  }

  predicate IsNeverPruned(rule: StoredRule) {
    rule.kind != "blocking" || StartsWith(rule.originalRule, "@@") || Contains(rule.originalRule, "##")
  }

  /** The domain a prunable rule names, if one can be read; empty when none can. */
  function TargetDomain(text: string): string {
    if StartsWith(text, "||") then
      (match SuffixDomain(text) case None => "" case Some(domain) => Lower(domain))
    else if StartsWith(text, "0.0.0.0 ") || StartsWith(text, "127.0.0.1 ") then
      (match SecondWord(Trim(text)) case None => "" case Some(word) => Lower(word))
    else if '/' !in text && '$' !in text then Lower(Trim(text))
    else ""
  }

  /** Some parent of the candidate, itself included, is a wildcard; a bare top-level label is not looked up. */
  predicate HasParent(candidate: string, parents: set<string>)
    decreases |candidate|
  {
    var dot := IndexOf(candidate, '.', 0);
    dot >= 0 && (candidate in parents || HasParent(candidate[dot + 1..], parents))
  }

  predicate IsCovered(target: string, parents: set<string>) {
    var dot := IndexOf(target, '.', 0);
    dot > 0 && HasParent(target[dot + 1..], parents)
  }

  /** What pruning reads off one rule: the domain it may be pruned for (empty when it never is), the
      wildcard it is, and the wildcard it disables. */
  datatype Listed = Listed(rule: StoredRule, target: string, wildcard: Option<string>, disabled: Option<string>)

  function ListedOf(rule: StoredRule): Listed {
    Listed(rule, if IsNeverPruned(rule) then "" else TargetDomain(rule.originalRule), WildcardDomain(rule),
           DisabledDomain(rule))
  }

  function Listing(rules: seq<StoredRule>): (r: seq<Listed>)
    ensures |r| == |rules|
  {
    if rules == [] then [] else Listing(rules[..|rules| - 1]) + [ListedOf(rules[|rules| - 1])]
  }

  function Disabled(ls: seq<Listed>): set<string> {
    set l | l in ls && l.disabled.Some? :: l.disabled.value
  }

  /** The active wildcards among the rules. */
  function Wildcards(ls: seq<Listed>, disabled: set<string>): set<string> {
    set l | l in ls && l.wildcard.Some? && l.wildcard.value !in disabled :: l.wildcard.value
  }

  function ParentWildcards(ls: seq<Listed>): set<string> {
    Wildcards(ls, Disabled(ls))
  }

  predicate IsRedundant(l: Listed, parents: set<string>) {
    l.target != "" && IsCovered(l.target, parents)
  }

  function Keep(ls: seq<Listed>, parents: set<string>): seq<Listed> {
    if ls == [] then []
    else
      var l := ls[|ls| - 1];
      Keep(ls[..|ls| - 1], parents) + if IsRedundant(l, parents) then [] else [l]
  }

  /** The rules no active wildcard above them makes redundant. */
  function Pruned(ls: seq<Listed>): seq<Listed> {
    Keep(ls, ParentWildcards(ls))
  }

  function RulesOf(ls: seq<Listed>): (r: seq<StoredRule>)
    ensures |r| == |ls|
  {
    if ls == [] then [] else RulesOf(ls[..|ls| - 1]) + [ls[|ls| - 1].rule]
  }

  lemma {:induction false} NoParentsKeepAll(ls: seq<Listed>)
    ensures Keep(ls, {}) == ls
  {
    if ls != [] {
      NoParentsKeepAll(ls[..|ls| - 1]);
      NeverCovered(ls[|ls| - 1].target);
    }
  }

  lemma NeverCovered(target: string)
    ensures !IsCovered(target, {})
  {
    var dot := IndexOf(target, '.', 0);
    if dot > 0 { NoParent(target[dot + 1..]); }
  }

  lemma {:induction false} NoParent(candidate: string)
    ensures !HasParent(candidate, {})
    decreases |candidate|
  {
    var dot := IndexOf(candidate, '.', 0);
    if dot >= 0 { NoParent(candidate[dot + 1..]); }
  }

  lemma SetStep<T>(rules: seq<T>, k: nat)
    requires k < |rules|
    ensures forall r :: r in rules[..k + 1] <==> r in rules[..k] || r == rules[k]
    ensures rules[..k + 1][..k] == rules[..k] && rules[..k + 1][k] == rules[k]
  {
    assert rules[..k + 1] == rules[..k] + [rules[k]];
  }

  lemma PrefixOf<T>(s: seq<T>, k: nat)
    requires k < |s|
    ensures s[..k + 1] == s[..k] + [s[k]]
  {
  }

  class RuleDeduplicator {
    var filteredKeys: seq<string>
    var filteredRules: map<string, StoredRule>
    var total: nat
    var duplicates: nat
    var merged: nat
    var skipped: nat
    var uniqueRules: nat
    var duplicateGroups: nat
    var subdomainsPruned: nat

    constructor ()
      ensures total == 0 && duplicates == 0 && merged == 0 && skipped == 0
    {
      filteredKeys, filteredRules := [], map[];
      total, duplicates, merged, skipped := 0, 0, 0, 0;
      uniqueRules, duplicateGroups, subdomainsPruned := 0, 0, 0;
    }

    method Clear()
      modifies this
      ensures filteredKeys == [] && filteredRules == map[]
      ensures total == 0 && duplicates == 0 && merged == 0 && skipped == 0
      ensures uniqueRules == 0 && duplicateGroups == 0 && subdomainsPruned == 0
    {
      filteredKeys, filteredRules := [], map[];
      total, duplicates, merged, skipped := 0, 0, 0, 0;
      uniqueRules, duplicateGroups, subdomainsPruned := 0, 0, 0;
    }

    static method ListRules(rules: seq<StoredRule>) returns (ls: seq<Listed>)
      ensures ls == Listing(rules)
    {
      ls := [];
      for k := 0 to |rules|
        invariant ls == Listing(rules[..k])
      {
        SetStep(rules, k);
        ls := ls + [ListedOf(rules[k])];
      }
      assert rules[..|rules|] == rules;
    }

    static method CollectDisabled(ls: seq<Listed>) returns (disabled: set<string>)
      ensures disabled == Disabled(ls)
    {
      disabled := {};
      for k := 0 to |ls|
        invariant disabled == Disabled(ls[..k])
      {
        SetStep(ls, k);
        if ls[k].disabled.Some? { disabled := disabled + {ls[k].disabled.value}; }
      }
      assert ls[..|ls|] == ls;
    }

    static method CollectWildcards(ls: seq<Listed>, disabled: set<string>) returns (parents: set<string>)
      ensures parents == Wildcards(ls, disabled)
    {
      parents := {};
      for k := 0 to |ls|
        invariant parents == Wildcards(ls[..k], disabled)
      {
        SetStep(ls, k);
        var domain := ls[k].wildcard;
        if domain.Some? && domain.value !in disabled { parents := parents + {domain.value}; }
      }
      assert ls[..|ls|] == ls;
    }

    static method FindParent(target: string, parents: set<string>) returns (found: bool)
      ensures found == IsCovered(target, parents)
    {
      var dot := IndexOf(target, '.', 0);
      if dot <= 0 { return false; }
      var candidate := target[dot + 1..];
      while true
        invariant HasParent(candidate, parents) == IsCovered(target, parents)
        decreases |candidate|
      {
        var next := IndexOf(candidate, '.', 0);
        if next < 0 { return false; }
        if candidate in parents { return true; }
        candidate := candidate[next + 1..];
      }
    }

    method PruneRedundantSubdomains(ls: seq<Listed>) returns (result: seq<Listed>)
      modifies this`duplicates
      ensures result == Pruned(ls)
      ensures duplicates + |result| == old(duplicates) + |ls|
    {
      var disabled := CollectDisabled(ls);
      var parents := CollectWildcards(ls, disabled);
      if parents == {} {
        NoParentsKeepAll(ls);
        return ls;
      }
      result := [];
      for k := 0 to |ls|
        invariant result == Keep(ls[..k], parents)
        invariant duplicates + |result| == old(duplicates) + k
      {
        SetStep(ls, k);
        if ls[k].target == "" {
          result := result + [ls[k]];
          continue;
        }
        var redundant := FindParent(ls[k].target, parents);
        if redundant {
          duplicates := duplicates + 1;
        } else {
          result := result + [ls[k]];
        }
      }
      assert ls[..|ls|] == ls;
    }

    static method KeyRules(rules: seq<StoredRule>, ghost keyOf: string -> string) returns (ks: seq<Keyed>)
      requires IsKeying(keyOf)
      ensures ks == KeyedOf(rules, keyOf)
    {
      ks := [];
      for k := 0 to |rules|
        invariant ks == KeyedOf(rules[..k], keyOf)
      {
        SetStep(rules, k);
        assert Read(rules[k].originalRule);
        ks := ks + [Keyed(StripRule(rules[k].originalRule), rules[k])];
      }
      assert rules[..|rules|] == rules;
    }

    method GroupRules(ks: seq<Keyed>) returns (groups: map<string, seq<StoredRule>>, keys: seq<string>)
      modifies this`skipped
      ensures IsGrouping(groups, keys, ks)
      ensures skipped == old(skipped) + Skipped(ks)
    {
      groups, keys := map[], [];
      assert IsGrouping(groups, keys, ks[..0]);
      for k := 0 to |ks|
        invariant IsGrouping(groups, keys, ks[..k]) && skipped == old(skipped) + Skipped(ks[..k])
      {
        SetStep(ks, k);
        PrefixOf(ks, k);
        var stripped, rule := ks[k].key, ks[k].rule;
        if stripped == "" {
          GroupingKept(groups, keys, ks[..k], ks[k]);
          skipped := skipped + 1;
        } else if stripped in groups {
          GroupingGrown(groups, keys, ks[..k], ks[k], groups[stripped := groups[stripped] + [rule]]);
          groups := groups[stripped := groups[stripped] + [rule]];
        } else {
          assert [] + [rule] == [rule];
          GroupingGrown(groups, keys, ks[..k], ks[k], groups[stripped := [rule]]);
          groups, keys := groups[stripped := [rule]], keys + [stripped];
        }
      }
      assert ks[..|ks|] == ks;
    }

    static method Reduce(group: seq<StoredRule>) returns (kept: StoredRule)
      requires group != []
      ensures kept == Representative(group)
    {
      kept := group[0];
      if |group| > 1 {
        var best := SelectBestRule(group);
        kept := best.(sources := AllSources(group, Union([], best.sources)),
                      modifiers := AllModifiers(group, Union([], best.modifiers)),
                      tags := AllTags(group, []),
                      isDated := true);
      }
    }

    /** One group reduced, and what that adds to the list and to the counters. */
    method ReduceGroup(group: seq<StoredRule>, key: string, ghost reduced: seq<StoredRule>, ghost ks: seq<Keyed>,
                       ghost keys: seq<string>)
      returns (kept: StoredRule)
      requires group == Group(ks, key) && group != [] && IsReduced(reduced, ks, keys)
      modifies this`filteredKeys, this`filteredRules, this`duplicates, this`merged, this`duplicateGroups
      ensures IsReduced(reduced + [kept], ks, keys + [key])
      ensures filteredKeys == old(filteredKeys) + [key] && filteredRules == old(filteredRules)[key := kept]
      ensures duplicates == old(duplicates) + |group| - 1
    {
      if |group| > 1 {
        duplicates := duplicates + |group| - 1;
        merged, duplicateGroups := merged + 1, duplicateGroups + 1;
      }
      kept := Reduce(group);
      ReducedGrown(reduced, ks, keys, key, kept);
      filteredKeys, filteredRules := filteredKeys + [key], filteredRules[key := kept];
    }

    method ReduceGroups(groups: map<string, seq<StoredRule>>, keys: seq<string>, ghost ks: seq<Keyed>)
      returns (reduced: seq<StoredRule>)
      requires IsGrouping(groups, keys, ks)
      modifies this`filteredKeys, this`filteredRules, this`duplicates, this`merged, this`duplicateGroups
      ensures IsReduced(reduced, ks, keys) && filteredKeys == keys
      ensures duplicates == old(duplicates) + Surplus(ks, keys)
    {
      reduced, filteredKeys, filteredRules := [], [], map[];
      assert keys[..0] == [];
      for k := 0 to |keys|
        invariant IsReduced(reduced, ks, keys[..k]) && filteredKeys == keys[..k]
        invariant duplicates == old(duplicates) + Surplus(ks, keys[..k])
      {
        PrefixOf(keys, k);
        var key := keys[k];
        assert key in keys;
        KeysHaveGroups(ks, key);
        SurplusGrown(ks, keys[..k], key);
        var kept := ReduceGroup(groups[key], key, reduced, ks, keys[..k]);
        reduced := reduced + [kept];
      }
      assert keys[..|keys|] == keys;
    }

    method Optimize(unpruned: seq<StoredRule>) returns (optimized: seq<StoredRule>)
      modifies this`duplicates, this`uniqueRules, this`subdomainsPruned
      ensures optimized == RulesOf(Pruned(Listing(unpruned)))
      ensures duplicates + |optimized| == old(duplicates) + |unpruned| && uniqueRules == |optimized|
    {
      var listing := ListRules(unpruned);
      var kept := PruneRedundantSubdomains(listing);
      optimized := RulesOf(kept);
      uniqueRules := |optimized|;
      KeepIsShorter(listing, ParentWildcards(listing));
      subdomainsPruned := |unpruned| - |optimized|;
    }

    method ProcessKeyed(ks: seq<Keyed>) returns (optimized: seq<StoredRule>, ghost unpruned: seq<StoredRule>)
      modifies this
      ensures total == old(total)
      ensures IsReduced(unpruned, ks, Keys(ks)) && optimized == RulesOf(Pruned(Listing(unpruned)))
      ensures skipped == old(skipped) + Skipped(ks) && uniqueRules == |optimized|
      ensures old(skipped) + old(duplicates) + |ks| == skipped + duplicates + |optimized|
    {
      var groups, keys := GroupRules(ks);
      var reduced := ReduceGroups(groups, keys, ks);
      GroupsCoverAll(ks);
      unpruned := reduced;
      optimized := Optimize(reduced);
    }

    /** The second result is the list before pruning, for the contract only. */
    method ProcessRules(rules: seq<StoredRule>, ghost keyOf: string -> string)
      returns (optimized: seq<StoredRule>, ghost unpruned: seq<StoredRule>)
      requires IsKeying(keyOf)
      modifies this
      ensures IsReduced(unpruned, KeyedOf(rules, keyOf), Keys(KeyedOf(rules, keyOf)))
      ensures optimized == RulesOf(Pruned(Listing(unpruned)))
      ensures total == |rules| && skipped == Skipped(KeyedOf(rules, keyOf)) && uniqueRules == |optimized|
      ensures total == skipped + duplicates + |optimized|
    {
      Clear();
      if rules == [] {
        NothingToProcess(keyOf);
        return [], [];
      }
      total := |rules|;
      var ks := KeyRules(rules, keyOf);
      optimized, unpruned := ProcessKeyed(ks);
    }
  }

  lemma NothingToProcess(keyOf: string -> string)
    ensures KeyedOf([], keyOf) == [] && IsReduced([], [], Keys([])) && RulesOf(Pruned(Listing([]))) == []
  {
  }

  // ---------- the counters ----------

  /** The rules beyond the first of each group. */
  function Surplus(ks: seq<Keyed>, keys: seq<string>): int {
    if keys == [] then 0 else Surplus(ks, keys[..|keys| - 1]) + |Group(ks, keys[|keys| - 1])| - 1
  }

  lemma SurplusGrown(ks: seq<Keyed>, keys: seq<string>, key: string)
    ensures Surplus(ks, keys + [key]) == Surplus(ks, keys) + |Group(ks, key)| - 1
  {
    assert (keys + [key])[..|keys|] == keys;
  }

  lemma {:induction false} KeepIsShorter(ls: seq<Listed>, parents: set<string>)
    ensures |Keep(ls, parents)| <= |ls|
  {
    if ls != [] { KeepIsShorter(ls[..|ls| - 1], parents); }
  }

  /** The sizes of the groups of some keys, added up. */
  function Sizes(ks: seq<Keyed>, keys: seq<string>): nat {
    if keys == [] then 0 else Sizes(ks, keys[..|keys| - 1]) + |Group(ks, keys[|keys| - 1])|
  }

  lemma {:induction false} SizesAppended(ks: seq<Keyed>, k: Keyed, keys: seq<string>)
    requires forall i, j :: 0 <= i < j < |keys| ==> keys[i] != keys[j]
    ensures Sizes(ks + [k], keys) == Sizes(ks, keys) + if k.key in keys then 1 else 0
  {
    if keys != [] {
      var front, last := keys[..|keys| - 1], keys[|keys| - 1];
      assert keys == front + [last];
      SizesAppended(ks, k, front);
      Appended(ks, k, last);
    }
  }

  lemma {:induction false} KeysAreDistinct(ks: seq<Keyed>)
    ensures forall i, j :: 0 <= i < j < |Keys(ks)| ==> Keys(ks)[i] != Keys(ks)[j]
  {
    if ks != [] { KeysAreDistinct(ks[..|ks| - 1]); }
  }

  lemma {:induction false} SizesOfAll(ks: seq<Keyed>)
    ensures Sizes(ks, Keys(ks)) + Skipped(ks) == |ks|
  {
    if ks != [] {
      var front, last := ks[..|ks| - 1], ks[|ks| - 1];
      assert ks == front + [last];
      SizesOfAll(front);
      NoEmptyKey(front);
      KeysAreDistinct(front);
      SizesAppended(front, last, Keys(front));
      if last.key != "" && last.key !in Keys(front) {
        KeysHaveGroups(front, last.key);
        Appended(front, last, last.key);
        var keys := Keys(front) + [last.key];
        assert keys[..|keys| - 1] == Keys(front);
      }
    }
  }

  lemma {:induction false} SurplusAndKeys(ks: seq<Keyed>, keys: seq<string>)
    ensures Surplus(ks, keys) + |keys| == Sizes(ks, keys)
  {
    if keys != [] { SurplusAndKeys(ks, keys[..|keys| - 1]); }
  }

  /** Every rule is skipped, represents its group, or is one of its group's duplicates. */
  lemma GroupsCoverAll(ks: seq<Keyed>)
    ensures |ks| == Skipped(ks) + Surplus(ks, Keys(ks)) + |Keys(ks)|
  {
    SizesOfAll(ks);
    SurplusAndKeys(ks, Keys(ks));
  }
}
