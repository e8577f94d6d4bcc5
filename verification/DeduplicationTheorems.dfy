/** Deduplication keeps every host's verdict: equal keys mean equal targets, the best of a group blocks
    whatever the group blocks, and what pruning drops a kept wildcard covers. */
module DeduplicationTheorems {
  import opened Text
  import opened RuleSyntax
  import opened RuleKeys
  import opened Deduplicator
  import opened PruningTheorems
  import Sorting

  // ---------- what a line says ----------

  /** The four forms the theorem speaks of; the domain is folded. */
  datatype Reading =
    | SuffixBlock(domain: string)
    | HostBlock(domain: string)
    | Allow(domain: string)
    | ImportantBlock(domain: string)
    | Other

  const IMPORTANT := "$important"

  /** The name of a hosts line without options or comment. */
  function HostsLine(text: string): Option<string> {
    if IsTrimmed(text) && '#' !in text && HostsTarget(text).Some? && IsDomainText(HostsTarget(text).value)
    then Some(HostsTarget(text).value)
    else None
  }

  predicate IsImportantText(text: string) {
    |text| > 10 && text[|text| - 10..] == IMPORTANT && SuffixDomain(text[..|text| - 10]).Some?
  }

  predicate IsAllowText(text: string) {
    StartsWith(text, "@@") && SuffixDomain(text[2..]).Some?
  }

  function ReadingOf(text: string): Reading {
    if SuffixDomain(text).Some? then SuffixBlock(Lower(SuffixDomain(text).value))
    else if IsAllowText(text) then Allow(Lower(SuffixDomain(text[2..]).value))
    else if IsImportantText(text) then ImportantBlock(Lower(SuffixDomain(text[..|text| - 10]).value))
    else if HostsLine(text).Some? then HostBlock(Lower(HostsLine(text).value))
    else Other
  }

  /** One of the four forms, and its domain has no trailing dot. */
  predicate IsPlainReading(r: Reading) {
    r != Other && IsDomainText(r.domain) && r.domain[|r.domain| - 1] != '.'
  }

  function KeyOfReading(r: Reading): string
    requires r != Other
  {
    match r
    case SuffixBlock(d) => d
    case HostBlock(d) => d
    case Allow(d) => "@@" + d
    case ImportantBlock(d) => d + "|mods=important"
  }

  // ---------- the key of each form ----------

  lemma {:induction false} NoMarker(s: string, i: nat)
    requires '#' !in s && !Contains(s, "$$")
    ensures FindMarker(s, i) == None
    decreases |s| - i
  {
    if i < |s| {
      MarkerIsAt(s, i, COSMETIC_MARKERS);
      forall m | m in COSMETIC_MARKERS ensures !At(s, i, m) { MarkerHasHashOrDollars(m, s, i); }
      NoMarker(s, i + 1);
    }
  }

  lemma MarkerHasHashOrDollars(m: string, s: string, i: nat)
    requires m in COSMETIC_MARKERS && '#' !in s && !Contains(s, "$$") && i <= |s|
    ensures !At(s, i, m)
  {
    assert m == "$$" || m[0] == '#';
    if m[0] == '#' { LacksChar(s, m, 0); }
    assert !Contains(s, m);
  }

  lemma NotAnException(s: string)
    requires '#' !in s && !StartsWith(s, "@@")
    ensures !IsRuleException(s)
  {
    forall m | m in EXCEPTION_MARKERS ensures !Contains(s, m) {
      assert m[0] == '#';
      LacksChar(s, m, 0);
    }
  }

  /** A text without cosmetic marks is keyed as a network rule. */
  lemma NetworkRead(text: string, input: string)
    requires IsTrimmed(text) && text != "" && '#' !in text && input == WithoutAt(text) && !Contains(input, "$$")
    ensures StripRule(text) == (if StartsWith(text, "@@") then "@@" else "") + NetworkKey(input)
  {
    TrimIsTrimmed(text);
    if !StartsWith(text, "@@") { NotAnException(text); }
    assert '#' !in input;
    NoMarker(input, 0);
  }

  lemma NoOptions(input: string)
    requires '$' !in input && (input != "" ==> input[0] != '/')
    ensures OptionsAt(input) == -1 && NetworkKey(input) == CanonicalTarget(input)
  {
  }

  lemma LowerDomain(d: string)
    requires IsDomainText(d)
    ensures IsDomainText(Lower(d))
  {
    forall k | 0 <= k < |d| ensures IsDomainChar(Lower(d)[k]) { assert IsDomainChar(d[k]); }
  }

  lemma NotHosts(text: string)
    requires text != "" && text[0] != '0' && text[0] != '1' && text[0] != ':'
    ensures HostsTarget(text) == None
  {
    assert "0.0.0.0"[0] == '0' && "127.0.0.1"[0] == '1' && "::1"[0] == ':' && "::"[0] == ':';
  }

  /** `||domain^` has its domain, folded, as target. */
  lemma SuffixTarget(input: string)
    requires SuffixDomain(input).Some? && IsPlainReading(SuffixBlock(Lower(SuffixDomain(input).value)))
    ensures CanonicalTarget(input) == Lower(SuffixDomain(input).value)
  {
    NotHosts(input);
  }

  lemma SuffixKey(text: string)
    requires SuffixDomain(text).Some? && IsPlainReading(SuffixBlock(Lower(SuffixDomain(text).value)))
    ensures StripRule(text) == Lower(SuffixDomain(text).value)
  {
    SuffixTextHasNo(text, '#');
    SuffixTextHasNo(text, '$');
    LacksChar(text, "$$", 0);
    assert !StartsWith(text, "@@") by { assert text[0] == '|'; }
    NetworkRead(text, text);
    NoOptions(text);
    SuffixTarget(text);
    assert "" + Lower(SuffixDomain(text).value) == Lower(SuffixDomain(text).value);
  }

  lemma AllowKey(text: string)
    requires IsAllowText(text) && IsPlainReading(Allow(Lower(SuffixDomain(text[2..]).value)))
    ensures StripRule(text) == "@@" + Lower(SuffixDomain(text[2..]).value)
  {
    var input := text[2..];
    AllowRead(text, input);
    SuffixTextHasNo(input, '$');
    assert input[0] == '|';
    NoOptions(input);
    SuffixTarget(input);
  }

  lemma AllowRead(text: string, input: string)
    requires IsAllowText(text) && input == text[2..]
    ensures StripRule(text) == "@@" + NetworkKey(input)
  {
    SuffixTextHasNo(input, '#');
    SuffixTextHasNo(input, '$');
    LacksChar(input, "$$", 0);
    assert text == "@@" + input;
    assert text[|text| - 1] == input[|input| - 1];
    NetworkRead(text, input);
  }

  /** A single folded word as options is its own modifier. */
  predicate IsWord(s: string) {
    s != "" && s != "domain" && IsTrimmed(s) && Lower(s) == s && ',' !in s && '=' !in s && !IsComplex(s)
  }

  lemma WordOption(s: string)
    requires IsWord(s)
    ensures ReadOption(Options("", []), s) == Options("", [s])
  {
    IndexOfAbsent(s, '=', 0);
    TrimIsTrimmed(s);
    assert [] + [s] == [s];
  }

  lemma WordSplits(s: string)
    requires ',' !in s
    ensures Split(s, ',') == [s]
  {
    IndexOfAbsent(s, ',', 0);
  }

  lemma WordRead1(s: string)
    requires IsWord(s)
    ensures ReadOptions(Options("", []), [s]) == Options("", [s])
  {
    WordOption(s);
    assert [s][1..] == [];
  }

  lemma WordOptions(s: string)
    requires IsWord(s)
    ensures OptionsKey(s) == "|mods=" + s
  {
    WordSplits(s);
    WordRead1(s);
    assert [s][1..] == [];
    assert Sorting.Sorted([s]) == [s];
    assert "" + ("|mods=" + s) == "|mods=" + s;
  }

  lemma ImportantIsWord(s: string)
    requires s == "important"
    ensures IsWord(s)
  {
    assert Lower(s) == s;
  }

  lemma KeyWithOptions(input: string, n: nat)
    requires OptionsAt(input) == n
    ensures NetworkKey(input) == CanonicalTarget(input[..n]) + OptionsKey(input[n + 1..])
  {
  }

  /** `||domain^$important` splits at its one `$`. */
  lemma ImportantSplits(text: string, n: nat)
    requires n == |text| - 10 && IsImportantText(text)
    ensures OptionsAt(text) == n && !Contains(text, "$$") && '#' !in text
  {
    var head := text[..n];
    SuffixTextHasNo(head, '$');
    SuffixTextHasNo(head, '#');
    assert text == head + IMPORTANT;
    forall k | 0 <= k < |text| ensures (text[k] == '$' <==> k == n) && text[k] != '#' {
      if k < n { assert text[k] == head[k] && head[k] in head; } else { assert text[k] == IMPORTANT[k - n]; }
    }
    IndexOfIs(text, '$', 0, n);
    if Contains(text, "$$") {
      var i :| 0 <= i <= |text| && At(text, i, "$$");
      AtIndex(text, i, "$$", 0);
      AtIndex(text, i, "$$", 1);
    }
    assert text[0] == head[0] == '|';
  }

  lemma WordNetworkKey(text: string, n: nat, options: string)
    requires OptionsAt(text) == n && options == text[n + 1..] && IsWord(options)
    ensures NetworkKey(text) == CanonicalTarget(text[..n]) + ("|mods=" + options)
  {
    KeyWithOptions(text, n);
    WordOptions(options);
  }

  lemma ImportantRead(text: string)
    requires IsImportantText(text)
    ensures StripRule(text) == NetworkKey(text)
  {
    var n := |text| - 10;
    ImportantSplits(text, n);
    assert text[0] == text[..n][0] == '|' && text[|text| - 1] == text[n..][9] == 't';
    NetworkRead(text, text);
    assert "" + NetworkKey(text) == NetworkKey(text);
  }

  lemma ImportantTail(text: string, n: nat)
    requires n == |text| - 10 && IsImportantText(text)
    ensures IsWord(text[n + 1..]) && "|mods=" + text[n + 1..] == "|mods=important"
  {
    assert text[n..] == IMPORTANT && text[n + 1..] == text[n..][1..] == "important";
    ImportantIsWord(text[n + 1..]);
  }

  lemma ImportantKey(text: string)
    requires IsImportantText(text) && IsPlainReading(ImportantBlock(Lower(SuffixDomain(text[..|text| - 10]).value)))
    ensures StripRule(text) == Lower(SuffixDomain(text[..|text| - 10]).value) + "|mods=important"
  {
    var n := |text| - 10;
    var head := text[..n];
    ImportantSplits(text, n);
    ImportantRead(text);
    SuffixTarget(head);
    ImportantTail(text, n);
    WordNetworkKey(text, n, text[n + 1..]);
  }

  // ---------- hosts lines ----------

  lemma HostsAddress(text: string) returns (address: string)
    requires HostsTarget(text).Some?
    ensures address in ADDRESSES && HostsNames(text, address) == HostsTarget(text)
  {
    if HostsNames(text, "0.0.0.0").Some? {
      address := "0.0.0.0";
    } else if HostsNames(text, "127.0.0.1").Some? {
      address := "127.0.0.1";
    } else if HostsNames(text, "::1").Some? {
      address := "::1";
    } else {
      address := "::";
    }
  }

  /** An address of `a` characters, whitespace up to `from`, and the name. */
  ghost predicate IsHostsText(text: string, a: nat, from: nat, name: string) {
    && a < from < |text| && text[..a] in ADDRESSES && text[from..] == name && IsDomainText(name)
    && forall k :: a <= k < from ==> IsSpace(text[k])
  }

  lemma HostsLineParts(text: string) returns (a: nat, from: nat)
    requires HostsLine(text).Some?
    ensures IsHostsText(text, a, from, HostsLine(text).value)
  {
    var address := HostsAddress(text);
    a := |address|;
    from := NamesParts(text, address);
    assert text[..a] == address;
  }

  lemma AddressChars(text: string, a: nat, k: nat)
    requires a <= |text| && text[..a] in ADDRESSES && k < a
    ensures text[k] in {'0', '1', '2', '7', '.', ':'} && (text[0] == '0' || text[0] == '1' || text[0] == ':')
  {
    var address := text[..a];
    assert address[k] == text[k] && address[0] == text[0];
    assert address[k] in {'0', '1', '2', '7', '.', ':'};
  }

  lemma NamesParts(text: string, address: string) returns (from: nat)
    requires IsTrimmed(text) && '#' !in text && HostsNames(text, address).Some?
    ensures |address| < from < |text| && text[from..] == HostsNames(text, address).value && StartsWith(text, address)
    ensures forall k :: |address| <= k < from ==> IsSpace(text[k])
  {
    from := SpacesFrom(text, |address|);
    SpacesAreSpaces(text, |address|);
    IndexOfAbsent(text, '#', from);
    assert text[from..][|text| - from - 1] == text[|text| - 1];
    TrimIsTrimmed(text[from..]);
  }

  lemma HostsTextHasNo(text: string, a: nat, from: nat, name: string, c: char)
    requires IsHostsText(text, a, from, name) && !IsDomainChar(c) && !IsSpace(c) && c != ':'
    ensures c !in text && text[0] != c && (text[0] == '0' || text[0] == '1' || text[0] == ':')
  {
    forall k | 0 <= k < |text| ensures text[k] != c {
      if k >= from {
        assert text[k] == name[k - from] && IsDomainChar(name[k - from]);
      } else if k < a {
        AddressChars(text, a, k);
      }
    }
    AddressChars(text, a, 0);
  }

  lemma HostsKey(text: string)
    requires HostsLine(text).Some? && IsPlainReading(HostBlock(Lower(HostsLine(text).value)))
    ensures StripRule(text) == Lower(HostsLine(text).value)
  {
    var a, from := HostsLineParts(text);
    var name := HostsLine(text).value;
    HostsTextHasNo(text, a, from, name, '$');
    HostsTextHasNo(text, a, from, name, '@');
    LacksChar(text, "$$", 0);
    NetworkRead(text, text);
    NoOptions(text);
    NameTarget(text, name);
    assert "" + Lower(name) == Lower(name);
  }

  lemma NameTarget(text: string, name: string)
    requires HostsTarget(text) == Some(name) && IsPlainReading(HostBlock(Lower(name))) && IsDomainText(name)
    ensures CanonicalTarget(text) == Lower(name)
  {
    assert SuffixDomain(name) == None by { assert IsDomainChar(name[0]); }
  }

  /** The key of a line in one of the four forms is the key of what it says. */
  lemma KeyIsKeyOfReading(text: string)
    requires IsPlainReading(ReadingOf(text))
    ensures StripRule(text) == KeyOfReading(ReadingOf(text))
  {
    if SuffixDomain(text).Some? {
      SuffixKey(text);
    } else if IsAllowText(text) {
      AllowKey(text);
    } else if IsImportantText(text) {
      ImportantKey(text);
    } else {
      HostsKey(text);
    }
  }

  /** Equal keys mean equal targets: same domain, same side, same strength. */
  lemma SameKeySameTarget(a: Reading, b: Reading)
    requires IsPlainReading(a) && IsPlainReading(b) && KeyOfReading(a) == KeyOfReading(b)
    ensures a.domain == b.domain && a.Allow? == b.Allow? && a.ImportantBlock? == b.ImportantBlock?
  {
    PlainKey(a);
    PlainKey(b);
    if a.Allow? {
      assert KeyOfReading(a)[2..] == a.domain;
      assert b.Allow? ==> KeyOfReading(b)[2..] == b.domain;
    } else if a.ImportantBlock? {
      assert KeyOfReading(a)[..|KeyOfReading(a)| - 15] == a.domain;
      assert b.ImportantBlock? ==> KeyOfReading(b)[..|KeyOfReading(b)| - 15] == b.domain;
    }
  }

  lemma PlainKey(r: Reading)
    requires IsPlainReading(r)
    ensures r.Allow? <==> KeyOfReading(r)[0] == '@'
    ensures r.ImportantBlock? <==> '|' in KeyOfReading(r)
  {
    DomainTextHas(r.domain, '|');
    assert IsDomainChar(r.domain[0]);
    if r.ImportantBlock? { assert KeyOfReading(r)[|r.domain|] == '|'; }
  }

  // ---------- the verdict of a list on a host ----------

  datatype Side = Important | Exempt | Plain

  /** What an enabled line does to a host. */
  predicate Acts(reading: Reading, side: Side, host: string) {
    match reading
    case SuffixBlock(d) => side == Plain && Covers(d, host)
    case HostBlock(d) => side == Plain && d == host
    case Allow(d) => side == Exempt && Covers(d, host)
    case ImportantBlock(d) => side == Important && Covers(d, host)
    case Other => false
  }

  predicate Acting(rule: StoredRule, side: Side, host: string) {
    rule.enabled && Acts(ReadingOf(rule.originalRule), side, host)
  }

  ghost predicate SomeActing(rules: seq<StoredRule>, side: Side, host: string) {
    exists r :: r in rules && Acting(r, side, host)
  }

  datatype HostAction = Blocked | Excepted | Untouched

  /** Important blocks first, then exceptions, then blocks. */
  ghost function HostVerdict(rules: seq<StoredRule>, host: string): HostAction {
    if SomeActing(rules, Important, host) then Blocked
    else if SomeActing(rules, Exempt, host) then Excepted
    else if SomeActing(rules, Plain, host) then Blocked
    else Untouched
  }

  /** Every line is in one of the four forms. */
  ghost predicate ArePlain(rules: seq<StoredRule>) {
    forall r :: r in rules ==> IsPlainReading(ReadingOf(r.originalRule))
  }

  // ---------- the best of a group ----------

  /** No rule of the group ranks above the best: enabled counts most, then important, then suffix. */
  lemma {:induction false} BestRanksHighest(group: seq<StoredRule>, r: StoredRule)
    requires group != [] && r in group
    ensures Best(group) in group && Rank(r) <= Rank(Best(group))
  {
    var front, last := group[..|group| - 1], group[|group| - 1];
    assert group == front + [last];
    if |group| > 1 {
      BestRanksHighest(front, if r in front then r else front[0]);
    }
  }

  lemma SideOfReading(text: string)
    requires IsPlainReading(ReadingOf(text)) && !ReadingOf(text).ImportantBlock? && !ReadingOf(text).Allow?
    ensures !Contains(text, "$important")
    ensures ReadingOf(text).SuffixBlock? <==> SuffixDomain(text).Some?
  {
    if SuffixDomain(text).Some? {
      SuffixTextHasNo(text, '$');
    } else {
      var a, from := HostsLineParts(text);
      HostsTextHasNo(text, a, from, HostsLine(text).value, '$');
    }
    LacksChar(text, "$important", 0);
  }

  /** The best of a group does to every host what any rule of the group does. */
  lemma BestActsForAll(best: StoredRule, r: StoredRule, its: Reading, mine: Reading, side: Side, host: string)
    requires its == ReadingOf(best.originalRule) && mine == ReadingOf(r.originalRule)
    requires IsPlainReading(its) && IsPlainReading(mine) && KeyOfReading(its) == KeyOfReading(mine)
    requires r.enabled && Acts(mine, side, host) && Rank(r) <= Rank(best)
    ensures best.enabled && Acts(its, side, host)
  {
    SameKeySameTarget(mine, its);
    SameSideActs(best, r, mine, its, side, host);
  }

  lemma SameSideActs(best: StoredRule, r: StoredRule, mine: Reading, its: Reading, side: Side, host: string)
    requires IsPlainReading(mine) && IsPlainReading(its)
    requires mine == ReadingOf(r.originalRule) && its == ReadingOf(best.originalRule) && mine.domain == its.domain
    requires mine.Allow? == its.Allow? && mine.ImportantBlock? == its.ImportantBlock?
    requires r.enabled && Acts(mine, side, host) && Rank(r) <= Rank(best)
    ensures best.enabled && Acts(its, side, host)
  {
    if !mine.Allow? && !mine.ImportantBlock? {
      SideOfReading(r.originalRule);
      SideOfReading(best.originalRule);
    }
  }

  // ---------- reducing groups keeps the verdict ----------

  lemma {:induction false} GroupMembers(ks: seq<Keyed>, key: string, r: StoredRule)
    ensures r in Group(ks, key) <==> Keyed(key, r) in ks
  {
    if ks != [] {
      GroupMembers(ks[..|ks| - 1], key, r);
      assert ks == ks[..|ks| - 1] + [ks[|ks| - 1]];
    }
  }

  lemma {:induction false} KeyedMembers(rules: seq<StoredRule>, keyOf: string -> string, k: Keyed)
    ensures k in KeyedOf(rules, keyOf) <==> k.rule in rules && k.key == keyOf(k.rule.originalRule)
  {
    if rules != [] {
      KeyedMembers(rules[..|rules| - 1], keyOf, k);
      assert rules == rules[..|rules| - 1] + [rules[|rules| - 1]];
    }
  }

  lemma GroupIsFromRules(rules: seq<StoredRule>, keyOf: string -> string, key: string, r: StoredRule)
    ensures r in Group(KeyedOf(rules, keyOf), key) <==> r in rules && key == keyOf(r.originalRule)
  {
    GroupMembers(KeyedOf(rules, keyOf), key, r);
    KeyedMembers(rules, keyOf, Keyed(key, r));
  }

  lemma RepresentativeIsBest(group: seq<StoredRule>)
    requires group != []
    ensures Representative(group).originalRule == Best(group).originalRule
    ensures Representative(group).enabled == Best(group).enabled
  {
  }

  lemma ReducedComesFromRules(rules: seq<StoredRule>, keyOf: string -> string, unpruned: seq<StoredRule>, r: StoredRule)
    returns (best: StoredRule)
    requires IsReduced(unpruned, KeyedOf(rules, keyOf), Keys(KeyedOf(rules, keyOf))) && r in unpruned
    ensures best in rules && r.originalRule == best.originalRule && r.enabled == best.enabled
  {
    var keys := Keys(KeyedOf(rules, keyOf));
    var i :| 0 <= i < |unpruned| && unpruned[i] == r;
    var group := Group(KeyedOf(rules, keyOf), keys[i]);
    RepresentativeIsBest(group);
    best := Best(group);
    BestRanksHighest(group, group[0]);
    GroupIsFromRules(rules, keyOf, keys[i], best);
  }

  lemma RuleHasRepresentative(rules: seq<StoredRule>, keyOf: string -> string, unpruned: seq<StoredRule>, r: StoredRule)
    returns (kept: StoredRule, best: StoredRule)
    requires IsReduced(unpruned, KeyedOf(rules, keyOf), Keys(KeyedOf(rules, keyOf))) && r in rules
    requires keyOf(r.originalRule) != ""
    ensures kept in unpruned && kept.originalRule == best.originalRule && kept.enabled == best.enabled
    ensures best in rules && keyOf(best.originalRule) == keyOf(r.originalRule) && Rank(r) <= Rank(best)
  {
    var ks := KeyedOf(rules, keyOf);
    var key := keyOf(r.originalRule);
    GroupIsFromRules(rules, keyOf, key, r);
    KeysHaveGroups(ks, key);
    var group := Group(ks, key);
    var i :| 0 <= i < |Keys(ks)| && Keys(ks)[i] == key;
    kept := unpruned[i];
    best := Best(group);
    RepresentativeIsBest(group);
    BestRanksHighest(group, r);
    GroupIsFromRules(rules, keyOf, key, best);
  }

  lemma ReducingKeepsActing(rules: seq<StoredRule>, keyOf: string -> string, unpruned: seq<StoredRule>, side: Side,
                            host: string)
    requires IsReduced(unpruned, KeyedOf(rules, keyOf), Keys(KeyedOf(rules, keyOf)))
    requires ArePlain(rules) && IsKeying(keyOf)
    ensures SomeActing(unpruned, side, host) <==> SomeActing(rules, side, host)
  {
    if SomeActing(unpruned, side, host) {
      var r :| r in unpruned && Acting(r, side, host);
      var best := ReducedComesFromRules(rules, keyOf, unpruned, r);
      assert Acting(best, side, host);
    }
    if SomeActing(rules, side, host) {
      var r :| r in rules && Acting(r, side, host);
      PlainKeyIsNotEmpty(r.originalRule, keyOf);
      var kept, best := RuleHasRepresentative(rules, keyOf, unpruned, r);
      assert Read(best.originalRule) && Read(r.originalRule);
      KeyIsKeyOfReading(best.originalRule);
      KeyIsKeyOfReading(r.originalRule);
      BestActsForAll(best, r, ReadingOf(best.originalRule), ReadingOf(r.originalRule), side, host);
      assert Acting(kept, side, host);
    }
  }

  lemma PlainKeyIsNotEmpty(text: string, keyOf: string -> string)
    requires IsKeying(keyOf) && IsPlainReading(ReadingOf(text))
    ensures keyOf(text) != ""
  {
    assert Read(text);
    KeyIsKeyOfReading(text);
  }

  lemma ReducedIsPlain(rules: seq<StoredRule>, keyOf: string -> string, unpruned: seq<StoredRule>)
    requires IsReduced(unpruned, KeyedOf(rules, keyOf), Keys(KeyedOf(rules, keyOf))) && ArePlain(rules)
    ensures ArePlain(unpruned)
  {
    forall r | r in unpruned ensures IsPlainReading(ReadingOf(r.originalRule)) {
      var best := ReducedComesFromRules(rules, keyOf, unpruned, r);
      assert best in rules;
    }
  }

  // ---------- pruning keeps the verdict ----------

  lemma {:induction false} RulesOfMembers(ls: seq<Listed>, r: StoredRule)
    ensures r in RulesOf(ls) <==> exists l :: l in ls && l.rule == r
  {
    if ls != [] {
      var front, last := ls[..|ls| - 1], ls[|ls| - 1];
      assert ls == front + [last];
      RulesOfMembers(front, r);
      if last.rule == r { assert last in ls; }
    }
  }

  /** Only plain blocks are ever pruned. */
  lemma OnlyPlainIsPrunable(text: string, reading: Reading)
    requires reading == ReadingOf(text) && IsPlainReading(reading)
    requires !StartsWith(text, "@@") && TargetDomain(text) != ""
    ensures reading.SuffixBlock? || reading.HostBlock?
  {
    ImportantStartsWithBars(text);
  }

  lemma ImportantStartsWithBars(text: string)
    ensures IsImportantText(text) ==> StartsWith(text, "||")
  {
    if IsImportantText(text) { assert text[..|text| - 10][..2] == text[..2]; }
  }

  lemma AddressWord(text: string, a: nat)
    requires a < |text| && text[..a] in ADDRESSES && IsSpace(text[a])
    ensures WordEnd(text, 0) == a
  {
    forall k | 0 <= k < a ensures !IsSpace(text[k]) { AddressChars(text, a, k); }
    WordRead(text, 0, a);
  }

  lemma NameWord(text: string, from: nat, name: string)
    requires from < |text| && text[from..] == name && IsDomainText(name)
    ensures WordEnd(text, from) == |text| && !IsSpace(text[from])
  {
    forall k | from <= k < |text| ensures !IsSpace(text[k]) {
      assert text[k] == name[k - from] && IsDomainChar(name[k - from]);
    }
    WordRead(text, from, |text|);
  }

  lemma SecondWordOf(s: string, a: nat, from: nat)
    requires a < from <= |s| && WordEnd(s, 0) == a && SpacesFrom(s, a) == from && WordEnd(s, from) == |s|
    ensures SecondWord(s) == Some(s[from..])
  {
    assert s[from..|s|] == s[from..];
  }

  lemma HostWordRead(text: string, a: nat, from: nat, name: string)
    requires IsHostsText(text, a, from, name)
    ensures SecondWord(text) == Some(name)
  {
    AddressWord(text, a);
    NameWord(text, from, name);
    SpacesRead(text, a, from);
    SecondWordOf(text, a, from);
  }

  lemma HostTargetCases(rule: StoredRule)
    requires ListedOf(rule).target != "" && !StartsWith(rule.originalRule, "||") && IsTrimmed(rule.originalRule)
    ensures ListedOf(rule).target == Lower(rule.originalRule) ||
            (SecondWord(rule.originalRule).Some? && ListedOf(rule).target == Lower(SecondWord(rule.originalRule).value))
  {
    var text := rule.originalRule;
    TrimIsTrimmed(text);
  }

  /** What a hosts line is pruned for ends with its name, after whitespace if anything. */
  lemma HostTargetEnds(rule: StoredRule) returns (from: nat)
    requires HostsLine(rule.originalRule).Some? && ListedOf(rule).target != ""
    ensures var target := ListedOf(rule).target;
      from <= |target| && target[from..] == Lower(HostsLine(rule.originalRule).value) &&
      (from > 0 ==> IsSpace(target[from - 1]))
  {
    var text := rule.originalRule;
    var name := HostsLine(text).value;
    var a, start := HostsLineParts(text);
    AddressChars(text, a, 0);
    HostTargetCases(rule);
    HostWordRead(text, a, start, name);
    from := TargetEnds(text, start, name, ListedOf(rule).target);
  }

  lemma TargetEnds(text: string, start: nat, name: string, target: string) returns (from: nat)
    requires 0 < start <= |text| && text[start..] == name && IsSpace(text[start - 1])
    requires target == Lower(text) || target == Lower(name)
    ensures from <= |target| && target[from..] == Lower(name) && (from > 0 ==> IsSpace(target[from - 1]))
  {
    if target == Lower(name) {
      from := 0;
    } else {
      from := start;
      assert Lower(text)[start..] == Lower(text[start..]);
    }
  }

  lemma AncestorOfHostTarget(p: string, target: string, from: nat)
    requires IsAncestor(p, target) && IsDomainText(p) && from <= |target| && (from > 0 ==> IsSpace(target[from - 1]))
    ensures IsAncestor(p, target[from..])
  {
    var at := |target| - |p| - 1;
    assert target[at..] == "." + p;
    forall k | at <= k < |target| ensures !IsSpace(target[k]) {
      assert target[k] == ("." + p)[k - at];
      if k > at { assert IsDomainChar(p[k - at - 1]); }
    }
    assert target[from..][|target| - from - |p| - 1..] == target[at..];
  }

  lemma AncestorCovers(p: string, d: string, host: string)
    requires IsAncestor(p, d) && Covers(d, host)
    ensures Covers(p, host)
  {
    assert d[|d| - |p| - 1..] == "." + p;
    assert host[|host| - |d|..] == d;
    assert host[|host| - |p| - 1..] == d[|d| - |p| - 1..];
  }

  lemma WildcardReads(w: Listed, p: string)
    requires w == ListedOf(w.rule) && w.wildcard == Some(p)
    ensures w.rule.enabled && ReadingOf(w.rule.originalRule) == SuffixBlock(p) && IsDomainText(p)
  {
    LowerDomain(SuffixDomain(w.rule.originalRule).value);
  }

  lemma DroppedIsCovered(rule: StoredRule, p: string, side: Side, host: string)
    requires IsPlainReading(ReadingOf(rule.originalRule)) && ListedOf(rule).target != ""
    requires Acting(rule, side, host) && IsAncestor(p, ListedOf(rule).target) && IsDomainText(p)
    ensures Acts(SuffixBlock(p), side, host)
  {
    OnlyPlainIsPrunable(rule.originalRule, ReadingOf(rule.originalRule));
    var d := ReadingOf(rule.originalRule).domain;
    if SuffixDomain(rule.originalRule).None? {
      var from := HostTargetEnds(rule);
      AncestorOfHostTarget(p, ListedOf(rule).target, from);
    }
    AncestorCovers(p, d, host);
  }

  lemma PruningKeepsActing(unpruned: seq<StoredRule>, side: Side, host: string)
    requires ArePlain(unpruned)
    ensures SomeActing(RulesOf(Pruned(Listing(unpruned))), side, host) <==> SomeActing(unpruned, side, host)
  {
    var ls := Listing(unpruned);
    ListingIsSound(unpruned);
    if SomeActing(RulesOf(Pruned(ls)), side, host) {
      var r :| r in RulesOf(Pruned(ls)) && Acting(r, side, host);
      RulesOfMembers(Pruned(ls), r);
      var l :| l in Pruned(ls) && l.rule == r;
      KeepMembers(ls, ParentWildcards(ls), l);
      ListingMembers(unpruned, l);
    }
    if SomeActing(unpruned, side, host) {
      var r :| r in unpruned && Acting(r, side, host);
      var l := ListedOf(r);
      ListingMembers(unpruned, l);
      var kept := r;
      if l !in Pruned(ls) { kept := KeptActsToo(unpruned, l, side, host); } else { RulesOfMembers(Pruned(ls), r); }
      assert Acting(kept, side, host);
    }
  }

  lemma KeptActsToo(unpruned: seq<StoredRule>, l: Listed, side: Side, host: string) returns (kept: StoredRule)
    requires ArePlain(unpruned) && l in Listing(unpruned) && l !in Pruned(Listing(unpruned))
    requires l == ListedOf(l.rule) && l.rule in unpruned && Acting(l.rule, side, host)
    ensures kept in RulesOf(Pruned(Listing(unpruned))) && Acting(kept, side, host)
  {
    var ls := Listing(unpruned);
    ListingIsSound(unpruned);
    var w, p := DroppedHasKeptAncestor(ls, l);
    KeepMembers(ls, ParentWildcards(ls), w);
    ListingMembers(unpruned, w);
    WildcardReads(w, p);
    DroppedIsCovered(l.rule, p, side, host);
    kept := w.rule;
    RulesOfMembers(Pruned(ls), kept);
  }

  lemma SameActingSameVerdict(a: seq<StoredRule>, b: seq<StoredRule>, host: string)
    requires forall side :: SomeActing(a, side, host) <==> SomeActing(b, side, host)
    ensures HostVerdict(a, host) == HostVerdict(b, host)
  {
  }

  /** A whole run keeps the verdict of every host, over lists of `||d^`, hosts lines, `@@||d^` and
      `||d^$important` without trailing dots. */
  lemma ProcessingKeepsVerdicts(rules: seq<StoredRule>, keyOf: string -> string, unpruned: seq<StoredRule>,
                                optimized: seq<StoredRule>, host: string)
    requires IsKeying(keyOf) && ArePlain(rules)
    requires IsReduced(unpruned, KeyedOf(rules, keyOf), Keys(KeyedOf(rules, keyOf)))
    requires optimized == RulesOf(Pruned(Listing(unpruned)))
    ensures HostVerdict(optimized, host) == HostVerdict(rules, host)
  {
    ReducedIsPlain(rules, keyOf, unpruned);
    forall side ensures SomeActing(optimized, side, host) <==> SomeActing(rules, side, host) {
      ReducingKeepsActing(rules, keyOf, unpruned, side, host);
      PruningKeepsActing(unpruned, side, host);
    }
    SameActingSameVerdict(optimized, rules, host);
  }
}
