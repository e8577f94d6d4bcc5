/** The four feeds compiled from one list, the domain check, and how each target reads its feed. */
module Feeds {
  import opened Text
  import opened HostRules
  import Sorting

  // ---------- reading the list ----------

  /** What each line says under a reading of lines, lines that say nothing dropped. */
  function ParseBy(rules: seq<string>, read: string -> Option<Parsed>): seq<Parsed> {
    if rules == [] then []
    else
      var parsed := read(rules[|rules| - 1]);
      ParseBy(rules[..|rules| - 1], read) + if parsed.Some? then [parsed.value] else []
  }

  function ParseAll(rules: seq<string>): seq<Parsed> {
    ParseBy(rules, HostFromRule)
  }

  /** The hosts some line blocks, or allows. */
  function Hosts(parsed: seq<Parsed>, allowed: bool): set<string> {
    set p | p in parsed && p.allowed == allowed :: p.host
  }

  /** `Set.add`, keeping insertion order. */
  function Add(xs: seq<string>, x: string): seq<string> {
    if x in xs then xs else xs + [x]
  }

  /** A list of exactly these hosts, each once. */
  ghost predicate IsListOf(xs: seq<string>, hosts: set<string>) {
    (forall x :: x in xs <==> x in hosts) && AreDistinct(xs)
  }

  lemma ParsedStep(parsed: seq<Parsed>, p: Parsed)
    ensures Hosts(parsed + [p], p.allowed) == Hosts(parsed, p.allowed) + {p.host}
    ensures Hosts(parsed + [p], !p.allowed) == Hosts(parsed, !p.allowed)
  {
    assert forall q :: q in parsed + [p] <==> q in parsed || q == p;
  }

  method ParseWith(rules: seq<string>, read: string -> Option<Parsed>) returns (parsed: seq<Parsed>)
    ensures parsed == ParseBy(rules, read)
  {
    parsed := [];
    for k := 0 to |rules|
      invariant parsed == ParseBy(rules[..k], read)
    {
      assert rules[..k + 1][..k] == rules[..k];
      var line := read(rules[k]);
      if line.Some? { parsed := parsed + [line.value]; }
    }
    assert rules[..|rules|] == rules;
  }

  method ParseRules(rules: seq<string>) returns (parsed: seq<Parsed>)
    ensures parsed == ParseAll(rules)
  {
    parsed := ParseWith(rules, HostFromRule);
  }

  /** The two sets every feed is built from. */
  method CollectHosts(parsed: seq<Parsed>) returns (blocks: seq<string>, allows: seq<string>)
    ensures IsListOf(blocks, Hosts(parsed, false)) && IsListOf(allows, Hosts(parsed, true))
  {
    blocks, allows := [], [];
    for k := 0 to |parsed|
      invariant IsListOf(blocks, Hosts(parsed[..k], false)) && IsListOf(allows, Hosts(parsed[..k], true))
    {
      assert parsed[..k + 1] == parsed[..k] + [parsed[k]];
      ParsedStep(parsed[..k], parsed[k]);
      if parsed[k].allowed {
        allows := Add(allows, parsed[k].host);
      } else {
        blocks := Add(blocks, parsed[k].host);
      }
    }
    assert parsed[..|parsed|] == parsed;
  }

  // ---------- the artifacts ----------

  /** `DOMAIN-SUFFIX,host,REJECT` or `DOMAIN-SUFFIX,host,DIRECT`. */
  datatype SuffixRule = SuffixRule(host: string, rejects: bool)

  /** `.host` under the block section or under the bypass section. */
  datatype ActionFile = ActionFile(blocks: seq<string>, allows: seq<string>)

  /** A policy record: the name itself or everything under it, refused or passed through. */
  datatype Record = Record(name: string, wildcard: bool, passthru: bool)

  function SuffixRules(hosts: seq<string>, rejects: bool): seq<SuffixRule> {
    if hosts == [] then [] else [SuffixRule(hosts[0], rejects)] + SuffixRules(hosts[1..], rejects)
  }

  function Pair(host: string, passthru: bool): seq<Record> {
    [Record(host, false, passthru), Record(host, true, passthru)]
  }

  function Pairs(hosts: seq<string>, passthru: bool): seq<Record> {
    if hosts == [] then [] else Pair(hosts[0], passthru) + Pairs(hosts[1..], passthru)
  }

  function Without(xs: seq<string>, ys: seq<string>): seq<string> {
    if xs == [] then [] else (if xs[0] in ys then [] else [xs[0]]) + Without(xs[1..], ys)
  }

  /** The sorted list of exactly these hosts. */
  ghost predicate IsSortedListOf(xs: seq<string>, hosts: set<string>) {
    IsListOf(xs, hosts) && Sorting.IsSorted(xs)
  }

  /** The rule set for a list of rules: the allows in order, then the blocks in order. */
  ghost predicate IsRuleSetOf(list: seq<SuffixRule>, rules: seq<string>) {
    exists a, b ::
      IsSortedListOf(a, Hosts(ParseAll(rules), true)) && IsSortedListOf(b, Hosts(ParseAll(rules), false)) &&
      list == SuffixRules(a, false) + SuffixRules(b, true)
  }

  ghost predicate IsActionFileOf(file: ActionFile, rules: seq<string>) {
    && IsSortedListOf(file.blocks, Hosts(ParseAll(rules), false))
    && IsSortedListOf(file.allows, Hosts(ParseAll(rules), true))
  }

  /** The policy zone for a list of rules: a pair for every host, a host both blocked and allowed only passed. */
  ghost predicate IsZoneOf(records: seq<Record>, rules: seq<string>) {
    exists a, b ::
      IsSortedListOf(a, Hosts(ParseAll(rules), true)) &&
      IsSortedListOf(b, Hosts(ParseAll(rules), false) - Hosts(ParseAll(rules), true)) &&
      records == Pairs(b, false) + Pairs(a, true)
  }

  ghost predicate IsDropInOf(zones: seq<string>, rules: seq<string>) {
    IsSortedListOf(zones, Hosts(ParseAll(rules), false))
  }

  /** First match wins, so the allows come before the blocks. */
  method ShadowrocketRules(rules: seq<string>) returns (list: seq<SuffixRule>)
    ensures IsRuleSetOf(list, rules)
  {
    var parsed := ParseRules(rules);
    var blocks, allows := CollectHosts(parsed);
    SortedList(blocks, Hosts(parsed, false));
    SortedList(allows, Hosts(parsed, true));
    list := SuffixRules(Sorting.Sorted(allows), false) + SuffixRules(Sorting.Sorted(blocks), true);
  }

  /** Last match wins, so the bypasses come after the blocks. */
  method PrivoxyPatterns(rules: seq<string>) returns (file: ActionFile)
    ensures IsActionFileOf(file, rules)
  {
    var parsed := ParseRules(rules);
    var blocks, allows := CollectHosts(parsed);
    SortedList(blocks, Hosts(parsed, false));
    SortedList(allows, Hosts(parsed, true));
    file := ActionFile(Sorting.Sorted(blocks), Sorting.Sorted(allows));
  }

  method AppendPairs(before: seq<Record>, hosts: seq<string>, passthru: bool) returns (records: seq<Record>)
    ensures records == before + Pairs(hosts, passthru)
  {
    records := before;
    assert before + [] == before;
    for k := 0 to |hosts|
      invariant records == before + Pairs(hosts[..k], passthru)
    {
      assert hosts[..k + 1] == hosts[..k] + [hosts[k]];
      PairsAppend(hosts[..k], hosts[k], passthru);
      records := records + Pair(hosts[k], passthru);
    }
    assert hosts[..|hosts|] == hosts;
  }

  method RecordsOf(blocks: seq<string>, allows: seq<string>) returns (records: seq<Record>)
    ensures records == Pairs(Sorting.Sorted(Without(blocks, allows)), false) + Pairs(Sorting.Sorted(allows), true)
  {
    records := AppendPairs([], Sorting.Sorted(Without(blocks, allows)), false);
    records := AppendPairs(records, Sorting.Sorted(allows), true);
  }

  /** A pair of records for every host; a host both blocked and allowed keeps its passthru only. */
  method BindRpzRecords(rules: seq<string>) returns (records: seq<Record>)
    ensures IsZoneOf(records, rules)
  {
    var parsed := ParseRules(rules);
    var blocks, allows := CollectHosts(parsed);
    WithoutMembers(blocks, allows);
    SortedList(Without(blocks, allows), Hosts(parsed, false) - Hosts(parsed, true));
    SortedList(allows, Hosts(parsed, true));
    records := RecordsOf(blocks, allows);
  }

  method CollectZones(parsed: seq<Parsed>) returns (seen: seq<string>)
    ensures IsListOf(seen, Hosts(parsed, false))
  {
    seen := [];
    for k := 0 to |parsed|
      invariant IsListOf(seen, Hosts(parsed[..k], false))
    {
      assert parsed[..k + 1] == parsed[..k] + [parsed[k]];
      ParsedStep(parsed[..k], parsed[k]);
      if !parsed[k].allowed { seen := Add(seen, parsed[k].host); }
    }
    assert parsed[..|parsed|] == parsed;
  }

  /** Zones for the blocked hosts; a drop-in can only refuse, so allows are left out. */
  method UnboundZones(rules: seq<string>) returns (zones: seq<string>)
    ensures IsDropInOf(zones, rules)
  {
    var parsed := ParseRules(rules);
    var seen := CollectZones(parsed);
    SortedList(seen, Hosts(parsed, false));
    zones := Sorting.Sorted(seen);
  }

  lemma SortedList(xs: seq<string>, hosts: set<string>)
    requires IsListOf(xs, hosts)
    ensures IsSortedListOf(Sorting.Sorted(xs), hosts)
  {
    forall x ensures x in Sorting.Sorted(xs) <==> x in hosts { Sorting.SortedMembers(xs, x); }
    Sorting.SortedIsInOrder(xs);
    Sorting.DistinctStaysDistinct(xs);
  }

  lemma {:induction false} WithoutMembers(xs: seq<string>, ys: seq<string>)
    requires AreDistinct(xs)
    ensures (forall x :: x in Without(xs, ys) <==> x in xs && x !in ys) && AreDistinct(Without(xs, ys))
  {
    if xs != [] {
      WithoutMembers(xs[1..], ys);
      assert xs == [xs[0]] + xs[1..];
    }
  }

  lemma {:induction false} PairsAppend(hosts: seq<string>, host: string, passthru: bool)
    ensures Pairs(hosts + [host], passthru) == Pairs(hosts, passthru) + Pair(host, passthru)
  {
    if hosts == [] {
      assert [] + [host] == [host] && [host][1..] == [];
      assert Pairs([host], passthru) == Pair(host, passthru) + [];
    } else {
      assert (hosts + [host])[1..] == hosts[1..] + [host];
      PairsAppend(hosts[1..], host, passthru);
    }
  }

  // ---------- how each target reads its feed ----------

  /** The first rule of the set whose suffix covers the host decides. */
  predicate ShadowrocketBlocks(list: seq<SuffixRule>, host: string) {
    list != [] && if Covers(list[0].host, host) then list[0].rejects else ShadowrocketBlocks(list[1..], host)
  }

  /** One action file line: a pattern, and whether its section blocks. */
  datatype Pattern = Pattern(host: string, blocks: bool)

  function Patterns(hosts: seq<string>, blocks: bool): seq<Pattern> {
    if hosts == [] then [] else [Pattern(hosts[0], blocks)] + Patterns(hosts[1..], blocks)
  }

  /** The last pattern that covers the host decides. */
  predicate LastMatchBlocks(list: seq<Pattern>, host: string) {
    list != [] &&
    var last := list[|list| - 1];
    if Covers(last.host, host) then last.blocks else LastMatchBlocks(list[..|list| - 1], host)
  }

  predicate PrivoxyBlocks(file: ActionFile, host: string) {
    LastMatchBlocks(Patterns(file.blocks, true) + Patterns(file.allows, false), host)
  }

  /** The nearest name at or above the candidate with a wildcard record. */
  predicate WildcardRefuses(records: seq<Record>, candidate: string)
    decreases |candidate|
  {
    if Record(candidate, true, true) in records then false
    else if Record(candidate, true, false) in records then true
    else
      var dot := IndexOf(candidate, '.', 0);
      dot >= 0 && WildcardRefuses(records, candidate[dot + 1..])
  }

  /** The longest match decides: the name's own record, else the nearest wildcard above it. */
  predicate RpzBlocks(records: seq<Record>, host: string) {
    if Record(host, false, true) in records then false
    else if Record(host, false, false) in records then true
    else
      var dot := IndexOf(host, '.', 0);
      dot >= 0 && WildcardRefuses(records, host[dot + 1..])
  }

  predicate UnboundBlocks(zones: seq<string>, host: string) {
    exists zone :: zone in zones && Covers(zone, host)
  }

  // ---------- the domain check ----------

  /** The last line about each host. */
  function Verdicts(parsed: seq<Parsed>): map<string, bool> {
    if parsed == [] then map[]
    else Verdicts(parsed[..|parsed| - 1])[parsed[|parsed| - 1].host := parsed[|parsed| - 1].allowed]
  }

  /** The nearest host at or above the candidate that some line is about. */
  predicate CheckBlocks(verdicts: map<string, bool>, candidate: string)
    decreases |candidate|
  {
    var dot := IndexOf(candidate, '.', 0);
    dot >= 0 && if candidate in verdicts then !verdicts[candidate] else CheckBlocks(verdicts, candidate[dot + 1..])
  }

  method CollectVerdicts(parsed: seq<Parsed>) returns (verdicts: map<string, bool>)
    ensures verdicts == Verdicts(parsed)
  {
    verdicts := map[];
    for k := 0 to |parsed|
      invariant verdicts == Verdicts(parsed[..k])
    {
      assert parsed[..k + 1][..k] == parsed[..k];
      verdicts := verdicts[parsed[k].host := parsed[k].allowed];
    }
    assert parsed[..|parsed|] == parsed;
  }

  method WalkVerdicts(verdicts: map<string, bool>, domain: string) returns (blocked: bool)
    ensures blocked == CheckBlocks(verdicts, domain)
  {
    var host := domain;
    while IndexOf(host, '.', 0) >= 0
      invariant CheckBlocks(verdicts, host) == CheckBlocks(verdicts, domain)
      decreases |host|
    {
      if host in verdicts { return !verdicts[host]; }
      host := host[IndexOf(host, '.', 0) + 1..];
    }
    blocked := false;
  }

  method Check(rules: seq<string>, domain: string) returns (blocked: bool)
    ensures blocked == CheckBlocks(Verdicts(ParseAll(rules)), domain)
  {
    var parsed := ParseRules(rules);
    var verdicts := CollectVerdicts(parsed);
    blocked := WalkVerdicts(verdicts, domain);
  }
}
