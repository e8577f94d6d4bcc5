/** How the verdicts of the four targets and of the domain check are related, for every list and host. */
module FeedTheorems {
  import opened Text
  import opened HostRules
  import opened Feeds

  ghost predicate Covered(hosts: set<string>, host: string) {
    exists d :: d in hosts && Covers(d, host)
  }

  /** Some blocked host covers it and no allowed one does. */
  ghost predicate BlockedUnlessAllowed(blocks: set<string>, allows: set<string>, host: string) {
    Covered(blocks, host) && !Covered(allows, host)
  }

  // ---------- first match and last match ----------

  lemma {:induction false} FirstMatchOfBlocks(b: seq<string>, host: string)
    ensures ShadowrocketBlocks(SuffixRules(b, true), host) <==> exists d :: d in b && Covers(d, host)
  {
    if b != [] {
      assert b == [b[0]] + b[1..];
      FirstMatchOfBlocks(b[1..], host);
      assert SuffixRules(b, true)[1..] == SuffixRules(b[1..], true);
      if Covers(b[0], host) { assert b[0] in b; }
    }
  }

  lemma {:induction false} FirstMatchAfterAllows(a: seq<string>, rest: seq<SuffixRule>, host: string)
    ensures ShadowrocketBlocks(SuffixRules(a, false) + rest, host) <==>
            ShadowrocketBlocks(rest, host) && !exists d :: d in a && Covers(d, host)
  {
    if a == [] {
      assert SuffixRules(a, false) + rest == rest;
    } else {
      assert a == [a[0]] + a[1..];
      FirstMatchAfterAllows(a[1..], rest, host);
      var list := SuffixRules(a, false) + rest;
      assert list[0] == SuffixRule(a[0], false) && list[1..] == SuffixRules(a[1..], false) + rest;
      if Covers(a[0], host) { assert a[0] in a; }
    }
  }

  lemma ShadowrocketReads(a: seq<string>, b: seq<string>, blocks: set<string>, allows: set<string>, host: string)
    requires IsListOf(a, allows) && IsListOf(b, blocks)
    ensures ShadowrocketBlocks(SuffixRules(a, false) + SuffixRules(b, true), host) <==>
            BlockedUnlessAllowed(blocks, allows, host)
  {
    FirstMatchOfBlocks(b, host);
    FirstMatchAfterAllows(a, SuffixRules(b, true), host);
  }

  lemma {:induction false} LastMatchOfBlocks(b: seq<string>, host: string)
    ensures LastMatchBlocks(Patterns(b, true), host) <==> exists d :: d in b && Covers(d, host)
    decreases |b|
  {
    if b != [] {
      var front, last := b[..|b| - 1], b[|b| - 1];
      assert b == front + [last];
      LastMatchOfBlocks(front, host);
      PatternsAppend(front, last, true);
      LastMatchStep(Patterns(front, true), Pattern(last, true), host);
    }
  }

  lemma {:induction false} PatternsAppend(hosts: seq<string>, host: string, blocks: bool)
    ensures Patterns(hosts + [host], blocks) == Patterns(hosts, blocks) + [Pattern(host, blocks)]
  {
    if hosts == [] {
      assert [] + [host] == [host] && [host][1..] == [];
    } else {
      assert (hosts + [host])[1..] == hosts[1..] + [host];
      PatternsAppend(hosts[1..], host, blocks);
    }
  }

  lemma LastMatchStep(list: seq<Pattern>, p: Pattern, host: string)
    ensures LastMatchBlocks(list + [p], host) <==>
            if Covers(p.host, host) then p.blocks else LastMatchBlocks(list, host)
  {
    assert (list + [p])[..|list|] == list;
  }

  lemma {:induction false} LastMatchBeforeAllows(list: seq<Pattern>, a: seq<string>, host: string)
    ensures LastMatchBlocks(list + Patterns(a, false), host) <==>
            LastMatchBlocks(list, host) && !exists d :: d in a && Covers(d, host)
    decreases |a|
  {
    if a == [] {
      assert list + Patterns(a, false) == list;
    } else {
      var front, last := a[..|a| - 1], a[|a| - 1];
      assert a == front + [last];
      LastMatchBeforeAllows(list, front, host);
      PatternsAppend(front, last, false);
      assert list + (Patterns(front, false) + [Pattern(last, false)]) ==
             list + Patterns(front, false) + [Pattern(last, false)];
      LastMatchStep(list + Patterns(front, false), Pattern(last, false), host);
    }
  }

  lemma PrivoxyReads(file: ActionFile, blocks: set<string>, allows: set<string>, host: string)
    requires IsListOf(file.allows, allows) && IsListOf(file.blocks, blocks)
    ensures PrivoxyBlocks(file, host) <==> BlockedUnlessAllowed(blocks, allows, host)
  {
    LastMatchOfBlocks(file.blocks, host);
    LastMatchBeforeAllows(Patterns(file.blocks, true), file.allows, host);
  }

  // ---------- longest match ----------

  /** The nearest listed host at or above the candidate is a block. */
  predicate NearestIsBlock(blocks: set<string>, allows: set<string>, c: string)
    decreases |c|
  {
    if c in allows then false
    else if c in blocks then true
    else
      var dot := IndexOf(c, '.', 0);
      dot >= 0 && NearestIsBlock(blocks, allows, c[dot + 1..])
  }

  /** Some block covers the host and every allow that covers it is shorter. */
  ghost predicate LongestIsBlock(blocks: set<string>, allows: set<string>, host: string) {
    exists x :: x in blocks && Covers(x, host) && forall y :: y in allows && Covers(y, host) ==> |y| < |x|
  }

  lemma CoverersAbove(c: string, dot: int, d: string)
    requires dot == IndexOf(c, '.', 0) && d != c
    ensures Covers(d, c) <==> dot >= 0 && Covers(d, c[dot + 1..])
    ensures Covers(d, c) ==> |d| < |c|
  {
    CoversStep(d, c, dot);
  }

  lemma {:induction false} NearestIsLongest(blocks: set<string>, allows: set<string>, c: string)
    requires blocks !! allows
    ensures NearestIsBlock(blocks, allows, c) <==> LongestIsBlock(blocks, allows, c)
    decreases |c|
  {
    var dot := IndexOf(c, '.', 0);
    forall d | d != c ensures Covers(d, c) <==> dot >= 0 && Covers(d, c[dot + 1..]) { CoverersAbove(c, dot, d); }
    forall d | Covers(d, c) ensures |d| <= |c| && (d != c ==> |d| < |c|) {
      if d != c { CoverersAbove(c, dot, d); }
    }
    assert Covers(c, c);
    if c !in allows && c !in blocks && dot >= 0 {
      NearestIsLongest(blocks, allows, c[dot + 1..]);
      SameLongest(blocks, allows, c, c[dot + 1..]);
    } else if c !in allows && c !in blocks {
      assert !LongestIsBlock(blocks, allows, c);
    }
  }

  lemma SameLongest(blocks: set<string>, allows: set<string>, c: string, rest: string)
    requires forall d :: d in blocks || d in allows ==> (Covers(d, c) <==> Covers(d, rest))
    ensures LongestIsBlock(blocks, allows, c) <==> LongestIsBlock(blocks, allows, rest)
  {
    if LongestIsBlock(blocks, allows, c) {
      var x :| x in blocks && Covers(x, c) && forall y :: y in allows && Covers(y, c) ==> |y| < |x|;
      assert x in blocks && Covers(x, rest);
    }
    if LongestIsBlock(blocks, allows, rest) {
      var x :| x in blocks && Covers(x, rest) && forall y :: y in allows && Covers(y, rest) ==> |y| < |x|;
      assert x in blocks && Covers(x, c);
    }
  }

  lemma {:induction false} PairMembers(hosts: seq<string>, passthru: bool, r: Record)
    ensures r in Pairs(hosts, passthru) <==> r.name in hosts && r.passthru == passthru
  {
    if hosts != [] {
      PairMembers(hosts[1..], passthru, r);
      assert hosts == [hosts[0]] + hosts[1..];
      assert r in Pair(hosts[0], passthru) <==> r.name == hosts[0] && r.passthru == passthru;
    }
  }

  lemma RecordMembers(b: seq<string>, a: seq<string>, r: Record)
    ensures r in Pairs(b, false) + Pairs(a, true) <==> if r.passthru then r.name in a else r.name in b
  {
    PairMembers(b, false, r);
    PairMembers(a, true, r);
  }

  lemma {:induction false} WildcardsAreNearest(b: seq<string>, a: seq<string>, blocks: set<string>,
                                               allows: set<string>, c: string)
    requires IsListOf(b, blocks) && IsListOf(a, allows)
    ensures WildcardRefuses(Pairs(b, false) + Pairs(a, true), c) <==> NearestIsBlock(blocks, allows, c)
    decreases |c|
  {
    RecordMembers(b, a, Record(c, true, true));
    RecordMembers(b, a, Record(c, true, false));
    var dot := IndexOf(c, '.', 0);
    if dot >= 0 { WildcardsAreNearest(b, a, blocks, allows, c[dot + 1..]); }
  }

  lemma RpzReads(b: seq<string>, a: seq<string>, blocks: set<string>, allows: set<string>, host: string)
    requires IsListOf(b, blocks - allows) && IsListOf(a, allows)
    ensures RpzBlocks(Pairs(b, false) + Pairs(a, true), host) <==> LongestIsBlock(blocks - allows, allows, host)
  {
    RecordMembers(b, a, Record(host, false, true));
    RecordMembers(b, a, Record(host, false, false));
    var dot := IndexOf(host, '.', 0);
    if dot >= 0 { WildcardsAreNearest(b, a, blocks - allows, allows, host[dot + 1..]); }
    NearestIsLongest(blocks - allows, allows, host);
  }

  lemma UnboundReads(zones: seq<string>, blocks: set<string>, host: string)
    requires IsListOf(zones, blocks)
    ensures UnboundBlocks(zones, host) <==> Covered(blocks, host)
  {
  }

  // ---------- covering is a chain ----------

  /** Of two hosts above a third, the shorter is above the longer. */
  lemma ShorterCoversLonger(a: string, x: string, host: string)
    requires Covers(a, host) && Covers(x, host) && |a| <= |x|
    ensures Covers(a, x)
  {
    if a != host {
      assert host[|host| - |a| - 1..] == "." + a;
      if x != host {
        assert host[|host| - |x| - 1..] == "." + x && host[|host| - |x|..] == x;
        if |a| < |x| {
          assert x[|x| - |a| - 1..] == host[|host| - |a| - 1..];
        } else {
          assert host[|host| - |a|..] == a;
        }
      }
    }
  }

  lemma CoverersAreNoLonger(d: string, c: string)
    requires Covers(d, c)
    ensures |d| <= |c| && (d != c ==> |d| < |c|)
  {
  }

  // ---------- the comparisons ----------

  /** Whatever the rule set blocks the policy zone blocks, and whatever that blocks the drop-in blocks. */
  lemma BlocksAreNested(blocks: set<string>, allows: set<string>, host: string)
    ensures BlockedUnlessAllowed(blocks, allows, host) ==> LongestIsBlock(blocks - allows, allows, host)
    ensures LongestIsBlock(blocks - allows, allows, host) ==> Covered(blocks, host)
  {
    if BlockedUnlessAllowed(blocks, allows, host) {
      var d :| d in blocks && Covers(d, host);
      assert d in blocks - allows;
    }
  }

  /** A block lies strictly under an allow. */
  ghost predicate BlockUnderAllow(blocks: set<string>, allows: set<string>) {
    exists x, y :: x in blocks - allows && y in allows && Covers(y, x)
  }

  /** The rule set and the policy zone agree on every host exactly when no block lies under an allow. */
  lemma ShadowrocketAgreesWithRpz(blocks: set<string>, allows: set<string>)
    ensures (forall host :: BlockedUnlessAllowed(blocks, allows, host) <==>
                            LongestIsBlock(blocks - allows, allows, host)) <==>
            !BlockUnderAllow(blocks, allows)
  {
    if BlockUnderAllow(blocks, allows) {
      var x, y :| x in blocks - allows && y in allows && Covers(y, x);
      AllowedAboveIsBlockedThere(blocks, allows, x, y);
    } else {
      forall host
        ensures BlockedUnlessAllowed(blocks, allows, host) <==> LongestIsBlock(blocks - allows, allows, host)
      {
        NoBlockUnderAllow(blocks, allows, host);
      }
    }
  }

  lemma AllowedAboveIsBlockedThere(blocks: set<string>, allows: set<string>, x: string, y: string)
    requires x in blocks - allows && y in allows && Covers(y, x)
    ensures LongestIsBlock(blocks - allows, allows, x) && !BlockedUnlessAllowed(blocks, allows, x)
  {
    assert Covers(x, x);
    forall z | z in allows && Covers(z, x) ensures |z| < |x| { CoverersAreNoLonger(z, x); }
  }

  lemma NoBlockUnderAllow(blocks: set<string>, allows: set<string>, host: string)
    requires !BlockUnderAllow(blocks, allows)
    ensures BlockedUnlessAllowed(blocks, allows, host) <==> LongestIsBlock(blocks - allows, allows, host)
  {
    BlocksAreNested(blocks, allows, host);
    if LongestIsBlock(blocks - allows, allows, host) {
      var x :| x in blocks - allows && Covers(x, host) && forall y :: y in allows && Covers(y, host) ==> |y| < |x|;
      assert x in blocks;
      forall y | y in allows ensures !Covers(y, host) {
        if Covers(y, host) { ShorterCoversLonger(y, x, host); }
      }
    }
  }

  /** An allowed host is blocked itself or lies under a block. */
  ghost predicate AllowUnderBlock(blocks: set<string>, allows: set<string>) {
    exists x, y :: x in blocks && y in allows && Covers(x, y)
  }

  /** The drop-in, which has no allows, agrees with the policy zone on every host exactly when no allow is
      at or under a block. */
  lemma UnboundAgreesWithRpz(blocks: set<string>, allows: set<string>)
    ensures (forall host :: Covered(blocks, host) <==> LongestIsBlock(blocks - allows, allows, host)) <==>
            !AllowUnderBlock(blocks, allows)
  {
    if AllowUnderBlock(blocks, allows) {
      var x, y :| x in blocks && y in allows && Covers(x, y);
      assert Covered(blocks, y) && Covers(y, y);
      forall z | z in blocks - allows && Covers(z, y) ensures |z| <= |y| { CoverersAreNoLonger(z, y); }
      assert !LongestIsBlock(blocks - allows, allows, y);
    } else {
      forall host ensures Covered(blocks, host) <==> LongestIsBlock(blocks - allows, allows, host) {
        NoAllowUnderBlock(blocks, allows, host);
      }
    }
  }

  lemma NoAllowUnderBlock(blocks: set<string>, allows: set<string>, host: string)
    requires !AllowUnderBlock(blocks, allows)
    ensures Covered(blocks, host) <==> LongestIsBlock(blocks - allows, allows, host)
  {
    BlocksAreNested(blocks, allows, host);
    if Covered(blocks, host) {
      var x :| x in blocks && Covers(x, host);
      assert Covers(x, x) && x in blocks - allows;
      forall y | y in allows && Covers(y, host) ensures |y| < |x| {
        if |x| <= |y| { ShorterCoversLonger(x, y, host); }
      }
    }
  }

  // ---------- the domain check ----------

  lemma {:induction false} VerdictsRead(parsed: seq<Parsed>, h: string)
    ensures h in Verdicts(parsed) <==> h in Hosts(parsed, false) || h in Hosts(parsed, true)
    ensures h in Verdicts(parsed) ==> h in Hosts(parsed, Verdicts(parsed)[h])
  {
    if parsed != [] {
      var front, last := parsed[..|parsed| - 1], parsed[|parsed| - 1];
      assert parsed == front + [last];
      VerdictsRead(front, h);
      ParsedStep(front, last);
    }
  }

  function Saying(verdicts: map<string, bool>, allowed: bool): set<string> {
    set h | h in verdicts && verdicts[h] == allowed
  }

  lemma {:induction false} CheckIsNearest(verdicts: map<string, bool>, c: string)
    requires forall h :: h in verdicts ==> IndexOf(h, '.', 0) >= 0
    ensures CheckBlocks(verdicts, c) <==> NearestIsBlock(Saying(verdicts, false), Saying(verdicts, true), c)
    decreases |c|
  {
    var dot := IndexOf(c, '.', 0);
    if dot >= 0 { CheckIsNearest(verdicts, c[dot + 1..]); }
  }

  lemma {:induction false} LabelledHasDot(s: string)
    requires |Split(s, '.')| >= 2
    ensures IndexOf(s, '.', 0) >= 0
  {
  }

  lemma NormalizedHasDot(name: string)
    ensures NormalizeHost(name).Some? ==> IndexOf(NormalizeHost(name).value, '.', 0) >= 0
  {
    if NormalizeHost(name).Some? { LabelledHasDot(NormalizeHost(name).value); }
  }

  predicate HasDot(parsed: Option<Parsed>) {
    parsed.Some? ==> IndexOf(parsed.value.host, '.', 0) >= 0
  }

  lemma HostHasDot(value: string, allowed: bool)
    ensures HasDot(HostOf(value, allowed))
  {
    NormalizedHasDot(NameOf(value, HostsNameAt(value, HOSTS_ADDRESSES)));
  }

  /** The text a line is read from. */
  lemma LineIsRead(rule: string, parsed: Option<Parsed>) returns (value: string, allowed: bool)
    requires parsed == HostFromRule(rule)
    ensures parsed == None || parsed == HostOf(value, allowed)
  {
    value := Trim(rule);
    allowed := StartsWith(value, "@@");
    if allowed { value := Trim(value[2..]); }
  }

  lemma ParsedHostHasDot(rule: string, parsed: Option<Parsed>)
    requires parsed == HostFromRule(rule)
    ensures HasDot(parsed)
  {
    var value, allowed := LineIsRead(rule, parsed);
    HostHasDot(value, allowed);
  }

  ghost predicate HaveDots(parsed: seq<Parsed>) {
    forall p :: p in parsed ==> IndexOf(p.host, '.', 0) >= 0
  }

  lemma {:induction false} ParsedHaveDots(rules: seq<string>)
    ensures HaveDots(ParseAll(rules))
  {
    if rules != [] {
      ParsedHaveDots(rules[..|rules| - 1]);
      ParsedHostHasDot(rules[|rules| - 1], HostFromRule(rules[|rules| - 1]));
    }
  }

  /** The last line about every host that is both blocked and allowed is an allow. */
  ghost predicate ContradictionsEndInAllow(parsed: seq<Parsed>) {
    forall h :: h in Hosts(parsed, false) && h in Hosts(parsed, true) ==> h in Verdicts(parsed) && Verdicts(parsed)[h]
  }

  /** The domain check agrees with the policy zone on every host exactly when the last line about every
      host both blocked and allowed is an allow. */
  lemma CheckAgreesWithRpz(parsed: seq<Parsed>)
    requires HaveDots(parsed)
    ensures (forall host :: CheckBlocks(Verdicts(parsed), host) <==>
                            LongestIsBlock(Hosts(parsed, false) - Hosts(parsed, true), Hosts(parsed, true), host)) <==>
            ContradictionsEndInAllow(parsed)
  {
    var verdicts := Verdicts(parsed);
    var blocks, allows := Hosts(parsed, false), Hosts(parsed, true);
    forall h
      ensures (h in verdicts <==> h in blocks || h in allows) && (h in verdicts ==> h in Hosts(parsed, verdicts[h]))
    {
      VerdictsRead(parsed, h);
    }
    if ContradictionsEndInAllow(parsed) {
      assert Saying(verdicts, true) == allows;
      assert Saying(verdicts, false) == blocks - allows;
      forall host ensures CheckBlocks(verdicts, host) <==> LongestIsBlock(blocks - allows, allows, host) {
        CheckIsNearest(verdicts, host);
        NearestIsLongest(blocks - allows, allows, host);
      }
    } else {
      var h :| h in blocks && h in allows && !(h in verdicts && verdicts[h]);
      assert CheckBlocks(verdicts, h);
      NearestIsLongest(blocks - allows, allows, h);
      assert !NearestIsBlock(blocks - allows, allows, h);
    }
  }

  // ---------- what the generated files say ----------

  lemma RuleSetReads(list: seq<SuffixRule>, rules: seq<string>, host: string)
    requires IsRuleSetOf(list, rules)
    ensures ShadowrocketBlocks(list, host) <==>
            BlockedUnlessAllowed(Hosts(ParseAll(rules), false), Hosts(ParseAll(rules), true), host)
  {
    var a, b :|
      IsSortedListOf(a, Hosts(ParseAll(rules), true)) && IsSortedListOf(b, Hosts(ParseAll(rules), false)) &&
      list == SuffixRules(a, false) + SuffixRules(b, true);
    ShadowrocketReads(a, b, Hosts(ParseAll(rules), false), Hosts(ParseAll(rules), true), host);
  }

  lemma ZoneReads(records: seq<Record>, rules: seq<string>, host: string)
    requires IsZoneOf(records, rules)
    ensures RpzBlocks(records, host) <==>
            LongestIsBlock(Hosts(ParseAll(rules), false) - Hosts(ParseAll(rules), true),
                           Hosts(ParseAll(rules), true), host)
  {
    var blocks, allows := Hosts(ParseAll(rules), false), Hosts(ParseAll(rules), true);
    var a, b :|
      IsSortedListOf(a, allows) && IsSortedListOf(b, blocks - allows) && records == Pairs(b, false) + Pairs(a, true);
    RpzReads(b, a, blocks, allows, host);
  }

  /** The rule set and the action file built from one list give every host the same verdict. */
  lemma RuleSetAgreesWithActionFile(list: seq<SuffixRule>, file: ActionFile, rules: seq<string>, host: string)
    requires IsRuleSetOf(list, rules) && IsActionFileOf(file, rules)
    ensures ShadowrocketBlocks(list, host) <==> PrivoxyBlocks(file, host)
  {
    RuleSetReads(list, rules, host);
    PrivoxyReads(file, Hosts(ParseAll(rules), false), Hosts(ParseAll(rules), true), host);
  }

  /** What the rule set rejects the policy zone refuses, and what that refuses the drop-in refuses. */
  lemma FilesAreNested(list: seq<SuffixRule>, records: seq<Record>, zones: seq<string>, rules: seq<string>,
                       host: string)
    requires IsRuleSetOf(list, rules) && IsZoneOf(records, rules) && IsDropInOf(zones, rules)
    ensures ShadowrocketBlocks(list, host) ==> RpzBlocks(records, host)
    ensures RpzBlocks(records, host) ==> UnboundBlocks(zones, host)
  {
    RuleSetReads(list, rules, host);
    ZoneReads(records, rules, host);
    UnboundReads(zones, Hosts(ParseAll(rules), false), host);
    BlocksAreNested(Hosts(ParseAll(rules), false), Hosts(ParseAll(rules), true), host);
  }

  /** The rule set and the policy zone built from one list agree on every host exactly when no host blocked
      and not allowed lies under an allowed one. */
  lemma RuleSetAgreesWithZoneIff(list: seq<SuffixRule>, records: seq<Record>, rules: seq<string>)
    requires IsRuleSetOf(list, rules) && IsZoneOf(records, rules)
    ensures (forall host :: ShadowrocketBlocks(list, host) <==> RpzBlocks(records, host)) <==>
            !BlockUnderAllow(Hosts(ParseAll(rules), false), Hosts(ParseAll(rules), true))
  {
    var blocks, allows := Hosts(ParseAll(rules), false), Hosts(ParseAll(rules), true);
    forall host
      ensures ShadowrocketBlocks(list, host) <==> BlockedUnlessAllowed(blocks, allows, host)
      ensures RpzBlocks(records, host) <==> LongestIsBlock(blocks - allows, allows, host)
    {
      RuleSetReads(list, rules, host);
      ZoneReads(records, rules, host);
    }
    ShadowrocketAgreesWithRpz(blocks, allows);
  }

  /** The drop-in and the policy zone built from one list agree on every host exactly when no allowed host is
      at or under a blocked one. */
  lemma DropInAgreesWithZoneIff(zones: seq<string>, records: seq<Record>, rules: seq<string>)
    requires IsDropInOf(zones, rules) && IsZoneOf(records, rules)
    ensures (forall host :: UnboundBlocks(zones, host) <==> RpzBlocks(records, host)) <==>
            !AllowUnderBlock(Hosts(ParseAll(rules), false), Hosts(ParseAll(rules), true))
  {
    var blocks, allows := Hosts(ParseAll(rules), false), Hosts(ParseAll(rules), true);
    forall host
      ensures UnboundBlocks(zones, host) <==> Covered(blocks, host)
      ensures RpzBlocks(records, host) <==> LongestIsBlock(blocks - allows, allows, host)
    {
      UnboundReads(zones, blocks, host);
      ZoneReads(records, rules, host);
    }
    UnboundAgreesWithRpz(blocks, allows);
  }

  /** The domain check and the policy zone over one list agree on every host exactly when the last line about
      every host both blocked and allowed is an allow. */
  lemma CheckAgreesWithZoneIff(records: seq<Record>, rules: seq<string>)
    requires IsZoneOf(records, rules)
    ensures (forall host :: CheckBlocks(Verdicts(ParseAll(rules)), host) <==> RpzBlocks(records, host)) <==>
            ContradictionsEndInAllow(ParseAll(rules))
  {
    var parsed := ParseAll(rules);
    forall host
      ensures RpzBlocks(records, host) <==>
              LongestIsBlock(Hosts(parsed, false) - Hosts(parsed, true), Hosts(parsed, true), host)
    {
      ZoneReads(records, rules, host);
    }
    ParsedHaveDots(rules);
    CheckAgreesWithRpz(parsed);
  }
}
