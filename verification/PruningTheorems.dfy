/** Pruning keeps a subsequence, is idempotent, and leaves above every rule it drops a wildcard it keeps. */
module PruningTheorems {
  import opened Text
  import opened RuleKeys
  import opened Deduplicator

  // ---------- what the parent walk finds ----------

  /** `p` is a wildcard strictly above the target, with a dot of its own. */
  predicate IsAncestor(p: string, target: string) {
    '.' in p && EndsWith(target, "." + p)
  }

  lemma {:induction false} HasParentMeans(candidate: string, parents: set<string>)
    ensures HasParent(candidate, parents) <==> exists p :: p in parents && '.' in p && Covers(p, candidate)
    decreases |candidate|
  {
    var dot := IndexOf(candidate, '.', 0);
    NoneBeforeIndexOf(candidate, '.', 0);
    forall p ensures Covers(p, candidate) <==> p == candidate || (dot >= 0 && Covers(p, candidate[dot + 1..])) {
      CoversStep(p, candidate, dot);
    }
    if dot >= 0 {
      HasParentMeans(candidate[dot + 1..], parents);
      if candidate in parents { assert Covers(candidate, candidate); }
    }
  }

  lemma AncestorIsAboveFirstLabel(p: string, target: string, dot: nat)
    requires dot == IndexOf(target, '.', 0)
    ensures IsAncestor(p, target) <==> '.' in p && Covers(p, target[dot + 1..])
  {
    NoneBeforeIndexOf(target, '.', 0);
    DottedAbove(p, target, dot, target[dot + 1..]);
  }

  lemma DottedAbove(p: string, target: string, dot: nat, rest: string)
    requires dot < |target| && target[dot] == '.' && rest == target[dot + 1..]
    requires forall k :: 0 <= k < dot ==> target[k] != '.'
    ensures EndsWith(target, "." + p) <==> Covers(p, rest)
  {
    if EndsWith(target, "." + p) {
      var at := |target| - |p| - 1;
      assert target[at..] == "." + p && target[at] == '.';
      assert target[at + 1..] == p;
      if dot < at { assert rest[|rest| - |p| - 1..] == "." + p; }
    }
    if Covers(p, rest) {
      if rest == p {
        assert target[dot..] == "." + p;
      } else {
        assert target[|target| - |p| - 1..] == rest[|rest| - |p| - 1..];
      }
    }
  }

  /** A target is covered exactly when it does not start with a dot and some wildcard is its ancestor. */
  lemma CoveredMeans(target: string, parents: set<string>)
    ensures IsCovered(target, parents) <==>
            IndexOf(target, '.', 0) > 0 && exists p :: p in parents && IsAncestor(p, target)
  {
    var dot := IndexOf(target, '.', 0);
    if dot > 0 {
      HasParentMeans(target[dot + 1..], parents);
      forall p ensures IsAncestor(p, target) <==> '.' in p && Covers(p, target[dot + 1..]) {
        AncestorIsAboveFirstLabel(p, target, dot);
      }
    }
  }

  lemma AncestorsChain(q: string, p: string, target: string)
    requires IsAncestor(q, p) && IsAncestor(p, target)
    ensures IsAncestor(q, target) && |q| < |p|
  {
    assert target[|target| - |p|..] == p;
    assert target[|target| - |q| - 1..] == p[|p| - |q| - 1..];
  }

  // ---------- a subsequence ----------

  predicate IsSubsequence<T(==)>(a: seq<T>, b: seq<T>) {
    if a == [] then true
    else if b == [] then false
    else if a[|a| - 1] == b[|b| - 1] then IsSubsequence(a[..|a| - 1], b[..|b| - 1])
    else IsSubsequence(a, b[..|b| - 1])
  }

  lemma {:induction false} SubsequenceOfLonger<T>(a: seq<T>, b: seq<T>, x: T)
    requires IsSubsequence(a, b)
    ensures IsSubsequence(a, b + [x])
    decreases |a| + |b|, 1
  {
    assert (b + [x])[..|b|] == b;
    if a != [] && a[|a| - 1] == x {
      SubsequenceWithoutLast(a, b);
    }
  }

  lemma {:induction false} SubsequenceWithoutLast<T>(a: seq<T>, b: seq<T>)
    requires a != [] && IsSubsequence(a, b)
    ensures IsSubsequence(a[..|a| - 1], b)
    decreases |a| + |b|, 0
  {
    var front := b[..|b| - 1];
    assert b == front + [b[|b| - 1]];
    if a[|a| - 1] == b[|b| - 1] {
      SubsequenceOfLonger(a[..|a| - 1], front, b[|b| - 1]);
    } else {
      SubsequenceWithoutLast(a, front);
      SubsequenceOfLonger(a[..|a| - 1], front, b[|b| - 1]);
    }
  }

  /** Pruning only drops: what is left is a subsequence of the list. */
  lemma {:induction false} KeepIsSubsequence(ls: seq<Listed>, parents: set<string>)
    ensures IsSubsequence(Keep(ls, parents), ls)
  {
    if ls != [] {
      var front, last := ls[..|ls| - 1], ls[|ls| - 1];
      KeepIsSubsequence(front, parents);
      assert ls == front + [last];
      var kept := Keep(front, parents);
      if IsRedundant(last, parents) {
        SubsequenceOfLonger(kept, front, last);
        assert kept + [] == kept;
      } else {
        assert (kept + [last])[..|kept|] == kept;
      }
    }
  }

  lemma {:induction false} KeepMembers(ls: seq<Listed>, parents: set<string>, l: Listed)
    ensures l in Keep(ls, parents) <==> l in ls && !IsRedundant(l, parents)
  {
    if ls != [] {
      KeepMembers(ls[..|ls| - 1], parents, l);
      assert ls == ls[..|ls| - 1] + [ls[|ls| - 1]];
    }
  }

  /** A rule that is not redundant is kept as often as it occurs. */
  lemma {:induction false} KeptAsOften(ls: seq<Listed>, parents: set<string>, l: Listed)
    requires !IsRedundant(l, parents)
    ensures multiset(Keep(ls, parents))[l] == multiset(ls)[l]
  {
    if ls != [] {
      KeptAsOften(ls[..|ls| - 1], parents, l);
      assert ls == ls[..|ls| - 1] + [ls[|ls| - 1]];
    }
  }

  // ---------- which rules can be dropped ----------

  lemma DomainTextHas(s: string, c: char)
    requires IsDomainText(s) && !IsDomainChar(c)
    ensures c !in s
  {
  }

  lemma SuffixTextHasNo(text: string, c: char)
    requires SuffixDomain(text).Some? && !IsDomainChar(c) && c != '|' && c != '^'
    ensures c !in text
  {
    var d := text[2..|text| - 1];
    DomainTextHas(d, c);
    forall k | 0 <= k < |text| ensures text[k] != c {
      if 2 <= k < |text| - 1 { assert d[k - 2] == text[k]; }
    }
  }

  /** Exceptions are never dropped, and neither is a rule with a `$`, unless it reads as a hosts line. */
  lemma NeverDropped(rule: StoredRule)
    requires ListedOf(rule).target != ""
    ensures !StartsWith(rule.originalRule, "@@") && rule.kind == "blocking"
    ensures '$' in rule.originalRule ==>
            StartsWith(rule.originalRule, "0.0.0.0 ") || StartsWith(rule.originalRule, "127.0.0.1 ")
  {
    if StartsWith(rule.originalRule, "||") { SuffixTextHasNo(rule.originalRule, '$'); }
  }

  /** What pruning reads agrees with itself: a marker is not prunable, a wildcard is prunable for its own
      domain. */
  ghost predicate IsSound(l: Listed) {
    (l.disabled.Some? ==> l.target == "") && (l.wildcard.Some? ==> l.target == l.wildcard.value)
  }

  lemma MarkerIsNotPrunable(rule: StoredRule)
    requires DisabledDomain(rule).Some?
    ensures ListedOf(rule).target == ""
  {
    var text := rule.originalRule;
    var n := |text| - |"^$badfilter"|;
    assert Lower(text[n..])[10] == 'r' && text[n..][10] == text[|text| - 1];
    assert text[|text| - 1] != '^';
  }

  lemma WildcardIsPrunable(rule: StoredRule)
    requires WildcardDomain(rule).Some?
    ensures ListedOf(rule).target == WildcardDomain(rule).value
  {
    var text := rule.originalRule;
    SuffixTextHasNo(text, '#');
    LacksChar(text, "##", 0);
  }

  lemma ListedIsSound(rule: StoredRule)
    ensures IsSound(ListedOf(rule))
  {
    if DisabledDomain(rule).Some? { MarkerIsNotPrunable(rule); }
    if WildcardDomain(rule).Some? { WildcardIsPrunable(rule); }
  }

  ghost predicate AreSound(ls: seq<Listed>) {
    forall l :: l in ls ==> IsSound(l)
  }

  lemma {:induction false} ListingMembers(rules: seq<StoredRule>, l: Listed)
    ensures l in Listing(rules) <==> l.rule in rules && l == ListedOf(l.rule)
  {
    if rules != [] {
      ListingMembers(rules[..|rules| - 1], l);
      assert rules == rules[..|rules| - 1] + [rules[|rules| - 1]];
    }
  }

  lemma ListingIsSound(rules: seq<StoredRule>)
    ensures AreSound(Listing(rules))
  {
    forall l | l in Listing(rules) ensures IsSound(l) {
      ListingMembers(rules, l);
      ListedIsSound(l.rule);
    }
  }

  // ---------- idempotence and kept ancestors ----------

  lemma PrunedDisabled(ls: seq<Listed>)
    requires AreSound(ls)
    ensures Disabled(Pruned(ls)) == Disabled(ls)
  {
    var parents := ParentWildcards(ls);
    forall l ensures l in Pruned(ls) && l.disabled.Some? <==> l in ls && l.disabled.Some? {
      KeepMembers(ls, parents, l);
    }
  }

  lemma PrunedWildcards(ls: seq<Listed>)
    requires AreSound(ls)
    ensures ParentWildcards(Pruned(ls)) <= ParentWildcards(ls)
  {
    PrunedDisabled(ls);
    forall l | l in Pruned(ls) ensures l in ls { KeepMembers(ls, ParentWildcards(ls), l); }
  }

  lemma CoveredByMore(target: string, fewer: set<string>, more: set<string>)
    requires fewer <= more && IsCovered(target, fewer)
    ensures IsCovered(target, more)
  {
    CoveredMeans(target, fewer);
    CoveredMeans(target, more);
  }

  lemma {:induction false} KeepAgain(ls: seq<Listed>, parents: set<string>)
    requires forall l :: l in ls ==> !IsRedundant(l, parents)
    ensures Keep(ls, parents) == ls
  {
    if ls != [] {
      var front := ls[..|ls| - 1];
      assert ls == front + [ls[|ls| - 1]];
      assert ls[|ls| - 1] in ls && forall l :: l in front ==> l in ls;
      KeepAgain(front, parents);
    }
  }

  /** No rule that is left lies under a wildcard that is left. */
  lemma NothingLeftUnderWildcard(ls: seq<Listed>, l: Listed)
    requires AreSound(ls) && l in Pruned(ls)
    ensures !IsRedundant(l, ParentWildcards(Pruned(ls)))
  {
    KeepMembers(ls, ParentWildcards(ls), l);
    PrunedWildcards(ls);
    if IsRedundant(l, ParentWildcards(Pruned(ls))) {
      CoveredByMore(l.target, ParentWildcards(Pruned(ls)), ParentWildcards(ls));
    }
  }

  /** Pruning twice prunes no more than once. */
  lemma PruningIsIdempotent(ls: seq<Listed>)
    requires AreSound(ls)
    ensures Pruned(Pruned(ls)) == Pruned(ls)
  {
    var once := Pruned(ls);
    forall l | l in once ensures !IsRedundant(l, ParentWildcards(once)) { NothingLeftUnderWildcard(ls, l); }
    KeepAgain(once, ParentWildcards(once));
  }

  /** The wildcard lines that are active and kept. */
  ghost predicate IsKeptWildcard(w: Listed, p: string, ls: seq<Listed>) {
    w in Pruned(ls) && w.wildcard == Some(p) && p !in Disabled(ls)
  }

  lemma {:induction false} KeptWildcardAbove(ls: seq<Listed>, target: string, p: string) returns (w: Listed, q: string)
    requires AreSound(ls) && p in ParentWildcards(ls) && IsAncestor(p, target)
    ensures IsKeptWildcard(w, q, ls) && IsAncestor(q, target)
    decreases |p|
  {
    w :| w in ls && w.wildcard == Some(p);
    q := p;
    KeepMembers(ls, ParentWildcards(ls), w);
    if IsRedundant(w, ParentWildcards(ls)) {
      CoveredMeans(p, ParentWildcards(ls));
      var above :| above in ParentWildcards(ls) && IsAncestor(above, p);
      AncestorsChain(above, p, target);
      w, q := KeptWildcardAbove(ls, target, above);
    }
  }

  /** Above every rule that is dropped there is an enabled, active wildcard that is kept. */
  lemma DroppedHasKeptAncestor(ls: seq<Listed>, l: Listed) returns (w: Listed, p: string)
    requires AreSound(ls) && l in ls && l !in Pruned(ls)
    ensures l.target != "" && IsKeptWildcard(w, p, ls) && IsAncestor(p, l.target)
  {
    var parents := ParentWildcards(ls);
    KeepMembers(ls, parents, l);
    CoveredMeans(l.target, parents);
    var above :| above in parents && IsAncestor(above, l.target);
    w, p := KeptWildcardAbove(ls, l.target, above);
  }

  // ---------- options protect a rule, but not a hosts line ----------

  predicate LedByAddress(text: string) {
    StartsWith(text, "0.0.0.0 ") || StartsWith(text, "127.0.0.1 ")
  }

  /** The word after the address, case-folded, lies under one of the wildcards. */
  predicate IsSecondWordCovered(text: string, parents: set<string>) {
    SecondWord(Trim(text)).Some? && IsCovered(Lower(SecondWord(Trim(text)).value), parents)
  }

  /** The target of a text with a `$`. */
  lemma TargetWithOptions(text: string)
    requires '$' in text
    ensures LedByAddress(text) ==>
              TargetDomain(text) == (match SecondWord(Trim(text)) case None => "" case Some(w) => Lower(w))
    ensures !LedByAddress(text) ==> TargetDomain(text) == ""
  {
    if SuffixDomain(text).Some? { SuffixTextHasNo(text, '$'); }
    assert LedByAddress(text) ==> text[0] != '|';
  }

  lemma AddressIsNoException(text: string)
    requires LedByAddress(text)
    ensures !StartsWith(text, "@@")
  {
    assert text[0] != '@';
  }

  lemma NothingIsNotCovered(parents: set<string>)
    ensures !IsCovered("", parents)
  {
  }

  /** A rule with a `$` is dropped exactly when it is a block without `##` that starts with an address and whose
      second word is covered: options protect every rule but a hosts line, and a hosts line never. */
  lemma OptionsProtectIff(rule: StoredRule, parents: set<string>)
    requires '$' in rule.originalRule
    ensures IsRedundant(ListedOf(rule), parents) <==>
            && rule.kind == "blocking" && !Contains(rule.originalRule, "##")
            && LedByAddress(rule.originalRule) && IsSecondWordCovered(rule.originalRule, parents)
  {
    TargetWithOptions(rule.originalRule);
    NothingIsNotCovered(parents);
    if LedByAddress(rule.originalRule) { AddressIsNoException(rule.originalRule); }
  }

  /** A hosts line in any layout: an address, spaces from index `a` to index `from`, a word, and perhaps more. */
  ghost predicate IsHostsLine(text: string, a: nat, from: nat, word: string) {
    && ((a == 7 && StartsWith(text, "0.0.0.0 ")) || (a == 9 && StartsWith(text, "127.0.0.1 ")))
    && a < from && At(text, from, word) && word != "" && IsTrimmed(text)
    && (forall k :: a <= k < from ==> IsSpace(text[k])) && (forall k :: 0 <= k < |word| ==> !IsSpace(word[k]))
    && (from + |word| == |text| || IsSpace(text[from + |word|]))
  }

  lemma AddressIsWord(text: string, a: nat)
    requires (a == 7 && StartsWith(text, "0.0.0.0 ")) || (a == 9 && StartsWith(text, "127.0.0.1 "))
    ensures WordEnd(text, 0) == a
  {
    forall k | 0 <= k < a ensures !IsSpace(text[k]) {
      assert text[k] == (if a == 7 then "0.0.0.0 " else "127.0.0.1 ")[k];
    }
    assert IsSpace(text[a]);
    WordRead(text, 0, a);
  }

  lemma SecondWordRead(text: string, a: nat, from: nat, word: string)
    requires IsHostsLine(text, a, from, word)
    ensures SecondWord(text) == Some(word) && LedByAddress(text)
  {
    AddressIsWord(text, a);
    forall k | from <= k < from + |word| ensures !IsSpace(text[k]) {
      AtIndex(text, from, word, k - from);
    }
    SpacesRead(text, a, from);
    WordRead(text, from, from + |word|);
  }

  lemma HostsTargetRead(text: string, word: string)
    requires LedByAddress(text) && IsTrimmed(text) && SecondWord(text) == Some(word)
    ensures TargetDomain(text) == Lower(word)
  {
    TrimIsTrimmed(text);
    assert text[0] != '|';
  }

  /** Whatever follows the domain in a word of its own does not protect a hosts line, `$important` included: it is
      pruned exactly when the bare line would be. */
  lemma HostsLineOptionsDoNotProtect(rule: StoredRule, a: nat, from: nat, domain: string, parents: set<string>)
    requires IsHostsLine(rule.originalRule, a, from, domain)
    requires rule.kind == "blocking" && !Contains(rule.originalRule, "##")
    ensures IsRedundant(ListedOf(rule), parents) <==> IsCovered(Lower(domain), parents)
  {
    SecondWordRead(rule.originalRule, a, from, domain);
    AddressIsNoException(rule.originalRule);
    HostsTargetRead(rule.originalRule, domain);
  }

  // ---------- an important block that is dropped ----------

  function Block(text: string): StoredRule {
    StoredRule(text, "blocking", true, [], [], [], false, false, "")
  }

  lemma WildcardRead(text: string, domain: string)
    requires text == "||" + domain + "^" && IsDomainText(domain) && Lower(domain) == domain
    ensures ListedOf(Block(text)) == Listed(Block(text), domain, Some(domain), None)
  {
    assert text[2..|text| - 1] == domain && text[|text| - 1] == '^' && text[0] == '|';
    WildcardIsPrunable(Block(text));
    if DisabledDomain(Block(text)).Some? { MarkerIsNotPrunable(Block(text)); }
  }

  /** A block led by an address is nothing but its target. */
  lemma HostsLineListed(text: string, a: nat, from: nat, word: string)
    requires IsHostsLine(text, a, from, word) && !Contains(text, "##")
    ensures ListedOf(Block(text)) == Listed(Block(text), Lower(word), None, None)
  {
    SecondWordRead(text, a, from, word);
    HostsTargetRead(text, word);
    assert text[0] != '|' && text[0] != '@';
  }

  lemma ImportantLayout(text: string, word: string)
    requires text == "0.0.0.0 x.ads.com $important" && word == "x.ads.com"
    ensures IsHostsLine(text, 7, 8, word) && '#' !in text && Lower(word) == word
  {
    assert text[8..17] == word;
  }

  lemma ImportantRead(text: string, word: string)
    requires text == "0.0.0.0 x.ads.com $important" && word == "x.ads.com"
    ensures ListedOf(Block(text)) == Listed(Block(text), word, None, None)
  {
    ImportantLayout(text, word);
    FoldedHostsLine(text, word);
  }

  lemma FoldedHostsLine(text: string, word: string)
    requires IsHostsLine(text, 7, 8, word) && '#' !in text && Lower(word) == word
    ensures ListedOf(Block(text)) == Listed(Block(text), word, None, None)
  {
    LacksChar(text, "##", 0);
    HostsLineListed(text, 7, 8, word);
  }

  lemma UnderAds(parents: set<string>)
    requires "ads.com" in parents
    ensures IsCovered("x.ads.com", parents)
  {
    assert "x.ads.com"[0] != '.' && "x.ads.com"[1] == '.';
    assert EndsWith("x.ads.com", "." + "ads.com") && "ads.com"[3] == '.';
    CoveredMeans("x.ads.com", parents);
  }

  lemma NotUnderItself(parents: set<string>)
    requires forall p :: p in parents ==> p == "ads.com"
    ensures !IsCovered("ads.com", parents)
  {
    CoveredMeans("ads.com", parents);
    assert !EndsWith("ads.com", "." + "ads.com");
  }

  /** A wildcard and a line under it: the line is dropped. */
  lemma WildcardDrops(w: Listed, l: Listed, domain: string)
    requires w.wildcard == Some(domain) && w.disabled.None? && w.target == domain && !IsCovered(domain, {domain})
    requires l.wildcard.None? && l.disabled.None? && l.target != "" && IsCovered(l.target, {domain})
    ensures RulesOf(Pruned([w, l])) == [w.rule]
  {
    assert Disabled([w, l]) == {};
    assert w in [w, l] && ParentWildcards([w, l]) == {domain};
    KeepFirst(w, l, {domain});
  }

  /** `||ads.com^` and `0.0.0.0 x.ads.com $important`: the important block is dropped. */
  lemma ImportantIsDropped(wide: string, important: string)
    requires wide == "||ads.com^" && important == "0.0.0.0 x.ads.com $important"
    ensures RulesOf(Pruned(Listing([Block(wide), Block(important)]))) == [Block(wide)]
  {
    WildcardRead(wide, "ads.com");
    ImportantRead(important, "x.ads.com");
    TwoListed(Block(wide), Block(important));
    UnderAds({"ads.com"});
    NotUnderItself({"ads.com"});
    WildcardDrops(ListedOf(Block(wide)), ListedOf(Block(important)), "ads.com");
  }

  lemma TwoListed(a: StoredRule, b: StoredRule)
    ensures Listing([a, b]) == [ListedOf(a), ListedOf(b)]
  {
    assert [a, b][..1] == [a] && [a][..0] == [];
    assert Listing([a]) == [] + [ListedOf(a)];
  }

  lemma KeepFirst(a: Listed, b: Listed, parents: set<string>)
    requires !IsRedundant(a, parents) && IsRedundant(b, parents)
    ensures RulesOf(Keep([a, b], parents)) == [a.rule]
  {
    assert [a, b][..1] == [a] && [a][..0] == [];
    assert Keep([a], parents) == [] + [a] && Keep([a, b], parents) == [a] + [];
    assert [a][..0] == [] && RulesOf([a]) == [] + [a.rule];
  }
}
