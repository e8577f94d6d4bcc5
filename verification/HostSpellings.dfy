/** One host in its spellings: ABP, hosts, dnsmasq, and the ABP exception. */
module HostSpellings {
  import opened Text
  import opened HostRules

  predicate IsHostChar(c: char) {
    IsLowerAlphanumeric(c) || c == '-' || c == '.'
  }

  /** A host in canonical form. */
  predicate IsCanonical(d: string) {
    NormalizeHost(d) == Some(d)
  }

  lemma {:induction false} LabelChars(s: string)
    requires forall part :: part in Split(s, '.') ==> IsLowerLabel(part)
    ensures s != "" && (forall k :: 0 <= k < |s| ==> IsHostChar(s[k]))
    ensures s[0] != '.' && s[|s| - 1] != '.'
    decreases |s|
  {
    var i := IndexOf(s, '.', 0);
    if i < 0 {
      assert Split(s, '.') == [s] && s in Split(s, '.');
    } else {
      var head, rest := s[..i], s[i + 1..];
      assert Split(s, '.') == [head] + Split(rest, '.');
      assert head in Split(s, '.') && IsLowerLabel(head);
      forall part | part in Split(rest, '.') ensures IsLowerLabel(part) { assert part in Split(s, '.'); }
      LabelChars(rest);
      forall k | 0 <= k < |s| ensures IsHostChar(s[k]) {
        if k < i { assert s[k] == head[k]; } else if k > i { assert s[k] == rest[k - i - 1]; }
      }
      assert s[0] == head[0] && s[|s| - 1] == rest[|rest| - 1];
    }
  }

  /** Host characters only, and no dot at either edge. */
  ghost predicate IsHostText(d: string) {
    d != "" && (forall k :: 0 <= k < |d| ==> IsHostChar(d[k])) && d[0] != '.' && d[|d| - 1] != '.'
  }

  lemma CanonicalIsHostText(d: string)
    requires IsCanonical(d)
    ensures IsHostText(d)
  {
    LabelChars(d);
  }

  lemma OutcomeOfCanonical(d: string, allowed: bool)
    requires IsCanonical(d)
    ensures Outcome(d, allowed) == Some(Parsed(d, allowed))
  {
  }

  lemma HasNo(d: string, c: char)
    requires IsHostText(d) && !IsHostChar(c)
    ensures c !in d
  {
  }

  // ---------- the skip hints ----------

  /** The text before the host cannot take part in `.arpa`. */
  predicate IsHarmlessPrefix(pre: string) {
    '.' !in pre || ('a' !in pre && pre[|pre| - 1] != '.')
  }

  lemma ArpaInMiddle(pre: string, d: string, post: string, value: string)
    requires value == pre + d + post && IsHarmlessPrefix(pre) && 'a' !in post
    ensures Contains(value, ".arpa") <==> Contains(d, ".arpa")
  {
    if Contains(value, ".arpa") {
      var i :| 0 <= i <= |value| && At(value, i, ".arpa");
      ArpaIsInMiddle(pre, d, post, value, i);
    }
    if Contains(d, ".arpa") {
      var i :| 0 <= i <= |d| && At(d, i, ".arpa");
      assert value[|pre| + i..|pre| + i + 5] == d[i..i + 5];
      assert At(value, |pre| + i, ".arpa");
    }
  }

  lemma ArpaIsInMiddle(pre: string, d: string, post: string, value: string, i: nat)
    requires value == pre + d + post && IsHarmlessPrefix(pre) && 'a' !in post && At(value, i, ".arpa")
    ensures Contains(d, ".arpa")
  {
    AtIndex(value, i, ".arpa", 0);
    AtIndex(value, i, ".arpa", 1);
    AtIndex(value, i, ".arpa", 4);
    NoDotThenA(pre, d, post, value, i);
    NoLateA(pre, d, post, value, i + 4);
    assert d[i - |pre|..i - |pre| + 5] == value[i..i + 5];
    assert At(d, i - |pre|, ".arpa");
  }

  lemma NoDotThenA(pre: string, d: string, post: string, value: string, i: nat)
    requires value == pre + d + post && IsHarmlessPrefix(pre)
    requires i + 1 < |value| && value[i] == '.' && value[i + 1] == 'a'
    ensures |pre| <= i
  {
    forall k | 0 <= k < |pre| ensures value[k] == pre[k] && pre[k] in pre { }
  }

  lemma NoLateA(pre: string, d: string, post: string, value: string, j: nat)
    requires value == pre + d + post && 'a' !in post && j < |value| && value[j] == 'a'
    ensures j < |pre| + |d|
  {
    forall k | |pre| + |d| <= k < |value| ensures value[k] == post[k - |pre| - |d|] && value[k] in post { }
  }

  lemma {:induction false} IncludesMeans(s: string, t: string)
    ensures Includes(s, t) <==> Contains(s, t)
    decreases |s|
  {
    if StartsWith(s, t) {
      assert At(s, 0, t);
    } else if s != "" {
      IncludesMeans(s[1..], t);
      ContainedLater(s, t);
    }
  }

  lemma ContainedLater(s: string, t: string)
    requires s != "" && !StartsWith(s, t)
    ensures Contains(s, t) <==> Contains(s[1..], t)
  {
    var rest := s[1..];
    forall i | 0 <= i <= |rest| - |t| ensures At(rest, i, t) <==> At(s, i + 1, t) {
      assert rest[i..i + |t|] == s[i + 1..i + 1 + |t|];
    }
    if Contains(s, t) {
      var i :| 0 <= i <= |s| && At(s, i, t);
      assert i > 0;
      assert At(rest, i - 1, t);
    }
    if Contains(rest, t) {
      var i :| 0 <= i <= |rest| && At(rest, i, t);
      assert At(s, i + 1, t);
    }
  }

  lemma {:induction false} NotIncluded(s: string, t: string, c: char)
    requires t != "" && t[0] == c && c !in s
    ensures !Includes(s, t)
    decreases |s|
  {
    if s != "" { NotIncluded(s[1..], t, c); }
  }

  /** A line without `#`, `$` or `+` that is about some host, unless it names `.arpa`. */
  lemma AboutHosts(value: string)
    requires value != "" && value[0] != '!' && value[0] != '['
    requires '#' !in value && '$' !in value && '+' !in value
    ensures IsNotAboutHosts(value) <==> Contains(value, ".arpa")
  {
    NotIncluded(value, "##", '#');
    NotIncluded(value, "#@#", '#');
    NotIncluded(value, "#?#", '#');
    NotIncluded(value, "$$", '$');
    NotIncluded(value, "+js(", '+');
    HintIsArpa(value);
  }

  lemma HintIsArpa(value: string)
    requires '$' !in value
    ensures HasHint(value) <==> Contains(value, ".arpa")
  {
    NotIncluded(value, "$dnsrewrite", '$');
    NotIncluded(value, "$dnstype", '$');
    NotIncluded(value, "$client", '$');
    NotIncluded(value, "$ctag", '$');
    IncludesMeans(value, ".arpa");
  }

  // ---------- the three spellings ----------

  lemma PrefixStart(value: string, prefix: string)
    requires prefix != ""
    ensures StartsWith(value, prefix) ==> value != "" && value[0] == prefix[0]
  {
  }

  lemma {:induction false} NoAddress(value: string, addresses: seq<string>)
    requires value != "" && forall a :: a in addresses ==> a != "" && a[0] != value[0]
    ensures HostsNameAt(value, addresses) == 0
    decreases |addresses|
  {
    if addresses != [] {
      assert addresses == [addresses[0]] + addresses[1..];
      assert addresses[0] in addresses;
      PrefixStart(value, addresses[0]);
      assert forall a :: a in addresses[1..] ==> a in addresses;
      NoAddress(value, addresses[1..]);
    }
  }

  lemma NotHosts(value: string)
    requires value != "" && value[0] != '0' && value[0] != '1' && value[0] != ':'
    ensures HostsNameAt(value, HOSTS_ADDRESSES) == 0
  {
    var rest := ["127.0.0.1", "::1", "::"];
    assert HOSTS_ADDRESSES == ["0.0.0.0"] + rest && rest[0][0] == '1' && rest[1][0] == ':' && rest[2][0] == ':';
    assert forall a :: a in rest ==> a == rest[0] || a == rest[1] || a == rest[2];
    NoAddress(value, rest);
    assert HOSTS_ADDRESSES[1..] == rest && HOSTS_ADDRESSES[0][0] == '0';
  }

  lemma NoDnsmasq(value: string)
    requires value != "" && LowerChar(value[0]) != 'a' && LowerChar(value[0]) != 's'
    ensures DnsmasqName(value) == None
  {
    assert Lower(value)[0] == LowerChar(value[0]);
  }

  lemma CutAt(s: string, d: string, post: string, chars: set<char>)
    requires s == d + post && (forall k :: 0 <= k < |d| ==> d[k] !in chars) && (post != "" ==> post[0] in chars)
    ensures Before(s, chars) == d
  {
    IndexOfAnyIs(s, chars, 0, |d|);
  }

  lemma NoneOf(s: string, chars: set<char>)
    requires forall k :: 0 <= k < |s| ==> s[k] !in chars
    ensures Before(s, chars) == s
  {
    IndexOfAnyIs(s, chars, 0, |s|);
  }

  lemma PlainNameOf(text: string, bare: string, name: string)
    requires Before(text, {'$'}) == text && bare == WithoutBars(text) && name == Before(bare, {'^', '|', '/'})
    requires name == "" || name[|name| - 1] != '.'
    ensures PlainName(text) == name
  {
  }

  lemma AnchoredBare(d: string, text: string)
    requires IsHostText(d) && text == "||" + d + "^"
    ensures Before(text, {'$'}) == text && WithoutBars(text) == d + "^" && Before(d + "^", {'^', '|', '/'}) == d
  {
    forall k | 0 <= k < |text| ensures text[k] !in {'$'} {
      if 2 <= k < |text| - 1 { assert text[k] == d[k - 2] && IsHostChar(d[k - 2]); }
    }
    NoneOf(text, {'$'});
    assert text[2..] == d + "^";
    assert forall k :: 0 <= k < |d| ==> IsHostChar(d[k]);
    CutAt(d + "^", d, "^", {'^', '|', '/'});
  }

  lemma AnchoredName(d: string, text: string)
    requires IsHostText(d) && text == "||" + d + "^"
    ensures PlainName(text) == d
  {
    AnchoredBare(d, text);
    PlainNameOf(text, d + "^", d);
  }

  lemma BareName(d: string)
    requires IsHostText(d)
    ensures PlainName(d) == d
  {
    assert forall k :: 0 <= k < |d| ==> IsHostChar(d[k]);
    NoneOf(d, {'$'});
    NoneOf(d, {'^', '|', '/'});
    assert WithoutBars(d) == d;
    PlainNameOf(d, d, d);
  }

  lemma HostOfName(value: string, at: nat, name: string, allowed: bool)
    requires value != "" && at == HostsNameAt(value, HOSTS_ADDRESSES) && name == NameOf(value, at)
    requires at > 0 ==> !IsLocalName(value[at..])
    ensures HostOf(value, allowed) == Outcome(name, allowed)
  {
  }

  lemma PlainNameRead(value: string, at: nat, text: string)
    requires at <= |value| && text == value[at..] && DnsmasqName(value) == None
    ensures NameOf(value, at) == PlainName(text)
  {
  }

  lemma AnchoredHost(d: string, value: string, allowed: bool)
    requires IsHostText(d) && value == "||" + d + "^"
    ensures HostOf(value, allowed) == Outcome(d, allowed)
  {
    AnchoredName(d, value);
    NotHosts(value);
    NoDnsmasq(value);
    assert value[0..] == value;
    PlainNameRead(value, 0, value);
    HostOfName(value, 0, d, allowed);
  }

  lemma AboutHost(pre: string, d: string, post: string, value: string)
    requires value == pre + d + post && IsHostText(d) && !Contains(d, ".arpa")
    requires IsHarmlessPrefix(pre) && pre != "" && pre[0] != '!' && pre[0] != '[' && 'a' !in post
    requires '#' !in pre && '$' !in pre && '+' !in pre && '#' !in post && '$' !in post && '+' !in post
    requires !IsSpace(pre[0]) && (post != "" ==> !IsSpace(post[|post| - 1]))
    ensures !IsNotAboutHosts(value) && Trim(value) == value
  {
    HasNo(d, '#');
    HasNo(d, '$');
    HasNo(d, '+');
    ArpaInMiddle(pre, d, post, value);
    AboutHosts(value);
    assert value[0] == pre[0];
    assert value[|value| - 1] == if post == "" then d[|d| - 1] else post[|post| - 1];
    assert IsHostChar(d[|d| - 1]);
    TrimIsTrimmed(value);
  }

  lemma RuleRead(value: string, outcome: Option<Parsed>)
    requires Trim(value) == value && !IsNotAboutHosts(value) && value[0] != '@' && HostOf(value, false) == outcome
    ensures HostFromRule(value) == outcome
  {
  }

  lemma MarkedRuleRead(line: string, value: string, tail: string, bare: string)
    requires value == Trim(line) && !IsNotAboutHosts(value) && value == "@@" + tail && bare == Trim(tail)
    ensures HostFromRule(line) == HostOf(bare, true)
  {
    assert value[2..] == tail;
  }

  lemma AnchoredRule(d: string, value: string)
    requires IsHostText(d) && !Contains(d, ".arpa") && value == "||" + d + "^"
    ensures HostFromRule(value) == Outcome(d, false)
  {
    AboutAnchored(d, value);
    AnchoredHost(d, value, false);
    RuleRead(value, Outcome(d, false));
  }

  lemma AboutAnchored(d: string, value: string)
    requires IsHostText(d) && !Contains(d, ".arpa") && value == "||" + d + "^"
    ensures !IsNotAboutHosts(value) && Trim(value) == value && value[0] == '|'
  {
    AboutHost("||", d, "^", value);
  }

  lemma ExceptionRule(d: string, value: string, bare: string)
    requires IsHostText(d) && !Contains(d, ".arpa") && bare == "||" + d + "^" && value == "@@" + bare
    ensures HostFromRule(value) == Outcome(d, true)
  {
    assert value == "@@||" + d + "^";
    AboutHost("@@||", d, "^", value);
    BareIsTrimmed(d, bare);
    MarkedRuleRead(value, value, bare, bare);
    AnchoredHost(d, bare, true);
  }

  lemma BareIsTrimmed(d: string, bare: string)
    requires bare == "||" + d + "^"
    ensures Trim(bare) == bare
  {
    assert bare[0] == '|' && bare[|bare| - 1] == '^';
    TrimIsTrimmed(bare);
  }

  lemma HostsAddressRead(d: string, value: string)
    requires IsHostText(d) && value == "0.0.0.0 " + d
    ensures HostsNameAt(value, HOSTS_ADDRESSES) == 8 && value[8..] == d && DnsmasqName(value) == None
  {
    assert IsHostChar(d[0]) && value[8] == d[0] && value[7] == ' ';
    assert SpacesFrom(value, 8) == 8 && SpacesFrom(value, 7) == 8;
    assert StartsWith(value, "0.0.0.0");
    NoDnsmasq(value);
  }

  lemma HostsHost(d: string, value: string)
    requires IsHostText(d) && value == "0.0.0.0 " + d
    ensures HostOf(value, false) == if IsLocalName(d) then None else Outcome(d, false)
  {
    HostsAddressRead(d, value);
    BareName(d);
    PlainNameRead(value, 8, d);
    if !IsLocalName(d) { HostOfName(value, 8, d, false); }
  }

  lemma HostsRule(d: string, value: string)
    requires IsHostText(d) && !Contains(d, ".arpa") && value == "0.0.0.0 " + d
    ensures HostFromRule(value) == if IsLocalName(d) then None else Outcome(d, false)
  {
    assert value == "0.0.0.0 " + d + "";
    AboutHost("0.0.0.0 ", d, "", value);
    HostsHost(d, value);
    RuleRead(value, if IsLocalName(d) then None else Outcome(d, false));
  }

  lemma DnsmasqRead(d: string, value: string)
    requires IsHostText(d) && value == "address=/" + (d + "/0.0.0.0")
    ensures DnsmasqName(value) == Some(d)
  {
    assert value[9..9 + |d|] == d && value[9 + |d|] == '/';
    forall k | 9 <= k < 9 + |d| ensures value[k] != '/' { assert value[k] == d[k - 9] && IsHostChar(d[k - 9]); }
    IndexOfIs(value, '/', 9, 9 + |d|);
    AddressPrefix(d + "/0.0.0.0", value);
  }

  lemma AddressPrefix(rest: string, value: string)
    requires value == "address=/" + rest
    ensures StartsWith(Lower(value), "address=/")
  {
    LowerOfConcat("address=/", rest);
    assert Lower("address=/") == "address=/";
  }

  lemma DnsmasqHost(d: string, value: string)
    requires IsHostText(d) && value == "address=/" + (d + "/0.0.0.0")
    ensures HostOf(value, false) == Outcome(d, false)
  {
    DnsmasqRead(d, value);
    assert value[0] == 'a';
    NotHosts(value);
    HostOfName(value, 0, d, false);
  }

  lemma DnsmasqRule(d: string, value: string)
    requires IsHostText(d) && !Contains(d, ".arpa") && value == "address=/" + (d + "/0.0.0.0")
    ensures HostFromRule(value) == Outcome(d, false)
  {
    assert value == "address=/" + d + "/0.0.0.0";
    AboutHost("address=/", d, "/0.0.0.0", value);
    DnsmasqHost(d, value);
    RuleRead(value, Outcome(d, false));
  }

  // ---------- the main results ----------

  /** `||host^` blocks the host, `@@||host^` allows it. */
  lemma AnchoredSpelling(d: string)
    requires IsCanonical(d) && !Contains(d, ".arpa")
    ensures HostFromRule("||" + d + "^") == Some(Parsed(d, false))
    ensures HostFromRule("@@" + ("||" + d + "^")) == Some(Parsed(d, true))
  {
    CanonicalIsHostText(d);
    OutcomeOfCanonical(d, false);
    OutcomeOfCanonical(d, true);
    AnchoredRule(d, "||" + d + "^");
    ExceptionRule(d, "@@" + ("||" + d + "^"), "||" + d + "^");
  }

  /** The dnsmasq spelling agrees with the ABP one always; the hosts spelling exactly when the host does
      not start with a name hosts files keep for the machine itself. */
  lemma SpellingsAgree(d: string)
    requires IsCanonical(d) && !Contains(d, ".arpa")
    ensures HostFromRule("address=/" + (d + "/0.0.0.0")) == Some(Parsed(d, false))
    ensures HostFromRule("0.0.0.0 " + d) == Some(Parsed(d, false)) <==> !IsLocalName(d)
  {
    CanonicalIsHostText(d);
    OutcomeOfCanonical(d, false);
    HostsRule(d, "0.0.0.0 " + d);
    DnsmasqRule(d, "address=/" + (d + "/0.0.0.0"));
  }
}
