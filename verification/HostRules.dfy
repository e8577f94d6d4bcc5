/** The host one feed line is about, and whether the line allows it: the parser all feeds share. */
module HostRules {
  import opened Text

  datatype Parsed = Parsed(host: string, allowed: bool)

  // ---------- canonical hosts ----------

  function StripLeading(s: string, c: char): (r: string)
    ensures |r| <= |s| && r == s[|s| - |r|..]
    ensures r == "" || r[0] != c
  {
    if s != "" && s[0] == c then
      var rest := StripLeading(s[1..], c);
      assert s[1..][|s| - 1 - |rest|..] == s[|s| - |rest|..];
      rest
    else s
  }

  predicate IsLowerAlphanumeric(c: char) {
    'a' <= c <= 'z' || IsDigit(c)
  }

  predicate IsLowerLabel(s: string) {
    1 <= |s| <= 63 && (forall k :: 0 <= k < |s| ==> IsLowerAlphanumeric(s[k]) || s[k] == '-') &&
    IsLowerAlphanumeric(s[0]) && IsLowerAlphanumeric(s[|s| - 1])
  }

  /** Two labels or more. */
  predicate IsDomain(s: string) {
    |Split(s, '.')| >= 2 && forall part :: part in Split(s, '.') ==> IsLowerLabel(part)
  }

  /** The host in canonical form, or None when it cannot be blocked. */
  function NormalizeHost(value: string): Option<string> {
    var host := StripTrailing(StripLeading(Lower(Trim(value)), '.'), {'.'});
    if host == "" || |host| > 253 || '*' in host then None
    else if host == "localhost" || EndsWith(host, ".local") || EndsWith(host, ".arpa") then None
    else if IsDomain(host) then Some(host)
    else None
  }

  // ---------- one line ----------

  /** `s.includes(t)`, by recursion. */
  predicate Includes(s: string, t: string)
    decreases |s|
  {
    StartsWith(s, t) || (s != "" && Includes(s[1..], t))
  }

  /** Directives that mean something to a resolver or a browser, never a host to block. */
  predicate HasHint(value: string) {
    Includes(value, "$dnsrewrite") || Includes(value, "$dnstype") || Includes(value, "$client") ||
    Includes(value, "$ctag") || Includes(value, ".arpa")
  }

  /** Comments, headers, cosmetic rules, scripts and resolver directives say nothing about a host. */
  predicate IsNotAboutHosts(value: string) {
    value == "" || value[0] == '!' || value[0] == '[' || value[0] == '#' ||
    Includes(value, "##") || Includes(value, "#@#") || Includes(value, "#?#") ||
    Includes(value, "$$") || Includes(value, "+js(") || HasHint(value)
  }

  const HOSTS_ADDRESSES: seq<string> := ["0.0.0.0", "127.0.0.1", "::1", "::"]

  /** Where the name of a hosts entry starts, or 0 when the text is not one. */
  function HostsNameAt(s: string, addresses: seq<string>): (r: nat)
    ensures r <= |s|
  {
    if addresses == [] then 0
    else if StartsWith(s, addresses[0]) && SpacesFrom(s, |addresses[0]|) > |addresses[0]| then
      SpacesFrom(s, |addresses[0]|)
    else HostsNameAt(s, addresses[1..])
  }

  /** The text starts with the word, and the word ends there. */
  predicate StartsWithWord(s: string, word: string) {
    StartsWith(Lower(s), word) && (|s| == |word| || !IsWordChar(s[|word|]))
  }

  /** The names hosts files give to the machine itself. */
  predicate IsLocalName(s: string) {
    StartsWithWord(s, "localhost") || StartsWithWord(s, "broadcasthost") || StartsWithWord(s, "local")
  }

  /** The name between the slashes of `address=/name/…` or `server=/name/…`. */
  function DnsmasqName(s: string): Option<string> {
    var from := if StartsWith(Lower(s), "address=/") then 9 else if StartsWith(Lower(s), "server=/") then 8 else 0;
    var to := IndexOf(s, '/', from);
    if from == 0 || to <= from then None else Some(s[from..to])
  }

  /** The text up to the first of the characters. */
  function Before(s: string, chars: set<char>): (r: string)
    ensures r <= s
  {
    var i := IndexOfAny(s, chars, 0);
    if i < 0 then s else s[..i]
  }

  function WithoutBars(s: string): string {
    if StartsWith(s, "||") then s[2..] else s
  }

  /** The name of an ABP or hosts line after its address: modifiers, anchor, path and trailing dots removed. */
  function PlainName(text: string): string {
    StripTrailing(Before(WithoutBars(Before(text, {'$'})), {'^', '|', '/'}), {'.'})
  }

  function NameOf(value: string, at: nat): string
    requires at <= |value|
  {
    if DnsmasqName(value).Some? then DnsmasqName(value).value else PlainName(value[at..])
  }

  function Outcome(name: string, allowed: bool): Option<Parsed> {
    match NormalizeHost(name)
    case None => None
    case Some(host) => Some(Parsed(host, allowed))
  }

  function HostOf(value: string, allowed: bool): Option<Parsed> {
    var at := HostsNameAt(value, HOSTS_ADDRESSES);
    if value == "" || (at > 0 && IsLocalName(value[at..])) then None else Outcome(NameOf(value, at), allowed)
  }

  /** The host a feed line blocks or allows, or None when it does neither. */
  function HostFromRule(rule: string): Option<Parsed> {
    var value := Trim(rule);
    if IsNotAboutHosts(value) then None
    else if StartsWith(value, "@@") then HostOf(Trim(value[2..]), true)
    else HostOf(value, false)
  }
}
