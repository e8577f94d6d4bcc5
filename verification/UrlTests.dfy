/** The tests a pattern body compiles to: host globs, path globs, literal anchors and regexes. */
module UrlTests {
  import opened Text
  import opened RequestRules
  import RegexScanner

  const MAX_URL_PATTERN_LENGTH := 2000

  /** The JavaScript regex engine: whether a pattern compiles, and whether it finds a match. */
  datatype Engine = Engine(compiles: string -> bool, finds: (string, string) -> bool)

  datatype UrlTest =
    | Always
    | HostGlob(host: string)
    | UrlExact(needle: string)
    | UrlPrefix(needle: string)
    | HostPath(host: string, path: string)
    | Anywhere(pattern: string)
    | Regex(source: string)

  // ---------- reading a URL ----------

  predicate IsLetter(c: char) {
    'a' <= LowerChar(c) <= 'z'
  }

  predicate IsSchemeChar(c: char) {
    IsLetter(c) || IsDigit(c) || c == '+' || c == '.' || c == '-'
  }

  function SchemeRun(s: string, i: nat): (r: nat)
    requires i <= |s|
    ensures i <= r <= |s|
    decreases |s| - i
  {
    if i < |s| && IsSchemeChar(s[i]) then SchemeRun(s, i + 1) else i
  }

  /** The index past `scheme://`, or -1 when the text does not start with one. */
  function SchemeEnd(s: string): (r: int)
    ensures r == -1 || 0 <= r <= |s|
  {
    if s == "" || !IsLetter(s[0]) then -1
    else
      var i := SchemeRun(s, 1);
      if At(s, i, "://") then i + 3 else -1
  }

  function UpTo(s: string, chars: set<char>): (r: string)
    ensures r <= s
  {
    var i := IndexOfAny(s, chars, 0);
    if i < 0 then s else s[..i]
  }

  function AfterLast(s: string, c: char): (r: string)
    ensures |r| <= |s| && r == s[|s| - |r|..]
  {
    s[LastIndexOf(s, c) + 1..]
  }

  /** A trailing `:digits` removed. */
  function WithoutPort(s: string): (r: string)
    ensures r <= s
  {
    var t := StripTrailing(s, RegexScanner.DIGITS);
    if t != s && t != "" && t[|t| - 1] == ':' then t[..|t| - 1] else s
  }

  function WithoutBrackets(s: string): (r: string)
    ensures Contains(s, r)
  {
    var from := if s != "" && s[0] == '[' then 1 else 0;
    var to := if s != "" && s[|s| - 1] == ']' && |s| > from then |s| - 1 else |s|;
    ContainsSlice(s, from, to);
    s[from..to]
  }

  predicate IsHostText(s: string) {
    s != "" &&
    ((forall k :: 0 <= k < |s| ==> IsLetter(s[k]) || IsDigit(s[k]) || s[k] in {'.', '_', '-'}) ||
     (forall k :: 0 <= k < |s| ==> IsDigit(s[k]) || 'a' <= LowerChar(s[k]) <= 'f' || s[k] == ':'))
  }

  function WithoutSlashes(rest: string): string {
    if StartsWith(rest, "//") then rest[2..] else rest
  }

  function WithoutScheme(url: string): string {
    var trimmed := Trim(url);
    var scheme := SchemeEnd(trimmed);
    WithoutSlashes(if scheme < 0 then trimmed else trimmed[scheme..])
  }

  /** The host of a request URL, or None when nothing honest can be read from it. */
  function RequestHost(url: string): Option<string> {
    var authority := UpTo(WithoutScheme(url), {'/', '?', '#'});
    var host := Lower(StripTrailing(WithoutBrackets(WithoutPort(AfterLast(authority, '@'))), {'.'}));
    if IsHostText(host) then Some(host) else None
  }

  function AfterScheme(url: string): Option<string> {
    var trimmed := Trim(url);
    var scheme := SchemeEnd(trimmed);
    if scheme < 0 then None else Some(trimmed[scheme..])
  }

  function HostAndRemainder(rest: string): (string, string) {
    var authority := UpTo(rest, {'/', '?', '#'});
    (Lower(WithoutPort(AfterLast(authority, '@'))), rest[|authority|..])
  }

  /** Host and remainder of an absolute URL. */
  function SplitRequestUrl(url: string): Option<(string, string)> {
    var rest := AfterScheme(url);
    if rest.None? || HostAndRemainder(rest.value).0 == "" then None else Some(HostAndRemainder(rest.value))
  }

  // ---------- globs ----------

  /** A host glob from `i`: `*` stays inside one label, the rest is compared literally. */
  predicate HostGlobFrom(g: string, h: string, i: nat)
    decreases |g|, |h| - i
  {
    if g == "" then i == |h|
    else if g[0] == '*' then
      HostGlobFrom(g[1..], h, i) || (i < |h| && h[i] != '.' && HostGlobFrom(g, h, i + 1))
    else i < |h| && LowerChar(h[i]) == LowerChar(g[0]) && HostGlobFrom(g[1..], h, i + 1)
  }

  /** The glob covers the host or a parent of it. */
  predicate HostMatches(g: string, h: string) {
    exists i :: 0 <= i <= |h| && (i == 0 || h[i - 1] == '.') && HostGlobFrom(g, h, i)
  }

  predicate IsSeparator(c: char) {
    !IsLetter(c) && !IsDigit(c) && c !in {'_', ',', '-', '.', '%'}
  }

  /** A pattern from position `i` of the text: `*` is any run within a line, `^` a separator or the end. */
  predicate GlobFrom(g: string, t: string, i: nat)
    decreases |g|, |t| - i
  {
    if g == "" then i <= |t|
    else if g[0] == '*' then
      GlobFrom(g[1..], t, i) || (i < |t| && !IsLineEnd(t[i]) && GlobFrom(g, t, i + 1))
    else if g[0] == '^' then
      (i < |t| && IsSeparator(t[i]) && GlobFrom(g[1..], t, i + 1)) || (i == |t| && GlobFrom(g[1..], t, i))
    else i < |t| && LowerChar(t[i]) == LowerChar(g[0]) && GlobFrom(g[1..], t, i + 1)
  }

  predicate GlobAnywhere(g: string, t: string) {
    exists i :: 0 <= i <= |t| && GlobFrom(g, t, i)
  }

  predicate Passes(test: UrlTest, url: string, engine: Engine) {
    match test
    case Always => true
    case HostGlob(host) => RequestHost(url).Some? && HostMatches(host, RequestHost(url).value)
    case UrlExact(needle) => Lower(url) == needle
    case UrlPrefix(needle) => StartsWith(Lower(url), needle)
    case HostPath(host, path) =>
      SplitRequestUrl(url).Some? && HostMatches(host, SplitRequestUrl(url).value.0) &&
      GlobAnywhere(path, SplitRequestUrl(url).value.1)
    case Anywhere(pattern) => GlobAnywhere(pattern, url)
    case Regex(source) => engine.finds(source, url)
  }

  // ---------- compiling a body ----------

  predicate StartsCosmetic(s: string) {
    StartsWith(s, "##") || StartsWith(s, "#@#") || StartsWith(s, "#?#") || StartsWith(s, "#%#") || StartsWith(s, "#$#")
  }

  predicate IsNetworkRule(line: string) {
    var rule := Trim(line);
    && rule != "" && rule[0] != '!' && rule[0] != '['
    && (rule[0] == '#' ==> StartsCosmetic(rule))
    && !Contains(rule, "##") && !Contains(rule, "#@#") && !Contains(rule, "#?#") && !Contains(rule, "#%#")
    && !Contains(rule, "#$#") && !Contains(rule, "#@$#") && !Contains(rule, "$@$")
    && !Contains(rule, "$$") && !Contains(rule, "+js(")
    && !Contains(rule, "$dnsrewrite") && !Contains(rule, "$dnstype") && !Contains(rule, "$client")
  }

  datatype Parts = Parts(body: string, modifiers: seq<string>, isRegex: bool)

  function WithoutAnchors(s: string): string {
    if StartsWith(s, "||") then s[2..] else if StartsWith(s, "|") then s[1..] else s
  }

  function RuleParts(rule: string): Parts {
    var trimmed := Trim(rule);
    var isRegex := IsSlashedRegex(trimmed);
    var separator := if isRegex then -1 else LastIndexOf(trimmed, '$');
    var text := if separator > 0 then trimmed[..separator] else trimmed;
    Parts(WithoutAnchors(if StartsWith(text, "@@") then text[2..] else text),
          if separator > 0 then NonEmpty(TrimAll(Split(Lower(trimmed[separator + 1..]), ','))) else [],
          isRegex)
  }

  function SchemeLength(body: string): (r: nat)
    ensures r <= |body|
  {
    if StartsWith(Lower(body), "http://") then 7
    else if StartsWith(Lower(body), "https://") then 8
    else 0
  }

  function HostPathTest(rest: string): Option<UrlTest> {
    var boundary := IndexOfAny(rest, {'^', '/'}, 0);
    if boundary <= 0 then None
    else
      var tail := rest[boundary..];
      var path := StripTrailing(tail, {'|'});
      if StripTrailing(if tail[0] == '^' then tail[1..] else tail, {'|'}) == "" then None
      else if |path| > MAX_URL_PATTERN_LENGTH then None
      else Some(HostPath(Lower(rest[..boundary]), path))
  }

  function RegexTest(source: string, engine: Engine): Option<UrlTest> {
    if |source| > MAX_URL_PATTERN_LENGTH || RegexScanner.Refusal(source).Some? || !engine.compiles(source) then None
    else Some(Regex(source))
  }

  /** The line is not a blocking rule that a URL alone can decide. */
  predicate IsUndecidable(trimmed: string, parts: Parts) {
    !IsNetworkRule(trimmed) || StartsWith(trimmed, "@@") ||
    exists m :: m in parts.modifiers && m != "important" && !StartsWith(m, "denyallow=")
  }

  /** The test of a pattern that is not a regex. */
  function PatternTest(trimmed: string, body: string): Option<UrlTest> {
    var scheme := SchemeLength(body);
    var rest := body[scheme..];
    if StartsWith(trimmed, "||") || scheme > 0 then HostPathTest(rest)
    else if StartsWith(trimmed, "|") then
      var prefix := StripTrailing(rest, {'|'});
      if prefix == "" then None else Some(UrlPrefix(Lower(prefix)))
    else if body == "" || |body| > MAX_URL_PATTERN_LENGTH then None
    else Some(Anywhere(body))
  }

  /** The test of a blocking body, or None when a URL cannot decide it. */
  function RequestUrlMatcher(rule: string, engine: Engine): Option<UrlTest> {
    var trimmed := Trim(rule);
    var parts := RuleParts(trimmed);
    if IsUndecidable(trimmed, parts) then None
    else if parts.isRegex then RegexTest(if |trimmed| > 2 then trimmed[1..|trimmed| - 1] else "", engine)
    else PatternTest(trimmed, parts.body)
  }

  /** The pattern constrains more than a host: a slash, or something after its first `^`. */
  predicate CarriesPath(pattern: string) {
    var caret := IndexOf(pattern, '^', 0);
    '/' in pattern || StripTrailing(if caret < 0 then "" else pattern[caret + 1..], {'|'}) != ""
  }

  /** The exception half: only a body that carries a path is compiled against the URL. */
  function ExceptionRequestUrlMatcher(rule: string, engine: Engine): Option<UrlTest> {
    var trimmed := Trim(rule);
    if !StartsWith(trimmed, "@@") || !IsNetworkRule(trimmed) then None
    else if !CarriesPath(RuleParts(trimmed).body) then None
    else RequestUrlMatcher(trimmed[2..], engine)
  }

  /** The host a host-only body indexes under, or None when the body is not one. */
  function HostOnlyPattern(body: string): Option<string> {
    if !StartsWith(body, "||") && (StartsWith(body, "|") || StartsWith(body, "/")) then None
    else
      var b := if StartsWith(body, "||") then body[2..] else body;
      var host := StripTrailing(StripTrailing(b, {'^'}), {'.'});
      if '/' in b || '^' in host || host == "" || '.' !in host then None else Some(Lower(host))
  }

  /** A single-`|` anchor: a literal prefix, or the whole URL when a trailing `|` closes it. */
  function UrlAnchorTest(body: string): Option<UrlTest>
    requires body != ""
  {
    var pattern := body[1..];
    var exact := EndsWith(pattern, "|");
    var needle := if exact then pattern[..|pattern| - 1] else pattern;
    if needle == "" then None
    else if exact then Some(UrlExact(Lower(needle)))
    else Some(UrlPrefix(Lower(needle)))
  }

  /** The name of a hosts line `address name`, when the body is one. */
  function HostsName(body: string, address: string): Option<string> {
    if !StartsWith(body, address) then None
    else
      var name := SpacesFrom(body, |address|);
      var end := WordEnd(body, name);
      if name == |address| || end == name then None else Some(body[name..end])
  }

  function HostsEntry(body: string): Option<string> {
    if HostsName(body, "0.0.0.0").Some? then HostsName(body, "0.0.0.0")
    else if HostsName(body, "127.0.0.1").Some? then HostsName(body, "127.0.0.1")
    else if HostsName(body, "::1").Some? then HostsName(body, "::1")
    else HostsName(body, "::")
  }

  /** The test of a body that no host map can hold. */
  function ScanTest(body: string, isException: bool, engine: Engine): Option<UrlTest> {
    var hostKey := HostOnlyPattern(body);
    if body == "" || body == "*" then Some(Always)
    else if hostKey.Some? && '*' in hostKey.value then Some(HostGlob(hostKey.value))
    else if StartsWith(body, "|") && !StartsWith(body, "||") then UrlAnchorTest(body)
    else if isException then ExceptionRequestUrlMatcher("@@" + body, engine)
    else RequestUrlMatcher(body, engine)
  }
}
