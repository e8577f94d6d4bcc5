/** Exactly when the token shortlist loses no match: for bodies with a host and a path, and for wildcard hosts. */
module RequestExactness {
  import opened Text
  import opened RequestRules
  import opened UrlTests
  import opened RequestIndex
  import opened RequestTokens
  import RegexScanner

  predicate IsHostChar(c: char) {
    IsLetter(c) || IsDigit(c) || c == '-' || c == '.' || c == '_'
  }

  predicate IsPlainHost(h: string) {
    h != "" && forall k :: 0 <= k < |h| ==> IsHostChar(h[k])
  }

  /** Host characters and `*`. */
  predicate IsGlobHost(h: string) {
    h != "" && forall k :: 0 <= k < |h| ==> IsHostChar(h[k]) || h[k] == '*'
  }

  predicate IsScheme(s: string) {
    Lower(s) == "http://" || Lower(s) == "https://"
  }

  /** What stands before the host: `||`, a scheme, or both. */
  predicate IsLead(bars: string, scheme: string) {
    (bars == "||" || bars == "") && (scheme == "" || IsScheme(scheme)) && (bars != "" || scheme != "")
  }

  /** What stands behind the host: a path, or a `^` and more. */
  predicate IsTail(tail: string) {
    tail != "" && (tail[0] == '/' || tail[0] == '^')
  }

  // ---------- the token is a whole stretch between special characters ----------

  ghost predicate IsStretch(body: string, i: int, run: string) {
    && IsRun(body, i, run)
    && (i == 0 || IsSpecial(body[i - 1]))
    && (i + |run| == |body| || IsSpecial(body[i + |run|]))
  }

  lemma {:induction false} LongestIsStretch(body: string, i: nat, run: string, best: string, at: int)
    requires i <= |body| && |run| <= i && IsRun(body, i - |run|, run)
    requires i == |run| || IsSpecial(body[i - |run| - 1])
    requires best == "" || IsStretch(body, at, best)
    ensures var r := RunFrom(body, i, run, best); r == "" || exists j :: 0 <= j <= |body| && IsStretch(body, j, r)
    decreases |body| - i
  {
    if i < |body| {
      if IsSpecial(body[i]) {
        assert |run| > 0 ==> IsStretch(body, i - |run|, run);
        LongestIsStretch(body, i + 1, "", Longer(run, best), if |run| > |best| then i - |run| else at);
      } else {
        assert body[i - |run|..i + 1] == run + [body[i]];
        LongestIsStretch(body, i + 1, run + [body[i]], best, at);
      }
    } else if |run| > |best| {
      assert IsStretch(body, i - |run|, run);
    } else if best != "" {
      assert IsStretch(body, at, best);
    }
  }

  lemma TokenStretch(body: string) returns (i: int, run: string)
    requires LiteralToken(body).Some?
    ensures IsStretch(body, i, run) && |run| >= MIN_TOKEN_LENGTH && LiteralToken(body).value == Lower(run)
  {
    run := RunFrom(body, 0, "", "");
    LongestIsStretch(body, 0, "", "", 0);
    i :| 0 <= i <= |body| && IsStretch(body, i, run);
  }

  // ---------- what such a body compiles to ----------

  lemma SchemeEnds(scheme: string)
    requires IsScheme(scheme)
    ensures |scheme| in {7, 8} && scheme[|scheme| - 1] == '/'
    ensures scheme[|scheme| - 2] == '/' && scheme[|scheme| - 3] == ':'
    ensures forall k :: 0 <= k < |scheme| - 2 ==> !IsSpecial(scheme[k]) && scheme[k] != '/'
    ensures scheme[0] != '/' && scheme[0] != '|'
  {
    var l := Lower(scheme);
    assert l == "http://" || l == "https://";
    assert l[|l| - 1] == '/' && l[|l| - 2] == '/' && l[|l| - 3] == ':' && l[0] == 'h' &&
           l[1] == 't' && l[2] == 't' && l[3] == 'p';
    forall k | 0 <= k < |scheme| - 2 ensures !IsSpecial(scheme[k]) && scheme[k] != '/' {
      assert l[k] == LowerChar(scheme[k]);
      assert l[k] in {'h', 't', 'p', 's', ':'};
    }
  }

  lemma SchemeColon(rest: string)
    ensures SchemeLength(rest) == 0 ||
            exists k ::
              0 <= k && k + 1 < |rest| && Lower(rest)[k] == ':' && forall j :: 0 <= j < k ==> Lower(rest)[j] != '/'
  {
    var l := Lower(rest);
    if StartsWith(l, "http://") {
      assert l[4] == ':' && l[0] == 'h' && l[1] == 't' && l[2] == 't' && l[3] == 'p';
    } else if StartsWith(l, "https://") {
      assert l[5] == ':' && l[0] == 'h' && l[1] == 't' && l[2] == 't' && l[3] == 'p' && l[4] == 's';
    }
  }

  lemma NoSchemeInHost(h: string, tail: string)
    requires IsGlobHost(h) && tail != "" && tail[0] == '/'
    ensures SchemeLength(h + tail) == 0
  {
    var rest := h + tail;
    var l := Lower(rest);
    SchemeColon(rest);
    forall k | 0 <= k < |h| ensures l[k] != ':' {
      assert rest[k] == h[k] && (IsHostChar(h[k]) || h[k] == '*');
    }
    assert l[|h|] == '/';
  }

  lemma SchemeRead(scheme: string, rest: string)
    requires IsScheme(scheme)
    ensures SchemeLength(scheme + rest) == |scheme| && (scheme + rest)[|scheme|..] == rest
  {
    LowerOfConcat(scheme, rest);
    assert Lower(scheme + rest) == Lower(scheme) + Lower(rest);
    if Lower(scheme) == "https://" { HttpsIsNotHttp(Lower(scheme + rest)); }
  }

  lemma HttpsIsNotHttp(l: string)
    requires StartsWith(l, "https://")
    ensures !StartsWith(l, "http://")
  {
    assert l[4] == 's';
  }

  /** The path as the test keeps it. */
  function KeptPath(tail: string): string {
    StripTrailing(tail, {'|'})
  }

  lemma KeptPathStarts(tail: string)
    requires IsTail(tail)
    ensures KeptPath(tail) != "" && KeptPath(tail)[0] == tail[0] && KeptPath(tail) <= tail
  {
    StrippedAreInSet(tail, {'|'});
    assert tail[0] !in {'|'};
  }

  lemma HostEnds(h: string, tail: string, rest: string)
    requires IsGlobHost(h) && IsTail(tail) && rest == h + tail
    ensures IndexOfAny(rest, {'^', '/'}, 0) == |h| && rest[|h|..] == tail && rest[..|h|] == h
  {
    forall k | 0 <= k < |h| ensures rest[k] !in {'^', '/'} {
      assert rest[k] == h[k] && (IsHostChar(h[k]) || h[k] == '*');
    }
    IndexOfAnyIs(rest, {'^', '/'}, 0, |h|);
  }

  lemma HostPathTestRead(h: string, tail: string, rest: string)
    requires IsGlobHost(h) && IsTail(tail) && rest == h + tail && HostPathTest(rest).Some?
    ensures HostPathTest(rest) == Some(HostPath(Lower(h), KeptPath(tail)))
  {
    HostEnds(h, tail, rest);
    HostPathTestOf(rest, |h|);
  }

  lemma PatternTestRead(body: string, bars: string, scheme: string, h: string, tail: string)
    requires IsLead(bars, scheme) && IsGlobHost(h) && IsTailOf(scheme, tail) && body == bars + (scheme + (h + tail))
    ensures PatternTest(body, WithoutAnchors(body)) == HostPathTest(h + tail)
  {
    var rest := h + tail;
    var url := scheme + rest;
    if scheme == "" {
      assert url == rest;
      NoSchemeInHost(h, tail);
      assert rest[0..] == rest;
    } else {
      SchemeEnds(scheme);
      SchemeRead(scheme, rest);
      assert url[0] == scheme[0];
    }
    if bars == "||" { assert body[2..] == url; } else { assert body == url; }
  }

  /** Behind a host without a scheme a path; a body with a `^` there is safe (`RequestTokens.TokenSafe`). */
  predicate IsTailOf(scheme: string, tail: string) {
    IsTail(tail) && (tail[0] == '^' ==> scheme != "")
  }

  /** The body is trimmed, has no options, and reads as host and tail. */
  predicate IsHostPathBody(body: string, bars: string, scheme: string, h: string, tail: string) {
    && IsLead(bars, scheme) && IsGlobHost(h) && IsTailOf(scheme, tail)
    && body == bars + (scheme + (h + tail)) && IsTrimmed(body) && '$' !in body
  }

  lemma BodyStarts(body: string, bars: string, scheme: string, h: string, tail: string)
    requires IsLead(bars, scheme) && IsGlobHost(h) && IsTailOf(scheme, tail) && body == bars + (scheme + (h + tail))
    ensures |body| >= 3 && body[0] != '/' && body != "*" && (body[0] == '|' ==> bars == "||")
    ensures HostOnlyPattern(body) == None && !IsSlashedRegex(body) && HostsEntry(body) == None
  {
    if scheme != "" { SchemeEnds(scheme); }
    if bars == "||" {
      assert body[0] == '|' && body[1] == '|';
    } else {
      assert body[0] == scheme[0];
      assert LowerChar(scheme[0]) == Lower(scheme)[0] == 'h';
    }
    var b := AfterBars(body);
    assert b == scheme + (h + tail);
    if scheme != "" { assert b[|scheme| - 1] == '/'; } else { assert b[|h|] == '/'; }
    assert '/' in b;
    NoAddress(body);
  }

  lemma NoAddress(body: string)
    requires body != "" && !IsDigit(body[0]) && body[0] != ':'
    ensures HostsEntry(body) == None
  {
    assert "0.0.0.0"[0] == '0' && "127.0.0.1"[0] == '1' && "::1"[0] == ':' && "::"[0] == ':';
  }

  lemma ScanTestRead(body: string, bars: string, scheme: string, h: string, tail: string, isException: bool,
                     engine: Engine)
    requires IsHostPathBody(body, bars, scheme, h, tail) && ScanTest(body, isException, engine).Some?
    ensures ScanTest(body, isException, engine) == Some(HostPath(Lower(h), KeptPath(tail)))
  {
    BodyStarts(body, bars, scheme, h, tail);
    if isException { ExceptionMatcherReadsBody(body, engine); }
    MatcherOfSafeBody(body, engine);
    TestRead(body, bars, scheme, h, tail);
  }

  lemma TestRead(body: string, bars: string, scheme: string, h: string, tail: string)
    requires IsLead(bars, scheme) && IsGlobHost(h) && IsTailOf(scheme, tail) && body == bars + (scheme + (h + tail))
    requires PatternTest(body, WithoutAnchors(body)).Some?
    ensures PatternTest(body, WithoutAnchors(body)) == Some(HostPath(Lower(h), KeptPath(tail)))
  {
    PatternTestRead(body, bars, scheme, h, tail);
    HostPathTestRead(h, tail, h + tail);
  }

  // ---------- where the token lies ----------

  /** The run has its first slash at `k`, behind a host character, or behind the colon of a scheme. */
  predicate IsAcross(run: string, k: nat) {
    0 < k < |run| && run[k] == '/' && (forall j :: 0 <= j < k ==> run[j] != '/') &&
    (IsHostChar(run[k - 1]) || (run[k - 1] == ':' && k > 2))
  }

  lemma InHost(body: string, lead: nat, h: string, tail: string, i: nat, run: string)
    requires lead <= i && i + |run| <= lead + |h| <= |body| && body[lead..] == h + tail && IsRun(body, i, run)
    ensures Contains(Lower(h), Lower(run))
  {
    assert body[lead..][i - lead..i - lead + |run|] == body[i..i + |run|];
    assert h[i - lead..i - lead + |run|] == (h + tail)[i - lead..i - lead + |run|];
    assert At(h, i - lead, run);
    ContainsLower(h, run);
  }

  lemma InPath(body: string, lead: nat, h: string, tail: string, i: nat, run: string)
    requires lead <= |body| && body[lead..] == h + tail && lead + |h| <= i && IsRun(body, i, run)
    ensures Contains(Lower(tail), Lower(run))
  {
    var at := lead + |h|;
    assert body[at..] == body[lead..][|h|..] == tail;
    assert body[at..][i - at..i - at + |run|] == body[i..i + |run|];
    assert At(tail, i - at, run);
    ContainsLower(tail, run);
  }

  lemma AcrossSlash(body: string, lead: nat, h: string, tail: string, i: nat, run: string)
    requires IsGlobHost(h) && IsTail(tail) && lead <= |body| && body[lead..] == h + tail && IsRun(body, i, run)
    requires lead <= i < lead + |h| < i + |run|
    ensures IsAcross(run, lead + |h| - i)
  {
    var k := lead + |h| - i;
    forall j | 0 <= j <= k ensures run[j] == (h + tail)[i - lead + j] {
      AtIndex(body, i, run, j);
      assert body[i + j] == body[lead..][i - lead + j];
    }
    assert run[k] == tail[0] && !IsSpecial(run[k]);
    forall j | 0 <= j < k ensures IsHostChar(run[j]) {
      assert run[j] == h[i - lead + j] && !IsSpecial(run[j]);
    }
  }

  lemma AcrossScheme(body: string, bars: nat, scheme: string, rest: string, i: nat, run: string)
    requires IsScheme(scheme) && bars <= |body| && body[bars..] == scheme + rest && i == bars
    requires IsStretch(body, i, run) && run != ""
    ensures IsAcross(run, |scheme| - 2)
  {
    SchemeEnds(scheme);
    var k := |scheme| - 2;
    forall j | 0 <= j < |scheme| ensures body[i + j] == scheme[j] && !IsSpecial(scheme[j]) {
      assert body[i + j] == body[bars..][j];
    }
    assert |run| >= |scheme|;
    forall j | 0 <= j < |scheme| ensures run[j] == scheme[j] { AtIndex(body, i, run, j); }
  }

  lemma StretchStart(body: string, bars: string, scheme: string, rest: string, i: int, run: string)
    requires IsLead(bars, scheme) && body == bars + (scheme + rest) && IsStretch(body, i, run) && run != ""
    ensures i == |bars| || i >= |bars| + |scheme|
  {
    AtIndex(body, i, run, 0);
    if bars == "||" { assert body[0] == '|' && body[1] == '|'; }
    assert i >= |bars|;
    if scheme != "" { SchemeEnds(scheme); }
    forall k | |bars| <= k < |bars| + |scheme| ensures !IsSpecial(body[k]) { assert body[k] == scheme[k - |bars|]; }
  }

  /** The token lies in the host, in the path, or across the slash or the scheme before them. */
  lemma WhereTokenLies(body: string, bars: string, scheme: string, h: string, tail: string, i: int, run: string)
      returns (k: nat)
    requires IsHostPathBody(body, bars, scheme, h, tail) && IsStretch(body, i, run) && run != ""
    ensures OnOneSide(h, tail, run) || IsAcross(run, k)
  {
    var rest := h + tail;
    var lead := |bars| + |scheme|;
    assert body[|bars|..] == scheme + rest && body[lead..] == rest;
    StretchStart(body, bars, scheme, rest, i, run);
    if i < lead {
      k := |scheme| - 2;
      AcrossScheme(body, |bars|, scheme, rest, i, run);
    } else {
      k := WhereInRest(body, lead, h, tail, i, run);
    }
  }

  lemma WhereInRest(body: string, lead: nat, h: string, tail: string, i: nat, run: string) returns (k: nat)
    requires IsGlobHost(h) && IsTail(tail) && lead <= |body| && body[lead..] == h + tail
    requires lead <= i && IsRun(body, i, run)
    ensures OnOneSide(h, tail, run) || IsAcross(run, k)
  {
    k := 0;
    assert |body| > lead + |h|;
    if i + |run| <= lead + |h| {
      InHost(body, lead, h, tail, i, run);
    } else if i >= lead + |h| {
      InPath(body, lead, h, tail, i, run);
    } else {
      k := lead + |h| - i;
      AcrossSlash(body, lead, h, tail, i, run);
    }
  }

  // ---------- a URL with a port that the test accepts ----------

  /** Every `*` of a host as one label character. */
  function Filled(h: string): (s: string)
    ensures |s| == |h| && forall k :: 0 <= k < |h| ==> s[k] == if h[k] == '*' then 'a' else h[k]
  {
    seq(|h|, k requires 0 <= k < |h| => if h[k] == '*' then 'a' else h[k])
  }

  /** A digit other than the given character. */
  function OtherDigit(c: char): (d: char)
    ensures IsDigit(d) && d != c
  {
    if c == '1' then '2' else '1'
  }

  /** The host with a port, and the path, closed by a character no token holds. */
  function PortedUrl(host: string, d: char, path: string): string {
    "x://" + (host + [':', d] + path + "|")
  }

  lemma NoAt(s: string)
    requires '@' !in s
    ensures AfterLast(s, '@') == s
  {
    assert LastIndexOf(s, '@') == -1;
  }

  lemma PortStripped(h: string, d: char)
    requires IsDigit(d)
    ensures WithoutPort(h + [':', d]) == h
  {
    var s := h + [':', d];
    var t := h + [':'];
    assert s[..|s| - 1] == t && t[..|t| - 1] == h;
    assert StripTrailing(t, RegexScanner.DIGITS) == t;
    assert StripTrailing(s, RegexScanner.DIGITS) == t;
  }

  lemma AuthorityRead(host: string, d: char, path: string)
    requires IsPlainHost(host) && IsDigit(d) && path != "" && path[0] == '/'
    ensures UpTo(host + [':', d] + path + "|", {'/', '?', '#'}) == host + [':', d]
  {
    var s := host + [':', d] + path + "|";
    forall k | 0 <= k < |host| ensures s[k] == host[k] && s[k] !in {'/', '?', '#'} { assert IsHostChar(host[k]); }
    assert s[|host|] == ':' && s[|host| + 1] == d && s[|host| + 2] == '/';
    IndexOfAnyIs(s, {'/', '?', '#'}, 0, |host| + 2);
    assert s[..|host| + 2] == host + [':', d];
  }

  lemma HostAndPortRead(host: string, d: char)
    requires IsPlainHost(host) && IsDigit(d)
    ensures WithoutPort(AfterLast(host + [':', d], '@')) == host
  {
    var authority := host + [':', d];
    forall k | 0 <= k < |authority| ensures authority[k] != '@' {
      if k < |host| { assert authority[k] == host[k] && IsHostChar(host[k]); }
    }
    NoAt(authority);
    PortStripped(host, d);
  }

  lemma RemainderRead(rest: string, authority: string, host: string, after: string)
    requires UpTo(rest, {'/', '?', '#'}) == authority && WithoutPort(AfterLast(authority, '@')) == host
    requires rest == authority + after
    ensures HostAndRemainder(rest) == (Lower(host), after)
  {
  }

  lemma AuthorityIsHostAndPort(host: string, d: char, path: string)
    requires IsPlainHost(host) && IsDigit(d) && path != "" && path[0] == '/'
    ensures HostAndRemainder(host + [':', d] + path + "|") == (Lower(host), path + "|")
  {
    var authority := host + [':', d];
    AuthorityRead(host, d, path);
    HostAndPortRead(host, d);
    assert authority + path + "|" == authority + (path + "|");
    RemainderRead(authority + path + "|", authority, host, path + "|");
  }

  lemma SchemeEndOf(u: string)
    requires |u| > 4 && u[0] == 'x' && u[1] == ':' && u[2] == '/' && u[3] == '/'
    ensures SchemeEnd(u) == 4
  {
    assert SchemeRun(u, 1) == 1;
    assert u[1..4] == "://";
  }

  lemma AfterSchemeOf(u: string, rest: string)
    requires |u| > 4 && u[0] == 'x' && u[1] == ':' && u[2] == '/' && u[3] == '/' && rest == u[4..]
    requires !IsSpace(u[|u| - 1])
    ensures AfterScheme(u) == Some(rest)
  {
    TrimIsTrimmed(u);
    SchemeEndOf(u);
  }

  lemma PortedUrlSplits(host: string, d: char, path: string)
    requires IsPlainHost(host) && IsDigit(d) && path != "" && path[0] == '/'
    ensures SplitRequestUrl(PortedUrl(host, d, path)) == Some((Lower(host), path + "|"))
  {
    var rest := host + [':', d] + path + "|";
    var u := PortedUrl(host, d, path);
    assert u[0] == 'x' && u[1] == ':' && u[2] == '/' && u[3] == '/' && u[4..] == rest && u[|u| - 1] == '|';
    AfterSchemeOf(u, rest);
    AuthorityIsHostAndPort(host, d, path);
  }

  lemma {:induction false} HostGlobAcceptsFilled(g: string, s: string, i: nat)
    requires i <= |s| && |g| == |s| - i
    requires forall k :: 0 <= k < |g| ==>
               (g[k] == '*' && s[i + k] != '.') || (g[k] != '*' && LowerChar(s[i + k]) == LowerChar(g[k]))
    ensures HostGlobFrom(g, s, i)
    decreases |s| - i
  {
    if i < |s| {
      var rest := g[1..];
      forall k | 0 <= k < |rest|
        ensures (rest[k] == '*' && s[i + 1 + k] != '.') ||
                (rest[k] != '*' && LowerChar(s[i + 1 + k]) == LowerChar(rest[k]))
      {
        assert rest[k] == g[k + 1] && s[i + (k + 1)] == s[i + 1 + k];
      }
      HostGlobAcceptsFilled(rest, s, i + 1);
      if g[0] == '*' { StarTakesOne(g, s, i); }
    }
  }

  lemma StarTakesOne(g: string, s: string, i: nat)
    requires g != "" && g[0] == '*' && i < |s| && s[i] != '.' && HostGlobFrom(g[1..], s, i + 1)
    ensures HostGlobFrom(g, s, i)
  {
    assert HostGlobFrom(g, s, i + 1);
  }

  lemma FilledMatches(h: string)
    requires IsGlobHost(h)
    ensures IsPlainHost(Filled(h)) && HostMatches(Lower(h), Lower(Filled(h)))
  {
    var g, s := Lower(h), Lower(Filled(h));
    forall k | 0 <= k < |h| ensures IsHostChar(Filled(h)[k]) { assert IsHostChar(h[k]) || h[k] == '*'; }
    forall k | 0 <= k < |g|
      ensures (g[k] == '*' && s[0 + k] != '.') || (g[k] != '*' && LowerChar(s[0 + k]) == LowerChar(g[k]))
    {
      assert IsHostChar(h[k]) || h[k] == '*';
    }
    HostGlobAcceptsFilled(g, s, 0);
  }

  /** A path pattern reads as a text it accepts. */
  lemma {:induction false} GlobAcceptsItself(g: string, t: string, i: nat)
    requires i + |g| <= |t| && g == t[i..i + |g|]
    ensures GlobFrom(g, t, i)
    decreases |g|
  {
    if g != "" {
      assert g[0] == t[i] && g[1..] == t[i + 1..i + 1 + |g[1..]|];
      GlobAcceptsItself(g[1..], t, i + 1);
      if g[0] == '*' { PathStarTakesOne(g, t, i); }
    }
  }

  lemma PathStarTakesOne(g: string, t: string, i: nat)
    requires g != "" && g[0] == '*' && i < |t| && !IsLineEnd(t[i]) && GlobFrom(g[1..], t, i + 1)
    ensures GlobFrom(g, t, i)
  {
    assert GlobFrom(g, t, i + 1);
  }

  /** A path a kept path matches: its first separator is a slash, the rest stands for itself. */
  function PathText(path: string): string
    requires path != ""
  {
    "/" + path[1..]
  }

  lemma PortedUrlPasses(h: string, d: char, path: string, engine: Engine)
    requires IsGlobHost(h) && IsDigit(d) && IsTail(path)
    ensures Passes(HostPath(Lower(h), path), PortedUrl(Filled(h), d, PathText(path)), engine)
  {
    var text := PathText(path);
    FilledMatches(h);
    PortedUrlSplits(Filled(h), d, text);
    BarredPathAccepted(path, text + "|");
    SplitPasses(PortedUrl(Filled(h), d, text), Lower(h), Lower(Filled(h)), path, text + "|", engine);
  }

  lemma BarredPathAccepted(path: string, t: string)
    requires IsTail(path) && t == PathText(path) + "|"
    ensures GlobAnywhere(path, t)
  {
    assert path[1..] == t[1..1 + |path[1..]|];
    GlobAcceptsItself(path[1..], t, 1);
    FirstTakesSlash(path, t);
  }

  lemma FirstTakesSlash(path: string, t: string)
    requires IsTail(path) && t != "" && t[0] == '/' && GlobFrom(path[1..], t, 1)
    ensures GlobAnywhere(path, t)
  {
    assert GlobFrom(path, t, 0);
  }

  lemma SplitPasses(url: string, g: string, host: string, path: string, after: string, engine: Engine)
    requires SplitRequestUrl(url) == Some((host, after)) && HostMatches(g, host) && GlobAnywhere(path, after)
    ensures Passes(HostPath(g, path), url, engine)
  {
  }

  // ---------- and that lacks the token ----------

  /** Where the URL has slashes, and what stands before them. */
  lemma SlashesOfUrl(host: string, d: char, path: string, j: nat)
    requires IsPlainHost(host) && IsDigit(d) && path != "" && path[0] == '/'
    requires j < |PortedUrl(host, d, path)| && LowerChar(PortedUrl(host, d, path)[j]) == '/'
    ensures var u := PortedUrl(host, d, path);
      (j == 2 && u[1] == ':') || (j == 3 && u[2] == '/') || (j == |host| + 6 && u[j - 1] == d) || j > |host| + 6
  {
    var u := PortedUrl(host, d, path);
    assert u[0] == 'x' && u[1] == ':' && u[2] == '/' && u[3] == '/';
    forall k | 4 <= k < 4 + |host| ensures LowerChar(u[k]) != '/' {
      assert u[k] == host[k - 4] && IsHostChar(host[k - 4]);
    }
    assert u[4 + |host|] == ':' && u[5 + |host|] == d && u[6 + |host|] == '/';
  }

  lemma LowerSlash(c: char)
    ensures LowerChar(c) == '/' <==> c == '/'
  {
  }

  /** An occurrence of the run in the URL starts behind the slash of the path. */
  lemma OccursInPath(host: string, d: char, path: string, run: string, k: nat, i: nat)
    requires IsPlainHost(host) && IsDigit(d) && path != ""
    requires path[0] == '/' && IsAcross(run, k) && d != LowerChar(run[k - 1])
    requires At(Lower(PortedUrl(host, d, path)), i, Lower(run))
    ensures i > |host| + 6
  {
    var u := PortedUrl(host, d, path);
    AtIndex(Lower(u), i, Lower(run), k);
    AtIndex(Lower(u), i, Lower(run), k - 1);
    assert LowerChar(u[i + k]) == '/' && LowerChar(u[i + k - 1]) == LowerChar(run[k - 1]);
    LowerSlash(run[k - 1]);
    SlashesOfUrl(host, d, path, i + k);
    if i <= |host| + 6 < i + k {
      AtIndex(Lower(u), i, Lower(run), |host| + 6 - i);
      assert u[|host| + 6] == '/';
      LowerSlash(run[|host| + 6 - i]);
    }
  }

  lemma UrlLacksRun(host: string, d: char, path: string, run: string, k: nat)
    requires IsPlainHost(host) && IsDigit(d) && path != ""
    requires path[0] == '/' && IsAcross(run, k) && d != LowerChar(run[k - 1])
    requires Plain(run) && !Contains(Lower(path), Lower(run))
    ensures !Contains(Lower(PortedUrl(host, d, path)), Lower(run))
  {
    var u := PortedUrl(host, d, path);
    assert u == ("x://" + host + [':', d]) + (path + "|");
    assert u[|host| + 6..] == path + "|";
    forall i | 0 <= i <= |Lower(u)| ensures !At(Lower(u), i, Lower(run)) {
      if At(Lower(u), i, Lower(run)) {
        OccursInPath(host, d, path, run, k, i);
        TailHoldsRun(u, |host| + 6, path, i, run);
      }
    }
  }

  /** What occurs in a text closed by a bar occurs before the bar. */
  lemma TailHoldsRun(u: string, from: nat, path: string, i: nat, run: string)
    requires from <= |u| && u[from..] == path + "|" && from <= i
    requires At(Lower(u), i, Lower(run)) && Plain(run) && run != ""
    ensures Contains(Lower(path), Lower(run))
  {
    AtIndex(Lower(u), i, Lower(run), |run| - 1);
    assert !IsSpecial(run[|run| - 1]) && u[|u| - 1] == u[from..][|path|] == '|';
    assert i + |run| < |u|;
    forall j | from <= j < |u| - 1 ensures Lower(u)[j] == Lower(path)[j - from] {
      assert u[j] == u[from..][j - from] == path[j - from];
    }
    assert Lower(path)[i - from..i - from + |run|] == Lower(u)[i..i + |run|];
    assert At(Lower(path), i - from, Lower(run));
  }

  lemma AcrossIsLost(h: string, tail: string, run: string, k: nat, engine: Engine) returns (url: string)
    requires IsGlobHost(h) && IsTail(tail) && IsAcross(run, k) && Plain(run) && !OnOneSide(h, tail, run)
    ensures Passes(HostPath(Lower(h), KeptPath(tail)), url, engine) && !Contains(Lower(url), Lower(run))
    ensures |url| == |h| + |KeptPath(tail)| + 7
  {
    var d, path := OtherDigit(LowerChar(run[k - 1])), KeptPath(tail);
    KeptPathStarts(tail);
    url := PortedUrl(Filled(h), d, PathText(path));
    PortedUrlPasses(h, d, path, engine);
    FilledMatches(h);
    TextLacksRun(path, tail, run);
    UrlLacksRun(Filled(h), d, PathText(path), run, k);
  }

  /** A run that does not start with a slash is met in the path's text only where it is met in the tail. */
  lemma TextLacksRun(path: string, tail: string, run: string)
    requires IsTail(path) && path <= tail && run != "" && run[0] != '/' && !Contains(Lower(tail), Lower(run))
    ensures !Contains(Lower(PathText(path)), Lower(run))
  {
    var t := Lower(PathText(path));
    forall i | 0 <= i <= |t| ensures !At(t, i, Lower(run)) {
      if At(t, i, Lower(run)) {
        AtIndex(t, i, Lower(run), 0);
        LowerSlash(run[0]);
        assert t[0] == '/' && i >= 1;
        SameBehindFirst(path, tail, i, run);
      }
    }
  }

  lemma SameBehindFirst(path: string, tail: string, i: nat, run: string)
    requires path != "" && path <= tail && i >= 1 && At(Lower(PathText(path)), i, Lower(run))
    ensures Contains(Lower(tail), Lower(run))
  {
    var t := PathText(path);
    forall j | 1 <= j < |t| ensures Lower(t)[j] == Lower(tail)[j] { assert t[j] == path[j] == tail[j]; }
    assert Lower(tail)[i..i + |run|] == Lower(t)[i..i + |run|];
    assert At(Lower(tail), i, Lower(run));
  }

  /** Every match within the length holds the text, folded. */
  ghost predicate RequiresWithin(test: UrlTest, text: string, engine: Engine, length: nat) {
    forall url :: |url| <= length && Passes(test, url, engine) ==> Contains(Lower(url), Lower(text))
  }

  /** A body with a host and a path, led by `||`, by a scheme or by both, or with a `^` behind the host of a scheme:
      the shortlist loses none of its matches exactly when its token lies in the host or behind it, letter case
      aside. */
  lemma ShortlistKeepsHostPath(body: string, bars: string, scheme: string, h: string, tail: string, isException: bool,
                               engine: Engine, test: UrlTest, token: string)
    requires IsHostPathBody(body, bars, scheme, h, tail)
    requires ScanTest(body, isException, engine) == Some(test) && LiteralToken(body) == Some(token)
    ensures Requires(test, token, engine) <==> Contains(Lower(h), token) || Contains(Lower(tail), token)
  {
    var i, run := TokenStretch(body);
    ScanTestRead(body, bars, scheme, h, tail, isException, engine);
    LowerIsIdempotent(run);
    if OnOneSide(h, tail, run) {
      KeptHoldsRun(h, tail, run);
      HostPathRequires(h, KeptPath(tail), run, engine);
      RequiresFolded(test, run, engine);
    } else {
      var k := WhereTokenLies(body, bars, scheme, h, tail, i, run);
      var url := AcrossIsLost(h, tail, run, k, engine);
      assert Passes(test, url, engine) && !Contains(Lower(url), Lower(token));
    }
  }

  /** The same of the URLs up to a length, once it leaves room for the host, the path and a port. */
  lemma HostPathWithin(body: string, bars: string, scheme: string, h: string, tail: string, isException: bool,
                       engine: Engine, test: UrlTest, token: string, length: nat)
    requires IsHostPathBody(body, bars, scheme, h, tail) && |h| + |KeptPath(tail)| + 7 <= length
    requires ScanTest(body, isException, engine) == Some(test) && LiteralToken(body) == Some(token)
    ensures RequiresWithin(test, token, engine, length) <==>
            Contains(Lower(h), token) || Contains(Lower(tail), token)
  {
    ShortlistKeepsHostPath(body, bars, scheme, h, tail, isException, engine, test, token);
    var i, run := TokenStretch(body);
    ScanTestRead(body, bars, scheme, h, tail, isException, engine);
    LowerIsIdempotent(run);
    if !OnOneSide(h, tail, run) {
      var k := WhereTokenLies(body, bars, scheme, h, tail, i, run);
      var url := AcrossIsLost(h, tail, run, k, engine);
      assert |url| <= length && Passes(test, url, engine) && !Contains(Lower(url), Lower(token));
    }
  }

  lemma KeptHoldsRun(h: string, tail: string, run: string)
    requires OnOneSide(h, tail, run) && Plain(run) && run != ""
    ensures OnOneSide(h, KeptPath(tail), run)
  {
    if !Contains(Lower(h), Lower(run)) { StrippedHoldsRun(tail, KeptPath(tail), run); }
  }

  // ---------- wildcard hosts ----------

  /** The host of a wildcard body, before folding. */
  function Core(body: string): string {
    StripTrailing(StripTrailing(AfterBars(body), {'^'}), {'.'})
  }

  /** A host with every `*` as a label part of one letter, `n` times. */
  function FilledWith(h: string, f: char, n: nat): string {
    if h == "" then "" else Filling(h[0], f, n) + FilledWith(h[1..], f, n)
  }

  function Filling(c: char, f: char, n: nat): string {
    if c == '*' then Repeated(f, n) else [c]
  }

  function Repeated(f: char, n: nat): (s: string)
    ensures |s| == n && forall k :: 0 <= k < n ==> s[k] == f
  {
    seq(n, k => f)
  }

  /** A text cannot end in a filling, nor reach over one: it is too short to, or lacks the letter. */
  ghost predicate CannotSpan(f: char, n: nat, t: string) {
    LowerChar(f) == f && n > 0 &&
    ((|t| <= n && (t != "" ==> LowerChar(t[|t| - 1]) != f)) || LacksFolded(t, f))
  }

  predicate LacksFolded(t: string, f: char) {
    forall k :: 0 <= k < |t| ==> LowerChar(t[k]) != f
  }

  /** A text that cannot span a filling and starts the filled pattern starts the pattern itself. */
  lemma {:induction false} FilledPrefix(h: string, f: char, n: nat, t: string)
    requires CannotSpan(f, n, t) && StartsWith(Lower(FilledWith(h, f, n)), Lower(t))
    ensures StartsWith(Lower(h), Lower(t))
    decreases |t|
  {
    if t != "" {
      FilledStarts(h, f, n, t);
      LiteralStep(h, f, n, t);
      var rest := t[1..];
      assert rest != "" ==> rest[|rest| - 1] == t[|t| - 1];
      assert LacksFolded(t, f) ==> LacksFolded(rest, f);
      FilledPrefix(h[1..], f, n, rest);
      HeadsAgree(h, t);
    }
  }

  lemma FilledStarts(h: string, f: char, n: nat, t: string)
    requires CannotSpan(f, n, t) && t != "" && StartsWith(Lower(FilledWith(h, f, n)), Lower(t))
    ensures h != "" && h[0] != '*'
  {
    assert h == "" ==> FilledWith(h, f, n) == "";
    if h[0] == '*' {
      if LacksFolded(t, f) { StarStarts(h, f, n, t); } else { StarFills(h, f, n, t); }
    }
  }

  lemma StarStarts(h: string, f: char, n: nat, t: string)
    requires h != "" && h[0] == '*' && n > 0 && t != "" && StartsWith(Lower(FilledWith(h, f, n)), Lower(t))
    ensures LowerChar(t[0]) == LowerChar(f)
  {
    var s := FilledWith(h, f, n);
    assert Lower(t)[0] == Lower(s)[..|t|][0] == LowerChar(s[0]);
    assert s[0] == Repeated(f, n)[0];
  }

  lemma StarFills(h: string, f: char, n: nat, t: string)
    requires h != "" && h[0] == '*' && 0 < |t| <= n && StartsWith(Lower(FilledWith(h, f, n)), Lower(t))
    ensures LowerChar(t[|t| - 1]) == LowerChar(f)
  {
    var s := FilledWith(h, f, n);
    assert Lower(t)[|t| - 1] == Lower(s)[..|t|][|t| - 1] == LowerChar(s[|t| - 1]);
    assert s[|t| - 1] == Repeated(f, n)[|t| - 1];
  }

  lemma LiteralStep(h: string, f: char, n: nat, t: string)
    requires h != "" && h[0] != '*' && t != "" && StartsWith(Lower(FilledWith(h, f, n)), Lower(t))
    ensures LowerChar(h[0]) == LowerChar(t[0]) && StartsWith(Lower(FilledWith(h[1..], f, n)), Lower(t[1..]))
  {
    var s, rest := FilledWith(h, f, n), FilledWith(h[1..], f, n);
    assert s == [h[0]] + rest;
    assert Lower(t) == Lower(s)[..|t|] && Lower(t)[0] == Lower(s)[0];
    assert Lower(t[1..]) == Lower(t)[1..] == Lower(s)[1..|t|] == Lower(rest)[..|t| - 1];
  }

  lemma HeadsAgree(h: string, t: string)
    requires h != "" && t != "" && LowerChar(h[0]) == LowerChar(t[0]) && StartsWith(Lower(h[1..]), Lower(t[1..]))
    ensures StartsWith(Lower(h), Lower(t))
  {
    var a, b := Lower(h), Lower(t);
    assert a[1..] == Lower(h[1..]) && b[1..] == Lower(t[1..]);
    assert a == [a[0]] + a[1..] && b == [b[0]] + b[1..];
  }

  lemma {:induction false} FilledLacks(h: string, f: char, n: nat, t: string, j: nat)
    requires CannotSpan(f, n, t) && t != "" && LowerChar(t[0]) != f && At(Lower(FilledWith(h, f, n)), j, Lower(t))
    ensures Contains(Lower(h), Lower(t))
    decreases |h|
  {
    NotEmpty(h, f, n, t, j);
    var size := |Filling(h[0], f, n)|;
    if j >= size {
      LaterFilled(h, f, n, t, j);
      FilledLacks(h[1..], f, n, t, j - size);
      RestHolds(h, t);
    } else {
      StartsAtOnce(h[0], f, n, FilledWith(h[1..], f, n), t, j);
      StartHolds(h, f, n, t);
    }
  }

  lemma LaterFilled(h: string, f: char, n: nat, t: string, j: nat)
    requires h != "" && j >= |Filling(h[0], f, n)| && At(Lower(FilledWith(h, f, n)), j, Lower(t))
    ensures At(Lower(FilledWith(h[1..], f, n)), j - |Filling(h[0], f, n)|, Lower(t))
  {
    LaterPart(Filling(h[0], f, n), FilledWith(h[1..], f, n), j, t);
  }

  lemma NotEmpty(h: string, f: char, n: nat, t: string, j: nat)
    requires t != "" && At(Lower(FilledWith(h, f, n)), j, Lower(t))
    ensures h != ""
  {
    assert h == "" ==> FilledWith(h, f, n) == "";
  }

  /** An occurrence that starts in the first part starts at once. */
  lemma StartsAtOnce(c: char, f: char, n: nat, rest: string, t: string, j: nat)
    requires LowerChar(f) == f && t != "" && LowerChar(t[0]) != f
    requires j < |Filling(c, f, n)| && At(Lower(Filling(c, f, n) + rest), j, Lower(t))
    ensures j == 0
  {
    var s := Filling(c, f, n) + rest;
    AtIndex(Lower(s), j, Lower(t), 0);
    assert LowerChar(s[j]) == LowerChar(t[0]);
  }

  lemma RestHolds(h: string, t: string)
    requires h != "" && Contains(Lower(h[1..]), Lower(t))
    ensures Contains(Lower(h), Lower(t))
  {
    assert Lower(h)[1..] == Lower(h[1..]);
    ContainsSuffix(Lower(h), Lower(h[1..]));
    ContainsTrans(Lower(h), Lower(h[1..]), Lower(t));
  }

  lemma StartHolds(h: string, f: char, n: nat, t: string)
    requires CannotSpan(f, n, t) && t != "" && At(Lower(FilledWith(h, f, n)), 0, Lower(t))
    ensures Contains(Lower(h), Lower(t))
  {
    var l := Lower(FilledWith(h, f, n));
    assert l[0..|t|] == l[..|t|];
    FilledPrefix(h, f, n, t);
    assert At(Lower(h), 0, Lower(t));
  }

  lemma LaterPart(head: string, rest: string, j: nat, t: string)
    requires j >= |head| && At(Lower(head + rest), j, Lower(t))
    ensures At(Lower(rest), j - |head|, Lower(t))
  {
    LowerOfConcat(head, rest);
    var all := Lower(head) + Lower(rest);
    assert all[|head|..] == Lower(rest);
    SliceOfSlice(all, |head|, |all|, j - |head|, |t|);
  }

  lemma BareAuthorityRead(s: string)
    requires IsPlainHost(s)
    ensures UpTo(s, {'/', '?', '#'}) == s && AfterLast(s, '@') == s
  {
    NoMark(s, 0);
    NoAt(s);
  }

  lemma {:induction false} NoMark(s: string, from: nat)
    requires IsPlainHost(s) && from <= |s|
    ensures IndexOfAny(s, {'/', '?', '#'}, from) == -1 && '@' !in s
    decreases |s| - from
  {
    assert forall k :: 0 <= k < |s| ==> IsHostChar(s[k]);
    if from < |s| { NoMark(s, from + 1); }
  }

  lemma PortRead(s: string)
    requires IsPlainHost(s)
    ensures WithoutPort(s) == s
  {
    var t := StripTrailing(s, RegexScanner.DIGITS);
    assert t != "" ==> t[|t| - 1] == s[|t| - 1] && IsHostChar(s[|t| - 1]);
  }

  lemma EdgesRead(s: string)
    requires IsPlainHost(s) && s[|s| - 1] != '.'
    ensures WithoutBrackets(s) == s && StripTrailing(s, {'.'}) == s
  {
    assert IsHostChar(s[0]) && IsHostChar(s[|s| - 1]);
    assert s[0..|s|] == s;
  }

  lemma LowerOfHostText(s: string)
    requires IsPlainHost(s)
    ensures IsHostText(Lower(s))
  {
    assert forall k :: 0 <= k < |s| ==> IsHostChar(s[k]);
  }

  lemma RequestHostOf(u: string, s: string)
    requires |u| > 4 && u[0] == 'x' && u[1] == ':' && u[2] == '/' && u[3] == '/' && s == u[4..]
    requires IsPlainHost(s) && s[|s| - 1] != '.'
    ensures RequestHost(u) == Some(Lower(s))
  {
    assert IsHostChar(s[0]) && IsHostChar(s[|s| - 1]);
    TrimIsTrimmed(u);
    SchemeEndOf(u);
    assert !StartsWith(s, "//");
    assert WithoutScheme(u) == s;
    BareAuthorityRead(s);
    PortRead(s);
    EdgesRead(s);
    LowerOfHostText(s);
  }

  lemma {:induction false} FilledHostMatches(h: string, f: char, n: nat, g: string, s: string, i: nat)
    requires g == Lower(h) && IsLetter(f) && f != '.' && i <= |s| && s[i..] == Lower(FilledWith(h, f, n))
    ensures HostGlobFrom(g, s, i)
    decreases |h|
  {
    if h != "" {
      var head, rest := Filling(h[0], f, n), FilledWith(h[1..], f, n);
      assert g[1..] == Lower(h[1..]);
      HeadRead(head, rest, s, i);
      FilledHostMatches(h[1..], f, n, g[1..], s, i + |head|);
      if h[0] == '*' { StarTakesMany(g, s, i, i + n); }
    }
  }

  lemma HeadRead(head: string, rest: string, s: string, i: nat)
    requires i <= |s| && s[i..] == Lower(head + rest)
    ensures i + |head| <= |s| && s[i + |head|..] == Lower(rest)
    ensures forall k :: i <= k < i + |head| ==> s[k] == LowerChar(head[k - i])
  {
    LowerOfConcat(head, rest);
    var all := Lower(head) + Lower(rest);
    assert s[i + |head|..] == s[i..][|head|..] == all[|head|..];
    forall k | i <= k < i + |head| ensures s[k] == LowerChar(head[k - i]) {
      assert s[k] == s[i..][k - i] == all[k - i];
    }
  }

  lemma {:induction false} StarTakesMany(g: string, s: string, i: nat, j: nat)
    requires g != "" && g[0] == '*' && i <= j <= |s| && HostGlobFrom(g[1..], s, j)
    requires forall k :: i <= k < j ==> s[k] != '.'
    ensures HostGlobFrom(g, s, i)
    decreases j - i
  {
    if i < j { StarTakesMany(g, s, i + 1, j); }
  }

  lemma {:induction false} FilledIsHost(h: string, f: char, n: nat)
    requires IsGlobHost(h) && IsLetter(f) && n > 0 && h[|h| - 1] != '.'
    ensures IsPlainHost(FilledWith(h, f, n)) && FilledWith(h, f, n)[|FilledWith(h, f, n)| - 1] != '.'
    decreases |h|
  {
    var head, rest := Filling(h[0], f, n), h[1..];
    if rest == "" {
      assert FilledWith(rest, f, n) == "" && head + "" == head;
    } else {
      FilledIsHost(rest, f, n);
    }
  }

  /** A letter other than the given one. */
  function OtherLetter(c: char): (f: char)
    ensures IsLetter(f) && LowerChar(f) == f && f != c && f != '.'
  {
    if c == 'a' then 'b' else 'a'
  }

  lemma SchemeLacks(host: string, run: string, i: nat)
    requires |run| >= 3 && (forall k :: 0 <= k < |run| ==> IsHostChar(run[k]))
    requires At(Lower("x://" + host), i, Lower(run))
    ensures i >= 4 && At(Lower(host), i - 4, Lower(run))
  {
    var u := "x://" + host;
    assert u[0] == 'x' && u[1] == ':' && u[2] == '/' && u[3] == '/';
    AtIndex(Lower(u), i, Lower(run), 0);
    AtIndex(Lower(u), i, Lower(run), 1);
    assert IsHostChar(run[0]) && IsHostChar(run[1]);
    LaterPart("x://", host, i, run);
  }

  /** Some letter does not occur in the text, letter case aside. */
  ghost predicate LacksLetter(t: string) {
    exists f: char :: 'a' <= f <= 'z' && LacksFolded(t, f)
  }

  /** How long a URL has to be for the pattern to be filled so that the token is not met. */
  ghost function FilledLength(core: string, token: string): nat {
    4 + |core| * if LacksLetter(token) then 1 else |token|
  }

  lemma {:induction false} FilledIsAsLong(h: string, f: char, n: nat)
    requires n > 0
    ensures |FilledWith(h, f, n)| <= |h| * n
  {
    if h != "" {
      FilledIsAsLong(h[1..], f, n);
      assert |h| * n == |h[1..]| * n + n;
    }
  }

  lemma FillerFor(run: string) returns (f: char, n: nat)
    requires |run| >= 3 && run[|run| - 1] == '.'
    ensures IsLetter(f) && f != '.' && f != LowerChar(run[0]) && CannotSpan(f, n, run)
    ensures n == if LacksLetter(run) then 1 else |run|
  {
    if LacksLetter(run) {
      f :| 'a' <= f <= 'z' && LacksFolded(run, f);
      n := 1;
    } else {
      f, n := OtherLetter(LowerChar(run[0])), |run|;
    }
  }

  lemma WildcardHostIsLost(core: string, run: string, engine: Engine) returns (url: string)
    requires IsGlobHost(core) && core[|core| - 1] != '.' && |run| >= 3 && run[|run| - 1] == '.'
    requires (forall k :: 0 <= k < |run| ==> IsHostChar(run[k])) && !Contains(Lower(core), Lower(run))
    ensures Passes(HostGlob(Lower(core)), url, engine) && !Contains(Lower(url), Lower(run))
    ensures |url| <= FilledLength(core, run)
  {
    var f, n := FillerFor(run);
    var host := FilledWith(core, f, n);
    url := "x://" + host;
    FilledUrlPasses(core, f, n, host, url, engine);
    FilledUrlLacks(core, f, n, host, run);
    FilledIsAsLong(core, f, n);
  }

  lemma FilledUrlPasses(core: string, f: char, n: nat, host: string, url: string, engine: Engine)
    requires IsGlobHost(core) && core[|core| - 1] != '.' && IsLetter(f) && f != '.' && n > 0
    requires host == FilledWith(core, f, n) && url == "x://" + host
    ensures Passes(HostGlob(Lower(core)), url, engine)
  {
    FilledIsHost(core, f, n);
    assert url[0] == 'x' && url[1] == ':' && url[2] == '/' && url[3] == '/' && url[4..] == host;
    RequestHostOf(url, host);
    assert Lower(host)[0..] == Lower(host);
    FilledHostMatches(core, f, n, Lower(core), Lower(host), 0);
    HostGlobPasses(Lower(core), url, Lower(host), engine);
  }

  lemma HostGlobPasses(g: string, url: string, host: string, engine: Engine)
    requires RequestHost(url) == Some(host) && HostGlobFrom(g, host, 0)
    ensures Passes(HostGlob(g), url, engine)
  {
    assert HostMatches(g, host);
  }

  lemma FilledUrlLacks(core: string, f: char, n: nat, host: string, run: string)
    requires |run| >= 3 && CannotSpan(f, n, run) && f != LowerChar(run[0]) && host == FilledWith(core, f, n)
    requires (forall k :: 0 <= k < |run| ==> IsHostChar(run[k])) && !Contains(Lower(core), Lower(run))
    ensures !Contains(Lower("x://" + host), Lower(run))
  {
    var l := Lower("x://" + host);
    forall i | 0 <= i <= |l| ensures !At(l, i, Lower(run)) {
      if At(l, i, Lower(run)) {
        SchemeLacks(host, run, i);
        FilledLacks(core, f, n, run, i - 4);
      }
    }
  }

  /** A run of the body lies in the host or ends in a dot the host pattern drops. */
  lemma RunOfWildcard(body: string, core: string, i: int, run: string)
    requires core == Core(body) && IsGlobHost(core) && IsRun(body, i, run) && run != ""
    ensures Contains(core, run) || (run[|run| - 1] == '.' && forall k :: 0 <= k < |run| ==> IsHostChar(run[k]))
  {
    var from := if StartsWith(body, "||") then 2 else 0;
    var dotted := StripTrailing(AfterBars(body), {'^'});
    if from == 2 { assert body[0] == '|' && body[1] == '|'; }
    CoreHoldsRun(body, i, run, from, dotted);
    var j :| 0 <= j <= |dotted| && At(dotted, j, run);
    StrippedAreInSet(dotted, {'.'});
    forall k | 0 <= k < |run| ensures IsHostChar(run[k]) {
      AtIndex(dotted, j, run, k);
      assert !IsSpecial(run[k]);
      if j + k < |core| { assert dotted[j + k] == core[j + k]; } else { assert dotted[j + k] in {'.'}; }
    }
    if j + |run| <= |core| {
      PrefixHasRun(dotted, core, j, run);
    } else {
      AtIndex(dotted, j, run, |run| - 1);
      assert dotted[j + |run| - 1] in {'.'};
    }
  }

  lemma PrefixHasRun(s: string, p: string, j: nat, run: string)
    requires p <= s && j + |run| <= |p| && At(s, j, run)
    ensures Contains(p, run)
  {
    assert p == s[0..|p|];
    SliceOfSlice(s, 0, |p|, j, |run|);
    assert At(p, j, run);
  }

  lemma CoreEnds(body: string)
    requires Core(body) != ""
    ensures Core(body)[|Core(body)| - 1] != '.'
  {
    StrippedEnds(StripTrailing(AfterBars(body), {'^'}), '.');
  }

  lemma {:induction false} StrippedEnds(s: string, c: char)
    ensures var t := StripTrailing(s, {c}); t != "" ==> t[|t| - 1] != c
  {
    if s != "" && s[|s| - 1] == c { StrippedEnds(s[..|s| - 1], c); }
  }

  lemma WildcardTestRead(body: string, core: string, isException: bool, engine: Engine)
    requires IsWildcardHost(body) && core == Core(body) && IsGlobHost(core)
    ensures ScanTest(body, isException, engine) == Some(HostGlob(Lower(core)))
  {
    assert HostOnlyPattern(body) == Some(Lower(core));
  }

  lemma RunOfToken(body: string, token: string) returns (i: int, run: string)
    requires LiteralToken(body) == Some(token)
    ensures IsRun(body, i, run) && |run| >= 3 && token == Lower(run) && Lower(token) == token && '*' !in token
  {
    i, run := TokenStretch(body);
    StarHasNoToken();
    LowerIsIdempotent(run);
    LowerIsPlain(run);
  }

  /** A wildcard host: the shortlist loses none of its matches exactly when its token lies in the host pattern,
      which a dot the pattern drops keeps it from. */
  lemma ShortlistKeepsWildcardHost(body: string, core: string, isException: bool, engine: Engine, token: string)
    requires IsWildcardHost(body) && core == Core(body) && IsGlobHost(core) && LiteralToken(body) == Some(token)
    ensures ScanTest(body, isException, engine) == Some(HostGlob(Lower(core)))
    ensures Requires(HostGlob(Lower(core)), token, engine) <==> Contains(Lower(core), token)
  {
    WildcardTestRead(body, core, isException, engine);
    var i, run := RunOfToken(body, token);
    if Contains(Lower(core), token) {
      KeptByWildcard(Lower(core), run, engine);
    } else {
      var url := LostByWildcard(body, core, i, run, engine);
      assert Passes(HostGlob(Lower(core)), url, engine) && !Contains(Lower(url), Lower(token));
    }
  }

  /** The same of the URLs up to a length, once it leaves room for the filled pattern. */
  lemma WildcardHostWithin(body: string, core: string, engine: Engine, token: string, length: nat)
    requires IsWildcardHost(body) && core == Core(body) && IsGlobHost(core) && LiteralToken(body) == Some(token)
    requires FilledLength(core, token) <= length
    ensures RequiresWithin(HostGlob(Lower(core)), token, engine, length) <==> Contains(Lower(core), token)
  {
    var i, run := RunOfToken(body, token);
    if Contains(Lower(core), token) {
      KeptByWildcard(Lower(core), run, engine);
    } else {
      var url := LostByWildcard(body, core, i, run, engine);
      SameLetters(run);
      assert |url| <= length && Passes(HostGlob(Lower(core)), url, engine) && !Contains(Lower(url), Lower(token));
    }
  }

  lemma KeptByWildcard(g: string, run: string, engine: Engine)
    requires Contains(g, Lower(run)) && '*' !in Lower(run)
    ensures Requires(HostGlob(g), run, engine)
  {
    forall url | Passes(HostGlob(g), url, engine) ensures Contains(Lower(url), Lower(run)) {
      RequestHostMeets(g, url, run);
    }
  }

  lemma LostByWildcard(body: string, core: string, i: int, run: string, engine: Engine) returns (url: string)
    requires core == Core(body) && IsGlobHost(core) && IsRun(body, i, run) && |run| >= 3
    requires !Contains(Lower(core), Lower(run))
    ensures Passes(HostGlob(Lower(core)), url, engine) && !Contains(Lower(url), Lower(run))
    ensures |url| <= FilledLength(core, run)
  {
    CoreEnds(body);
    RunOfWildcard(body, core, i, run);
    if Contains(core, run) { ContainsLower(core, run); }
    url := WildcardHostIsLost(core, run, engine);
  }

  lemma SameLetters(run: string)
    ensures LacksLetter(Lower(run)) <==> LacksLetter(run)
  {
    forall f: char ensures LacksFolded(Lower(run), f) <==> LacksFolded(run, f) {
      forall k | 0 <= k < |run| ensures LowerChar(Lower(run)[k]) == LowerChar(run[k]) { }
    }
  }
}
