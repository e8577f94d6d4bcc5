/** When the literal token of a body is a substring of every URL its test accepts, and when it is not. */
module RequestTokens {
  import opened Text
  import opened RequestRules
  import opened UrlTests
  import opened RequestIndex

  // ---------- a token is a run of the body ----------

  predicate Plain(t: string) {
    forall k :: 0 <= k < |t| ==> !IsSpecial(t[k])
  }

  /** A stretch of the body without special characters. */
  ghost predicate IsRun(body: string, i: int, run: string) {
    At(body, i, run) && Plain(run)
  }

  lemma {:induction false} LongestIsRun(body: string, i: nat, run: string, best: string, at: int)
    requires i <= |body| && |run| <= i && IsRun(body, i - |run|, run)
    requires best == "" || IsRun(body, at, best)
    ensures var r := RunFrom(body, i, run, best); r == "" || exists j :: 0 <= j <= |body| && IsRun(body, j, r)
    decreases |body| - i
  {
    if i < |body| {
      if IsSpecial(body[i]) {
        LongestIsRun(body, i + 1, "", Longer(run, best), if |run| > |best| then i - |run| else at);
      } else {
        assert body[i - |run|..i + 1] == run + [body[i]];
        LongestIsRun(body, i + 1, run + [body[i]], best, at);
      }
    } else if |run| > |best| {
      assert IsRun(body, i - |run|, run);
    } else if best != "" {
      assert IsRun(body, at, best);
    }
  }

  lemma TokenRun(body: string) returns (i: int, run: string)
    requires LiteralToken(body).Some?
    ensures IsRun(body, i, run) && |run| >= MIN_TOKEN_LENGTH && LiteralToken(body).value == Lower(run)
    ensures run == RunFrom(body, 0, "", "")
    ensures !IsSlashedRegex(body)
  {
    run := RunFrom(body, 0, "", "");
    LongestIsRun(body, 0, "", "", 0);
    i :| 0 <= i <= |body| && IsRun(body, i, run);
  }

  /** A run avoids every stretch of special characters, so it lies in what is left of the body. */
  lemma RunInside(body: string, i: int, run: string, from: nat, to: nat)
    requires IsRun(body, i, run) && run != "" && from <= to <= |body|
    requires forall k :: 0 <= k < from ==> IsSpecial(body[k])
    requires forall k :: to <= k < |body| ==> IsSpecial(body[k])
    ensures from <= i && i + |run| <= to && IsRun(body[from..to], i - from, run)
  {
    AtIndex(body, i, run, 0);
    AtIndex(body, i, run, |run| - 1);
    assert !IsSpecial(run[0]) && !IsSpecial(run[|run| - 1]);
    assert from <= i && i + |run| <= to;
    forall k | 0 <= k < |run| ensures body[from..to][i - from..i - from + |run|][k] == run[k] {
      AtIndex(body, i, run, k);
    }
  }

  // ---------- a literal stretch of a glob is met in the text ----------

  lemma {:induction false} HostPrefixMet(g: string, h: string, i: nat, t: string)
    requires HostGlobFrom(g, h, i) && t <= g && '*' !in t && i <= |h|
    ensures i + |t| <= |h| && Lower(h[i..i + |t|]) == Lower(t)
    decreases |t|
  {
    if t != "" {
      assert g[0] == t[0];
      HostPrefixMet(g[1..], h, i + 1, t[1..]);
      assert h[i..i + |t|] == [h[i]] + h[i + 1..i + 1 + |t[1..]|];
      assert t == [t[0]] + t[1..];
      LowerOfConcat([h[i]], h[i + 1..i + 1 + |t[1..]|]);
      LowerOfConcat([t[0]], t[1..]);
    }
  }

  lemma {:induction false} HostGlobMeets(g: string, h: string, i: nat, a: int, t: string)
    requires HostGlobFrom(g, h, i) && At(g, a, t) && '*' !in t && i <= |h|
    ensures Contains(Lower(h), Lower(t))
    decreases |g|, |h| - i
  {
    if a == 0 {
      assert t <= g;
      HostPrefixMet(g, h, i, t);
      assert Lower(h)[i..i + |t|] == Lower(h[i..i + |t|]);
      assert At(Lower(h), i, Lower(t));
    } else {
      assert g[1..][a - 1..a - 1 + |t|] == g[a..a + |t|];
      if g[0] == '*' {
        if HostGlobFrom(g[1..], h, i) {
          HostGlobMeets(g[1..], h, i, a - 1, t);
        } else {
          HostGlobMeets(g, h, i + 1, a, t);
        }
      } else {
        HostGlobMeets(g[1..], h, i + 1, a - 1, t);
      }
    }
  }

  lemma HostMatchMeets(g: string, h: string, t: string)
    requires HostMatches(g, h) && Contains(g, t) && '*' !in t
    ensures Contains(Lower(h), Lower(t))
  {
    var i :| 0 <= i <= |h| && (i == 0 || h[i - 1] == '.') && HostGlobFrom(g, h, i);
    var a :| 0 <= a <= |g| && At(g, a, t);
    HostGlobMeets(g, h, i, a, t);
  }

  lemma {:induction false} GlobPrefixMet(g: string, s: string, i: nat, t: string)
    requires GlobFrom(g, s, i) && t <= g && '*' !in t && '^' !in t && i <= |s|
    ensures i + |t| <= |s| && Lower(s[i..i + |t|]) == Lower(t)
    decreases |t|
  {
    if t != "" {
      assert g[0] == t[0];
      GlobPrefixMet(g[1..], s, i + 1, t[1..]);
      assert s[i..i + |t|] == [s[i]] + s[i + 1..i + 1 + |t[1..]|];
      assert t == [t[0]] + t[1..];
      LowerOfConcat([s[i]], s[i + 1..i + 1 + |t[1..]|]);
      LowerOfConcat([t[0]], t[1..]);
    }
  }

  lemma {:induction false} GlobMeets(g: string, s: string, i: nat, a: int, t: string)
    requires GlobFrom(g, s, i) && At(g, a, t) && '*' !in t && '^' !in t && i <= |s|
    ensures Contains(Lower(s), Lower(t))
    decreases |g|, |s| - i
  {
    if a == 0 {
      assert t <= g;
      GlobPrefixMet(g, s, i, t);
      assert Lower(s)[i..i + |t|] == Lower(s[i..i + |t|]);
      assert At(Lower(s), i, Lower(t));
    } else {
      assert g[1..][a - 1..a - 1 + |t|] == g[a..a + |t|];
      if g[0] == '*' {
        if GlobFrom(g[1..], s, i) {
          GlobMeets(g[1..], s, i, a - 1, t);
        } else {
          GlobMeets(g, s, i + 1, a, t);
        }
      } else if g[0] == '^' {
        if i < |s| && IsSeparator(s[i]) && GlobFrom(g[1..], s, i + 1) {
          GlobMeets(g[1..], s, i + 1, a - 1, t);
        } else {
          GlobMeets(g[1..], s, i, a - 1, t);
        }
      } else {
        GlobMeets(g[1..], s, i + 1, a - 1, t);
      }
    }
  }

  lemma GlobAnywhereMeets(g: string, s: string, t: string)
    requires GlobAnywhere(g, s) && Contains(g, t) && Plain(t)
    ensures Contains(Lower(s), Lower(t))
  {
    var i :| 0 <= i <= |s| && GlobFrom(g, s, i);
    var a :| 0 <= a <= |g| && At(g, a, t);
    forall k | 0 <= k < |t| ensures t[k] != '*' && t[k] != '^' { assert !IsSpecial(t[k]); }
    GlobMeets(g, s, i, a, t);
  }

  // ---------- the parts of a URL are stretches of the URL ----------

  lemma ContainsPrefix(s: string, p: string)
    requires p <= s
    ensures Contains(s, p)
  {
    assert At(s, 0, p);
  }

  lemma ContainsSuffix(s: string, t: string)
    requires |t| <= |s| && t == s[|s| - |t|..]
    ensures Contains(s, t)
  {
    assert At(s, |s| - |t|, t);
  }

  lemma TrimIsStretch(s: string)
    ensures Contains(s, Trim(s))
  {
    ContainsSuffix(s, TrimStart(s));
    ContainsPrefix(TrimStart(s), Trim(s));
    ContainsTrans(s, TrimStart(s), Trim(s));
  }

  lemma SlashesAreStretch(rest: string)
    ensures Contains(rest, WithoutSlashes(rest))
  {
    ContainsSuffix(rest, WithoutSlashes(rest));
  }

  lemma SchemeIsStretch(trimmed: string, scheme: int)
    requires scheme <= |trimmed|
    ensures Contains(trimmed, if scheme < 0 then trimmed else trimmed[scheme..])
  {
    ContainsSuffix(trimmed, if scheme < 0 then trimmed else trimmed[scheme..]);
  }

  lemma WithoutSchemeIsStretch(url: string)
    ensures Contains(url, WithoutScheme(url))
  {
    var trimmed := Trim(url);
    var scheme := SchemeEnd(trimmed);
    var rest := if scheme < 0 then trimmed else trimmed[scheme..];
    TrimIsStretch(url);
    SchemeIsStretch(trimmed, scheme);
    SlashesAreStretch(rest);
    ContainsTrans(url, trimmed, rest);
    ContainsTrans(url, rest, WithoutSlashes(rest));
  }

  lemma HostPartIsStretch(rest: string)
    ensures var authority := UpTo(rest, {'/', '?', '#'});
      Contains(rest, WithoutPort(AfterLast(authority, '@')))
  {
    var authority := UpTo(rest, {'/', '?', '#'});
    var after := AfterLast(authority, '@');
    ContainsPrefix(rest, authority);
    ContainsSuffix(authority, after);
    ContainsTrans(rest, authority, after);
    ContainsPrefix(after, WithoutPort(after));
    ContainsTrans(rest, after, WithoutPort(after));
  }

  lemma RequestHostIsStretch(url: string)
    requires RequestHost(url).Some?
    ensures Contains(Lower(url), RequestHost(url).value) && Lower(RequestHost(url).value) == RequestHost(url).value
  {
    var rest := WithoutScheme(url);
    var part := WithoutPort(AfterLast(UpTo(rest, {'/', '?', '#'}), '@'));
    WithoutSchemeIsStretch(url);
    HostPartIsStretch(rest);
    ContainsTrans(url, rest, part);
    var bare := WithoutBrackets(part);
    ContainsTrans(url, part, bare);
    var host := StripTrailing(bare, {'.'});
    ContainsPrefix(bare, host);
    ContainsTrans(url, bare, host);
    ContainsLower(url, host);
    LowerIsIdempotent(host);
  }

  lemma SplitIsStretch(url: string)
    requires SplitRequestUrl(url).Some?
    ensures var (host, after) := SplitRequestUrl(url).value;
      Contains(Lower(url), host) && Lower(host) == host && Contains(Lower(url), Lower(after))
  {
    var rest := AfterScheme(url).value;
    AfterSchemeIsStretch(url);
    AuthorityIsStretch(url, rest);
    RemainderIsStretch(url, rest, UpTo(rest, {'/', '?', '#'}));
  }

  lemma AfterSchemeIsStretch(url: string)
    requires AfterScheme(url).Some?
    ensures Contains(url, AfterScheme(url).value)
  {
    TrimIsStretch(url);
    ContainsSuffix(Trim(url), AfterScheme(url).value);
    ContainsTrans(url, Trim(url), AfterScheme(url).value);
  }

  lemma AuthorityIsStretch(url: string, rest: string)
    requires Contains(url, rest)
    ensures Contains(Lower(url), HostAndRemainder(rest).0)
    ensures Lower(HostAndRemainder(rest).0) == HostAndRemainder(rest).0
  {
    var part := WithoutPort(AfterLast(UpTo(rest, {'/', '?', '#'}), '@'));
    HostPartIsStretch(rest);
    ContainsTrans(url, rest, part);
    ContainsLower(url, part);
    LowerIsIdempotent(part);
  }

  lemma RemainderIsStretch(url: string, rest: string, authority: string)
    requires Contains(url, rest) && authority <= rest
    ensures Contains(Lower(url), Lower(rest[|authority|..]))
  {
    var after := rest[|authority|..];
    ContainsSuffix(rest, after);
    ContainsTrans(url, rest, after);
    ContainsLower(url, after);
  }

  // ---------- the shapes whose token every match contains ----------

  /** The index of the first `^` or `/` after `||`. */
  function Boundary(body: string): int
    requires StartsWith(body, "||")
  {
    IndexOfAny(body[2..], {'^', '/'}, 0)
  }

  predicate IsWildcardHost(body: string) {
    HostOnlyPattern(body).Some? && '*' in HostOnlyPattern(body).value
  }

  function AfterBars(body: string): string {
    if StartsWith(body, "||") then body[2..] else body
  }

  /** The text is met on one side of the host's end, letter case aside. */
  ghost predicate OnOneSide(host: string, path: string, run: string) {
    Contains(Lower(host), Lower(run)) || Contains(Lower(path), Lower(run))
  }

  /** The longest run does not reach across the slash that ends the host. */
  ghost predicate IsOneSided(body: string, cut: nat)
    requires cut <= |body| && 2 <= cut
  {
    OnOneSide(body[2..cut], body[cut..], RunFrom(body, 0, "", ""))
  }

  /** What can be read off the body alone: a wildcard host without a trailing dot, a single-`|` anchor,
      `||host^tail`, `||host/path` whose longest run is on one side of the slash, or a bare glob without
      scheme; no inner `$`, no edge whitespace. */
  ghost predicate TokenSafe(body: string) {
    IsTrimmed(body) && '$' !in body &&
    (if IsWildcardHost(body) then !EndsWith(StripTrailing(AfterBars(body), {'^'}), ".")
     else if StartsWith(body, "||") then
       Boundary(body) < 0 ||
       (SchemeLength(body[2..]) == 0 && (body[2..][Boundary(body)] == '^' || IsOneSided(body, 2 + Boundary(body))))
     else StartsWith(body, "|") || SchemeLength(body) == 0)
  }

  /** Every URL the test accepts contains the text, folded. */
  ghost predicate Requires(test: UrlTest, text: string, engine: Engine) {
    forall url :: Passes(test, url, engine) ==> Contains(Lower(url), Lower(text))
  }

  lemma WildcardHostRequires(body: string, i: int, run: string, engine: Engine)
    requires IsWildcardHost(body) && TokenSafe(body) && IsRun(body, i, run) && run != ""
    ensures Requires(HostGlob(HostOnlyPattern(body).value), run, engine)
  {
    var g := HostOnlyPattern(body).value;
    WildcardHostHoldsRun(body, i, run);
    forall url | Passes(HostGlob(g), url, engine) ensures Contains(Lower(url), Lower(run)) {
      RequestHostMeets(g, url, run);
    }
  }

  lemma RequestHostMeets(g: string, url: string, run: string)
    requires RequestHost(url).Some? && HostMatches(g, RequestHost(url).value)
    requires Contains(g, Lower(run)) && '*' !in Lower(run)
    ensures Contains(Lower(url), Lower(run))
  {
    var host := RequestHost(url).value;
    HostMatchMeets(g, host, Lower(run));
    LowerIsIdempotent(run);
    RequestHostIsStretch(url);
    ContainsTrans(Lower(url), host, Lower(run));
  }

  lemma WildcardHostHoldsRun(body: string, i: int, run: string)
    requires IsWildcardHost(body) && TokenSafe(body) && IsRun(body, i, run) && run != ""
    ensures Contains(HostOnlyPattern(body).value, Lower(run)) && '*' !in Lower(run)
  {
    var from := if StartsWith(body, "||") then 2 else 0;
    var core := StripTrailing(AfterBars(body), {'^'});
    StripsNothing(core);
    assert HostOnlyPattern(body).value == Lower(core);
    CoreHoldsRun(body, i, run, from, core);
    ContainsLower(core, run);
    LowerIsPlain(run);
  }

  lemma CoreHoldsRun(body: string, i: int, run: string, from: nat, core: string)
    requires IsRun(body, i, run) && run != "" && from <= |body| && core == StripTrailing(body[from..], {'^'})
    requires forall k :: 0 <= k < from ==> IsSpecial(body[k])
    ensures Contains(core, run)
  {
    var to := from + |core|;
    StrippedAreInSet(body[from..], {'^'});
    forall k | to <= k < |body| ensures IsSpecial(body[k]) {
      assert body[from..][k - from] in {'^'};
    }
    RunInside(body, i, run, from, to);
    assert body[from..to] == core;
    assert At(core, i - from, run);
  }

  lemma StripsNothing(core: string)
    requires !EndsWith(core, ".")
    ensures StripTrailing(core, {'.'}) == core
  {
    assert core != "" ==> core[|core| - 1..] == [core[|core| - 1]];
  }

  lemma LowerIsPlain(run: string)
    requires Plain(run)
    ensures Plain(Lower(run)) && '*' !in Lower(run)
  {
    forall k | 0 <= k < |run| ensures !IsSpecial(Lower(run)[k]) { assert !IsSpecial(run[k]); }
  }

  /** The needle of a single-`|` anchor is what its bars leave, and every run of the body lies in it. */
  lemma AnchorHoldsRun(body: string, i: int, run: string) returns (needle: string)
    requires StartsWith(body, "|") && UrlAnchorTest(body).Some? && IsRun(body, i, run) && run != ""
    ensures Contains(needle, run)
    ensures UrlAnchorTest(body).value in {UrlExact(Lower(needle)), UrlPrefix(Lower(needle))}
  {
    var to := if EndsWith(body[1..], "|") then |body| - 1 else |body|;
    if to < |body| { assert body[1..][|body| - 2..] == "|"; }
    assert forall k :: to <= k < |body| ==> IsSpecial(body[k]);
    RunInside(body, i, run, 1, to);
    needle := body[1..to];
    assert At(needle, i - 1, run);
    assert needle == if to < |body| then body[1..][..|body[1..]| - 1] else body[1..];
  }

  lemma AnchorRequires(needle: string, run: string, test: UrlTest, engine: Engine)
    requires Contains(needle, run) && test in {UrlExact(Lower(needle)), UrlPrefix(Lower(needle))}
    ensures Requires(test, run, engine)
  {
    ContainsLower(needle, run);
    forall url | Passes(test, url, engine) ensures Contains(Lower(url), Lower(run)) {
      assert StartsWith(Lower(url), Lower(needle));
      ContainsPrefix(Lower(url), Lower(needle));
      ContainsTrans(Lower(url), Lower(needle), Lower(run));
    }
  }

  lemma BareGlobRequires(body: string, i: int, run: string, engine: Engine)
    requires IsRun(body, i, run)
    ensures Requires(Anywhere(body), run, engine)
  {
    forall url | Passes(Anywhere(body), url, engine) ensures Contains(Lower(url), Lower(run)) {
      GlobAnywhereMeets(body, url, run);
    }
  }

  /** A run of `||host^tail` lies in the host or in the tail. */
  lemma HostPathHoldsRun(body: string, i: int, run: string, cut: nat, path: string)
    requires 2 <= cut < |body| && body[cut] == '^' && IsSpecial(body[0]) && IsSpecial(body[1])
    requires path == StripTrailing(body[cut..], {'|'}) && IsRun(body, i, run) && run != ""
    ensures OnOneSide(body[2..cut], path, run)
  {
    assert body[cut..][..|path|] == path;
    StrippedAreInSet(body[cut..], {'|'});
    forall k | cut + |path| <= k < |body| ensures IsSpecial(body[k]) {
      assert body[cut..][k - cut] in {'|'};
    }
    RunInside(body, i, run, 2, cut + |path|);
    RunOnOneSide(body, i, run, cut, |path|);
    if i < cut { ContainsLower(body[2..cut], run); } else { ContainsLower(path, run); }
  }

  /** A stretch met letter case aside is the folded reading of a stretch. */
  lemma FoldedStretch(s: string, run: string) returns (t: string)
    requires Contains(Lower(s), Lower(run)) && Plain(run)
    ensures Contains(s, t) && Lower(t) == Lower(run) && Plain(t)
  {
    var i :| 0 <= i <= |Lower(s)| && At(Lower(s), i, Lower(run));
    t := s[i..i + |run|];
    assert At(s, i, t);
    assert Lower(t) == Lower(s)[i..i + |run|];
    forall k | 0 <= k < |t| ensures !IsSpecial(t[k]) { FoldedPlain(t[k], run[k], Lower(t)[k], Lower(run)[k]); }
  }

  lemma FoldedPlain(a: char, b: char, x: char, y: char)
    requires x == LowerChar(a) && y == LowerChar(b) && x == y && !IsSpecial(b)
    ensures !IsSpecial(a)
  {
  }

  lemma HostPathRequires(hostPart: string, path: string, run: string, engine: Engine)
    requires OnOneSide(hostPart, path, run) && Plain(run)
    ensures Requires(HostPath(Lower(hostPart), path), run, engine)
  {
    var inHost := Contains(Lower(hostPart), Lower(run));
    var t := FoldedStretch(if inHost then hostPart else path, run);
    forall url | Passes(HostPath(Lower(hostPart), path), url, engine) ensures Contains(Lower(url), Lower(run)) {
      if inHost {
        HostPartMeets(url, hostPart, t);
      } else {
        SplitIsStretch(url);
        PathPartMeets(url, SplitRequestUrl(url).value.1, path, t);
      }
    }
  }

  /** A run cannot reach across the `^` that ends the host. */
  lemma RunOnOneSide(body: string, i: int, run: string, cut: nat, n: nat)
    requires IsRun(body, i, run) && run != "" && 2 <= i
    requires i + |run| <= cut + n <= |body| && cut < |body| && body[cut] == '^'
    ensures i < cut ==> Contains(body[2..cut], run)
    ensures i >= cut ==> Contains(body[cut..][..n], run)
  {
    forall j | i <= j < i + |run| ensures body[j] != '^' {
      AtIndex(body, i, run, j - i);
      assert !IsSpecial(run[j - i]);
    }
    assert body[cut] == '^' && !(i <= cut < i + |run|);
    if i < cut {
      SliceOfSlice(body, 2, cut, i - 2, |run|);
      assert At(body[2..cut], i - 2, run);
    } else {
      assert body[cut..][..n] == body[cut..cut + n];
      SliceOfSlice(body, cut, cut + n, i - cut, |run|);
      assert At(body[cut..][..n], i - cut, run);
    }
  }

  lemma HostPartMeets(url: string, hostPart: string, run: string)
    requires SplitRequestUrl(url).Some? && HostMatches(Lower(hostPart), SplitRequestUrl(url).value.0)
    requires Contains(hostPart, run) && Plain(run)
    ensures Contains(Lower(url), Lower(run))
  {
    var host := SplitRequestUrl(url).value.0;
    SplitIsStretch(url);
    ContainsLower(hostPart, run);
    LowerIsPlain(run);
    HostMatchMeets(Lower(hostPart), host, Lower(run));
    LowerIsIdempotent(run);
    ContainsTrans(Lower(url), host, Lower(run));
  }

  lemma PathPartMeets(url: string, after: string, path: string, run: string)
    requires Contains(Lower(url), Lower(after)) && GlobAnywhere(path, after)
    requires Contains(path, run) && Plain(run)
    ensures Contains(Lower(url), Lower(run))
  {
    GlobAnywhereMeets(path, after, run);
    ContainsTrans(Lower(url), Lower(after), Lower(run));
  }

  // ---------- which test a safe body compiles to ----------

  lemma NoDollar(body: string)
    requires '$' !in body
    ensures LastIndexOf(body, '$') == -1
  {
  }

  lemma SafeParts(body: string)
    requires IsTrimmed(body) && '$' !in body && !StartsWith(body, "@@")
    ensures Trim(body) == body && RuleParts(body) == Parts(WithoutAnchors(body), [], IsSlashedRegex(body))
  {
    TrimIsTrimmed(body);
    NoDollar(body);
  }

  lemma MatcherReads(rule: string, engine: Engine)
    requires RequestUrlMatcher(rule, engine).Some?
    ensures var trimmed := Trim(rule); var parts := RuleParts(trimmed);
      !StartsWith(trimmed, "@@") &&
      (!parts.isRegex ==> RequestUrlMatcher(rule, engine) == PatternTest(trimmed, parts.body))
  {
  }

  lemma MatcherOfSafeBody(body: string, engine: Engine)
    requires IsTrimmed(body) && '$' !in body && RequestUrlMatcher(body, engine).Some? && !IsSlashedRegex(body)
    ensures RequestUrlMatcher(body, engine) == PatternTest(body, WithoutAnchors(body))
  {
    TrimIsTrimmed(body);
    MatcherReads(body, engine);
    SafeParts(body);
  }

  lemma SchemeHasSlash(rest: string)
    ensures SchemeLength(rest) == 0 || exists k :: 0 <= k < |rest| && rest[k] == '/'
  {
    var scheme := SchemeLength(rest);
    if scheme > 0 {
      assert Lower(rest)[scheme - 1] == '/' && rest[scheme - 1] == '/';
    }
  }

  /** Without a boundary there is no host and path to test. */
  lemma NoBoundaryNoTest(body: string)
    requires StartsWith(body, "||") && Boundary(body) < 0
    ensures PatternTest(body, body[2..]) == None
  {
    var rest := body[2..];
    NoneBeforeIndexOfAny(rest, {'^', '/'}, 0);
    SchemeHasSlash(rest);
    assert rest[0..] == rest;
  }

  lemma OneSidedHoldsRun(body: string, run: string, cut: nat, path: string)
    requires 2 <= cut < |body| && IsOneSided(body, cut) && run == RunFrom(body, 0, "", "") && run != "" && Plain(run)
    requires path == StripTrailing(body[cut..], {'|'})
    ensures OnOneSide(body[2..cut], path, run)
  {
    if !Contains(Lower(body[2..cut]), Lower(run)) {
      StrippedHoldsRun(body[cut..], path, run);
    }
  }

  /** Trailing bars hold no part of a run. */
  lemma StrippedHoldsRun(tail: string, path: string, run: string)
    requires path == StripTrailing(tail, {'|'}) && Contains(Lower(tail), Lower(run)) && run != "" && Plain(run)
    ensures Contains(Lower(path), Lower(run))
  {
    var t := FoldedStretch(tail, run);
    assert |t| == |Lower(t)| == |Lower(run)| == |run|;
    StrippedHoldsStretch(tail, path, t);
    ContainsLower(path, t);
  }

  lemma StrippedHoldsStretch(tail: string, path: string, t: string)
    requires path == StripTrailing(tail, {'|'}) && Contains(tail, t) && t != "" && Plain(t)
    ensures Contains(path, t)
  {
    var j :| 0 <= j <= |tail| && At(tail, j, t);
    StrippedAreInSet(tail, {'|'});
    forall k | |path| <= k < |tail| ensures IsSpecial(tail[k]) { assert tail[k] in {'|'}; }
    assert tail[0..|path|] == path;
    RunInside(tail, j, t, 0, |path|);
    assert IsRun(path, j, t);
  }

  lemma SafeHostPath(body: string, i: int, run: string, engine: Engine)
    requires StartsWith(body, "||") && Boundary(body) >= 0 && SchemeLength(body[2..]) == 0
    requires body[2..][Boundary(body)] == '^' || IsOneSided(body, 2 + Boundary(body))
    requires PatternTest(body, body[2..]).Some? && IsRun(body, i, run) && run != "" && run == RunFrom(body, 0, "", "")
    ensures Requires(PatternTest(body, body[2..]).value, run, engine)
  {
    var cut := 2 + Boundary(body);
    var path := StripTrailing(body[cut..], {'|'});
    HostPathOf(body, body[2..], cut);
    if body[cut] == '^' {
      HostPathHoldsRun(body, i, run, cut, path);
    } else {
      OneSidedHoldsRun(body, run, cut, path);
    }
    HostPathRequires(body[2..cut], path, run, engine);
  }

  lemma HostPathTestOf(rest: string, cut: int)
    requires cut == IndexOfAny(rest, {'^', '/'}, 0) && HostPathTest(rest).Some?
    ensures 0 <= cut < |rest|
    ensures HostPathTest(rest) == Some(HostPath(Lower(rest[..cut]), StripTrailing(rest[cut..], {'|'})))
  {
  }

  lemma PatternTestOf(trimmed: string, rest: string)
    requires StartsWith(trimmed, "||") && SchemeLength(rest) == 0
    ensures PatternTest(trimmed, rest) == HostPathTest(rest)
  {
    assert rest[0..] == rest;
  }

  lemma SlicesOfRest(body: string, rest: string, cut: nat)
    requires 2 <= cut <= |body| && rest == body[2..]
    ensures rest[cut - 2..] == body[cut..] && rest[..cut - 2] == body[2..cut]
  {
  }

  lemma HostPathOf(body: string, rest: string, cut: nat)
    requires StartsWith(body, "||") && rest == body[2..] && cut == 2 + IndexOfAny(rest, {'^', '/'}, 0)
    requires PatternTest(body, rest).Some? && SchemeLength(rest) == 0
    ensures 2 <= cut < |body|
    ensures PatternTest(body, rest) == Some(HostPath(Lower(body[2..cut]), StripTrailing(body[cut..], {'|'})))
  {
    PatternTestOf(body, rest);
    HostPathTestOf(rest, cut - 2);
    SlicesOfRest(body, rest, cut);
  }

  lemma SafeMatcherRequires(body: string, i: int, run: string, engine: Engine)
    requires TokenSafe(body) && !IsWildcardHost(body) && (StartsWith(body, "|") ==> StartsWith(body, "||"))
    requires RequestUrlMatcher(body, engine).Some? && !IsSlashedRegex(body) && IsRun(body, i, run) && run != ""
    requires run == RunFrom(body, 0, "", "")
    ensures Requires(RequestUrlMatcher(body, engine).value, run, engine)
  {
    MatcherOfSafeBody(body, engine);
    if StartsWith(body, "||") {
      if Boundary(body) < 0 { NoBoundaryNoTest(body); }
      SafeHostPath(body, i, run, engine);
    } else {
      assert PatternTest(body, body) == Some(Anywhere(body));
      BareGlobRequires(body, i, run, engine);
    }
  }

  /** The exception matcher reads the same body behind `@@`. */
  lemma ExceptionMatcherReadsBody(body: string, engine: Engine)
    requires IsTrimmed(body) && body != "" && ExceptionRequestUrlMatcher("@@" + body, engine).Some?
    ensures ExceptionRequestUrlMatcher("@@" + body, engine) == RequestUrlMatcher(body, engine)
  {
    TrimIsTrimmed("@@" + body);
    assert ("@@" + body)[2..] == body;
  }

  lemma StarHasNoToken()
    ensures LiteralToken("*") == None
  {
    assert RunFrom("*", 1, "", "") == "";
  }

  /** For every safe body the shortlist loses nothing: a URL its test accepts contains its token. */
  lemma SafeBodyIsLossless(body: string, isException: bool, engine: Engine)
    requires TokenSafe(body) && ScanTest(body, isException, engine).Some? && LiteralToken(body).Some?
    ensures Requires(ScanTest(body, isException, engine).value, LiteralToken(body).value, engine)
  {
    var i, run := TokenRun(body);
    StarHasNoToken();
    LowerIsIdempotent(run);
    SafeBodyRequires(body, isException, i, run, engine);
    RequiresFolded(ScanTest(body, isException, engine).value, run, engine);
  }

  lemma RequiresFolded(test: UrlTest, run: string, engine: Engine)
    requires Requires(test, run, engine)
    ensures Requires(test, Lower(run), engine)
  {
    LowerIsIdempotent(run);
  }

  lemma SafeBodyRequires(body: string, isException: bool, i: int, run: string, engine: Engine)
    requires TokenSafe(body) && ScanTest(body, isException, engine).Some? && body != "" && body != "*"
    requires !IsSlashedRegex(body) && IsRun(body, i, run) && run != "" && run == RunFrom(body, 0, "", "")
    ensures Requires(ScanTest(body, isException, engine).value, run, engine)
  {
    if IsWildcardHost(body) {
      WildcardHostRequires(body, i, run, engine);
    } else if StartsWith(body, "|") && !StartsWith(body, "||") {
      var needle := AnchorHoldsRun(body, i, run);
      AnchorRequires(needle, run, UrlAnchorTest(body).value, engine);
    } else {
      if isException { ExceptionMatcherReadsBody(body, engine); }
      SafeMatcherRequires(body, i, run, engine);
    }
  }
}
