/** What the token shortlist costs a list: when its index finds every match, and which single rules it loses. */
module RequestShortlist {
  import opened Text
  import opened RequestRules
  import opened UrlTests
  import opened RequestIndex
  import opened RequestEvaluator
  import opened RequestTokens
  import opened RequestRefinement
  import opened RequestExactness
  import opened RequestTheorems

  /** The shortlist keeps the entry: no URL its test accepts, as long as the evaluator reads one, lacks its token. */
  ghost predicate IsKept(e: Entry, place: Place, engine: Engine) {
    place.slot(e).Token? ==> RequiresWithin(place.test(e), place.slot(e).text, engine, MAX_URL_LENGTH)
  }

  /** A request as the evaluator looks at it, its URL cut to the length it reads. */
  ghost predicate IsRead(r: Request, url: string, engine: Engine) {
    |url| <= MAX_URL_LENGTH && IsRequest(r, url, engine)
  }

  ghost predicate AgreesOn(entries: seq<Entry>, place: Place, url: string, r: Request, engine: Engine) {
    IsRead(r, url, engine) ==> ReachedRules(entries, place, r) == LinearScan(entries, place, r)
  }

  lemma {:induction false} ReachedIsFewer(entries: seq<Entry>, place: Place, r: Request)
    ensures |ReachedRules(entries, place, r)| <= |LinearScan(entries, place, r)|
    ensures (exists e :: e in entries && Fires(e, place, r) && !Reached(e, place, r)) ==>
            |ReachedRules(entries, place, r)| < |LinearScan(entries, place, r)|
  {
    if entries != [] {
      var front, last := entries[..|entries| - 1], entries[|entries| - 1];
      assert entries == front + [last];
      ReachedIsFewer(front, place, r);
      assert Reached(last, place, r) ==> Fires(last, place, r);
    }
  }

  lemma KeptAgrees(entries: seq<Entry>, place: Place, url: string, r: Request, engine: Engine)
    requires IsPlace(place, engine) && forall e :: e in entries ==> IsKept(e, place, engine)
    ensures AgreesOn(entries, place, url, r, engine)
  {
    if IsRead(r, url, engine) {
      forall e | e in entries && place.slot(e).Token? && r.passes(place.test(e))
        ensures Contains(r.haystack, place.slot(e).text)
      {
        assert IsKept(e, place, engine);
        ProbeAgrees(place.test(e), r, url, engine);
        PlacedTokenReads(e, place, engine);
        TokenIsFolded(e.body);
      }
      ReachedIsLinear(entries, place, r);
    }
  }

  lemma MissedUrl(test: UrlTest, text: string, engine: Engine) returns (url: string)
    requires !RequiresWithin(test, text, engine, MAX_URL_LENGTH)
    ensures |url| <= MAX_URL_LENGTH && Passes(test, url, engine) && !Contains(Lower(url), Lower(text))
  {
    url :| |url| <= MAX_URL_LENGTH && Passes(test, url, engine) && !Contains(Lower(url), Lower(text));
  }

  lemma FoldedSlot(e: Entry, place: Place, engine: Engine)
    requires IsPlace(place, engine) && place.slot(e).Token?
    ensures Lower(place.slot(e).text) == place.slot(e).text
  {
    PlacedTokenReads(e, place, engine);
    TokenIsFolded(e.body);
  }

  lemma RequestFor(url: string, engine: Engine) returns (r: Request)
    ensures IsRequest(r, url, engine)
  {
    var passes := ProbeOf(url, engine);
    r := Request(RequestHost(url), Lower(url), passes);
  }

  lemma MissedAt(e: Entry, place: Place, engine: Engine, url: string, r: Request)
    requires IsRequest(r, url, engine) && place.slot(e).Token? && Lower(place.slot(e).text) == place.slot(e).text
    requires Passes(place.test(e), url, engine) && !Contains(Lower(url), Lower(place.slot(e).text))
    ensures Fires(e, place, r) && !Reached(e, place, r)
  {
    ProbeAgrees(place.test(e), r, url, engine);
  }

  /** An entry that is not kept is missed by the index on some URL. */
  lemma LostSomewhere(e: Entry, place: Place, engine: Engine) returns (url: string, r: Request)
    requires IsPlace(place, engine) && !IsKept(e, place, engine)
    ensures IsRead(r, url, engine) && Fires(e, place, r) && !Reached(e, place, r)
  {
    url := MissedUrl(place.test(e), place.slot(e).text, engine);
    r := RequestFor(url, engine);
    FoldedSlot(e, place, engine);
    MissedAt(e, place, engine, url, r);
  }

  /** The index finds what a linear scan finds, on every request, exactly when each entry behind a token is kept. */
  lemma IndexIsExactIffKept(entries: seq<Entry>, place: Place, engine: Engine)
    requires IsPlace(place, engine)
    ensures (forall url, r :: AgreesOn(entries, place, url, r, engine)) <==>
            forall e :: e in entries ==> IsKept(e, place, engine)
  {
    if forall e :: e in entries ==> IsKept(e, place, engine) {
      forall url, r ensures AgreesOn(entries, place, url, r, engine) { KeptAgrees(entries, place, url, r, engine); }
    } else {
      var e :| e in entries && !IsKept(e, place, engine);
      var url, r := LostSomewhere(e, place, engine);
      ReachedIsFewer(entries, place, r);
      assert !AgreesOn(entries, place, url, r, engine);
    }
  }

  // ---------- lists of one rule ----------

  /** Through the index the request is allowed, while a linear scan of the same list blocks it. */
  ghost predicate IsLostAt(e: Entry, place: Place, engine: Engine, ctx: Context, url: string, r: Request) {
    && IsRead(r, url, engine)
    && ActionOf(DecidingRules([e], place, url, r, ctx)) == Allowed
    && ActionOf(Active(LinearScan([e], place, r), ctx)) == Blocked
  }

  predicate IsPlainBlock(rule: Rule, ctx: Context) {
    !rule.isException && rule.contributesBlock && IsActive(rule, ctx)
  }

  lemma OneBlock(rule: Rule, ctx: Context)
    requires IsPlainBlock(rule, ctx)
    ensures ActionOf(Active([rule], ctx)) == Blocked && ActionOf(Active([], ctx)) == Allowed
  {
    assert [rule][1..] == [];
    assert Active([rule], ctx) == [rule] + Active([], ctx) == [rule];
    ActionMeaning([rule]);
    assert rule in [rule];
  }

  lemma OneEntry(e: Entry, place: Place, r: Request)
    ensures ReachedRules([e], place, r) == if Reached(e, place, r) then [e.rule] else []
    ensures LinearScan([e], place, r) == if Fires(e, place, r) then [e.rule] else []
  {
    assert [e][..0] == [];
  }

  lemma ActionOfOne(e: Entry, place: Place, engine: Engine, ctx: Context, url: string, r: Request)
    requires IsRequest(r, url, engine) && IsPlainBlock(e.rule, ctx)
    ensures ActionOf(DecidingRules([e], place, url, r, ctx)) == if Reached(e, place, r) then Blocked else Allowed
    ensures ActionOf(Active(LinearScan([e], place, r), ctx)) == if Fires(e, place, r) then Blocked else Allowed
  {
    DecidingIsReached([e], place, url, engine, r, ctx);
    SameMembersSameAction(DecidingRules([e], place, url, r, ctx), Active(ReachedRules([e], place, r), ctx));
    OneEntry(e, place, r);
    OneBlock(e.rule, ctx);
  }

  /** A list of one blocking rule lets some request through that the rule matches exactly when the shortlist
      does not keep the rule. */
  lemma RuleIsLostIff(e: Entry, place: Place, engine: Engine, ctx: Context)
    requires IsPlace(place, engine) && IsPlainBlock(e.rule, ctx)
    ensures (exists url, r :: IsLostAt(e, place, engine, ctx, url, r)) <==> !IsKept(e, place, engine)
  {
    if !IsKept(e, place, engine) {
      var url, r := LostSomewhere(e, place, engine);
      ActionOfOne(e, place, engine, ctx, url, r);
      assert IsLostAt(e, place, engine, ctx, url, r);
    } else {
      forall url, r ensures !IsLostAt(e, place, engine, ctx, url, r) {
        KeptAgrees([e], place, url, r, engine);
        if IsRequest(r, url, engine) {
          OneEntry(e, place, r);
          ActionOfOne(e, place, engine, ctx, url, r);
        }
      }
    }
  }

  lemma TokenSlot(e: Entry, place: Place, engine: Engine, test: UrlTest, token: string)
    requires IsPlace(place, engine) && HostsEntry(e.body).None?
    requires HostOnlyPattern(e.body).None? || '*' in HostOnlyPattern(e.body).value
    requires ScanTest(e.body, e.rule.isException, engine) == Some(test) && LiteralToken(e.body) == Some(token)
    ensures place.slot(e) == Token(token) && place.test(e) == test
  {
    assert Seen(e);
  }

  lemma LongerRequires(test: UrlTest, token: string, engine: Engine)
    requires Requires(test, token, engine)
    ensures RequiresWithin(test, token, engine, MAX_URL_LENGTH)
  {
  }

  /** One blocking rule with a host and a path, led by `||`, by a scheme or by both, or with a `^` behind the host of
      a scheme: some request it matches is let through exactly when its token lies neither in the host nor behind
      it. Never otherwise; and always then, unless the pattern is about as long as the longest URL the evaluator
      reads. */
  lemma HostPathRuleIsLostIff(e: Entry, bars: string, scheme: string, h: string, tail: string, place: Place,
                              engine: Engine, ctx: Context, test: UrlTest, token: string)
    requires IsPlace(place, engine) && IsPlainBlock(e.rule, ctx) && IsHostPathBody(e.body, bars, scheme, h, tail)
    requires ScanTest(e.body, e.rule.isException, engine) == Some(test) && LiteralToken(e.body) == Some(token)
    ensures (exists url, r :: IsLostAt(e, place, engine, ctx, url, r)) ==>
            !Contains(Lower(h), token) && !Contains(Lower(tail), token)
    ensures |h| + |tail| + 7 <= MAX_URL_LENGTH ==>
            ((exists url, r :: IsLostAt(e, place, engine, ctx, url, r)) <==>
             !Contains(Lower(h), token) && !Contains(Lower(tail), token))
  {
    BodyStarts(e.body, bars, scheme, h, tail);
    TokenSlot(e, place, engine, test, token);
    RuleIsLostIff(e, place, engine, ctx);
    KeptPathStarts(tail);
    if |h| + |tail| + 7 <= MAX_URL_LENGTH {
      HostPathWithin(e.body, bars, scheme, h, tail, e.rule.isException, engine, test, token, MAX_URL_LENGTH);
    }
    ShortlistKeepsHostPath(e.body, bars, scheme, h, tail, e.rule.isException, engine, test, token);
    if Requires(test, token, engine) { LongerRequires(test, token, engine); }
  }

  /** One blocking rule for a wildcard host: some request it matches is let through exactly when its token does
      not lie in the host pattern. Never otherwise; and always then, when a URL the evaluator reads whole has room
      for the pattern, with a letter the token lacks for every `*`, or the token's length when it lacks none. */
  lemma WildcardRuleIsLostIff(e: Entry, core: string, place: Place, engine: Engine, ctx: Context, token: string)
    requires IsPlace(place, engine) && IsPlainBlock(e.rule, ctx) && HostsEntry(e.body).None?
    requires IsWildcardHost(e.body) && core == Core(e.body) && IsGlobHost(core) && LiteralToken(e.body) == Some(token)
    ensures (exists url, r :: IsLostAt(e, place, engine, ctx, url, r)) ==> !Contains(Lower(core), token)
    ensures FilledLength(core, token) <= MAX_URL_LENGTH ==>
            ((exists url, r :: IsLostAt(e, place, engine, ctx, url, r)) <==> !Contains(Lower(core), token))
  {
    ShortlistKeepsWildcardHost(e.body, core, e.rule.isException, engine, token);
    TokenSlot(e, place, engine, HostGlob(Lower(core)), token);
    RuleIsLostIff(e, place, engine, ctx);
    if FilledLength(core, token) <= MAX_URL_LENGTH {
      WildcardHostWithin(e.body, core, engine, token, MAX_URL_LENGTH);
    }
    if Requires(HostGlob(Lower(core)), token, engine) { LongerRequires(HostGlob(Lower(core)), token, engine); }
  }
}
