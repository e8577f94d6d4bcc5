/** What the evaluator's verdict depends on: not the index, not the order of the list, not the rules a
    marker disables, and, for the action, not the rules that only modify. */
module RequestTheorems {
  import opened Text
  import opened RequestRules
  import opened UrlTests
  import opened RequestIndex
  import opened RequestEvaluator
  import opened RequestTokens
  import opened RequestRefinement
  import opened Sums

  // ---------- the action, level by level ----------

  ghost predicate Has(active: seq<Rule>, level: nat) {
    exists r :: r in active && AtLevel(r, level)
  }

  lemma {:induction false} FirstAtIsThere(active: seq<Rule>, level: nat)
    ensures FirstAt(active, level).Some? <==> Has(active, level)
    ensures var first := FirstAt(active, level); first.Some? ==> first.value in active && AtLevel(first.value, level)
  {
    if active != [] && !AtLevel(active[0], level) {
      FirstAtIsThere(active[1..], level);
      assert active == [active[0]] + active[1..];
    }
  }

  /** The strongest level some rule is at; 4 when there is none. */
  ghost function WinningLevel(active: seq<Rule>): nat {
    if Has(active, 0) then 0
    else if Has(active, 1) then 1
    else if Has(active, 2) then 2
    else if Has(active, 3) then 3
    else 4
  }

  lemma WinnerIsAtWinningLevel(active: seq<Rule>)
    ensures var level := WinningLevel(active);
      match Winner(active)
      case None => level == 4
      case Some(rule) => level < 4 && rule in active && AtLevel(rule, level)
  {
    FirstAtIsThere(active, 0);
    FirstAtIsThere(active, 1);
    FirstAtIsThere(active, 2);
    FirstAtIsThere(active, 3);
  }

  lemma ActionIsWinningLevel(active: seq<Rule>)
    ensures var level := WinningLevel(active);
      ActionOf(active) == if level == 4 then Allowed else if level == 0 || level == 2 then Exception else Blocked
  {
    WinnerIsAtWinningLevel(active);
  }

  ghost predicate SomeBlock(active: seq<Rule>, important: bool) {
    exists r :: r in active && !r.isException && r.contributesBlock && (important ==> r.isImportant)
  }

  ghost predicate SomeException(active: seq<Rule>, important: bool) {
    exists r :: r in active && r.isException && (important ==> r.isImportant)
  }

  /** A request is blocked when some rule blocks it, no important exception covers it, and any exception
      at all is outweighed by an important block; an exception stands in exactly the other covered cases. */
  lemma ActionMeaning(active: seq<Rule>)
    ensures ActionOf(active) == Blocked <==>
      SomeBlock(active, false) && !SomeException(active, true) &&
      (SomeException(active, false) ==> SomeBlock(active, true))
    ensures ActionOf(active) == Exception <==>
      SomeException(active, false) && (SomeBlock(active, true) ==> SomeException(active, true))
  {
    ActionIsWinningLevel(active);
    assert Has(active, 0) <==> SomeException(active, true);
    assert Has(active, 1) <==> SomeBlock(active, true);
    assert Has(active, 2) <==> SomeException(active, false);
    assert Has(active, 3) <==> SomeBlock(active, false);
  }

  // ---------- a decision depends on the set of active rules ----------

  /** The verdict is right for these active rules, in whatever order they were met: the covering rule is
      some rule of the winning level. */
  ghost predicate IsDecision(v: Verdict, active: seq<Rule>) {
    && v.action == ActionOf(active)
    && (match v.coveringRule
        case None => WinningLevel(active) == 4
        case Some(raw) => exists r :: r in active && AtLevel(r, WinningLevel(active)) && r.raw == raw)
    && IsRemoveParams(v.removeParams, active)
    && IsKeepParams(v.keepParams, active)
    && IsRemoveHeaders(v.removeHeaders, active)
    && IsCsp(v.csp, active)
  }

  lemma VerdictIsDecision(v: Verdict, active: seq<Rule>)
    requires IsVerdict(v, active)
    ensures IsDecision(v, active)
  {
    WinnerIsAtWinningLevel(active);
  }

  ghost predicate SameMembers(a: seq<Rule>, b: seq<Rule>) {
    forall r :: r in a <==> r in b
  }

  lemma SameMembersSameAction(a: seq<Rule>, b: seq<Rule>)
    requires SameMembers(a, b)
    ensures ActionOf(a) == ActionOf(b)
  {
    ActionIsWinningLevel(a);
    ActionIsWinningLevel(b);
    forall level ensures Has(a, level) <==> Has(b, level) { SameMembersHave(a, b, level); }
  }

  lemma SameMembersSameDecision(v: Verdict, a: seq<Rule>, b: seq<Rule>)
    requires SameMembers(a, b) && IsDecision(v, a)
    ensures IsDecision(v, b)
  {
    ActionIsWinningLevel(a);
    ActionIsWinningLevel(b);
    forall level ensures Has(a, level) <==> Has(b, level) { SameMembersHave(a, b, level); }
    forall side, fact ensures Said(a, side, fact) <==> Said(b, side, fact) { SameMembersSay(a, b, side, fact); }
  }

  lemma SameMembersHave(a: seq<Rule>, b: seq<Rule>, level: nat)
    requires SameMembers(a, b)
    ensures Has(a, level) <==> Has(b, level)
  {
  }

  lemma SameMembersSay(a: seq<Rule>, b: seq<Rule>, side: bool, fact: Fact)
    requires SameMembers(a, b)
    ensures Said(a, side, fact) <==> Said(b, side, fact)
  {
  }

  lemma {:induction false} ActiveMembers(matched: seq<Rule>, ctx: Context, r: Rule)
    ensures r in Active(matched, ctx) <==> r in matched && IsActive(r, ctx)
  {
    if matched != [] {
      ActiveMembers(matched[1..], ctx, r);
      assert matched == [matched[0]] + matched[1..];
    }
  }

  lemma SameMatchedSameActive(a: seq<Rule>, b: seq<Rule>, ctx: Context)
    requires SameMembers(a, b)
    ensures SameMembers(Active(a, ctx), Active(b, ctx))
  {
    forall r ensures r in Active(a, ctx) <==> r in Active(b, ctx) {
      ActiveMembers(a, ctx, r);
      ActiveMembers(b, ctx, r);
    }
  }

  lemma SameMultisetSameMembers(a: seq<Rule>, b: seq<Rule>)
    requires multiset(a) == multiset(b)
    ensures SameMembers(a, b)
  {
    forall r ensures r in a <==> r in b {
      assert r in multiset(a) <==> r in multiset(b);
    }
  }

  // ---------- the index decides as the linear scan does ----------

  /** The rules that decide one request over an indexed list. */
  function DecidingRules(entries: seq<Entry>, place: Place, url: string, r: Request, ctx: Context): seq<Rule> {
    Deciding(View(entries, place, r.passes), TokensOf(entries, place), url, ctx)
  }

  lemma DecidingIsReached(entries: seq<Entry>, place: Place, url: string, engine: Engine, r: Request, ctx: Context)
    requires IsRequest(r, url, engine)
    ensures SameMembers(DecidingRules(entries, place, url, r, ctx), Active(ReachedRules(entries, place, r), ctx))
  {
    var view := View(entries, place, r.passes);
    GatheredIsReached(view, url, engine, r);
    var found := Gather(view, Visits(TokensOf(entries, place), url));
    SameMultisetSameMembers(found, ReachedRules(entries, place, r));
    SameMatchedSameActive(found, ReachedRules(entries, place, r), ctx);
  }

  /** Over safe bodies the evaluator's verdict is the one a linear scan of the list gives. */
  lemma IndexedVerdictIsLinear(entries: seq<Entry>, place: Place, url: string, engine: Engine, r: Request, ctx: Context,
                               v: Verdict)
    requires IsPlace(place, engine) && IsRequest(r, url, engine) && TokensAreSafe(entries)
    requires IsVerdict(v, DecidingRules(entries, place, url, r, ctx))
    ensures IsDecision(v, Active(LinearScan(entries, place, r), ctx))
  {
    var deciding := DecidingRules(entries, place, url, r, ctx);
    VerdictIsDecision(v, deciding);
    DecidingIsReached(entries, place, url, engine, r, ctx);
    SafeShortlist(entries, place, r, url, engine);
    ReachedIsLinear(entries, place, r);
    SameMembersSameDecision(v, deciding, Active(LinearScan(entries, place, r), ctx));
  }

  /** Built and asked once: the verdict is right for one pass over the list, and over safe bodies for a
      linear scan that knows no tokens. */
  method AnswerRequest(stored: seq<Stored>, rawUrl: string, ctx: Context, engine: Engine, ghost place: Place,
                       ghost r: Request)
    returns (v: Verdict)
    requires IsPlace(place, engine) && IsRequest(r, Clamped(rawUrl), engine)
    ensures IsDecision(v, Active(ReachedRules(Indexed(Lines(stored)), place, r), ctx))
    ensures TokensAreSafe(Indexed(Lines(stored))) ==>
            IsDecision(v, Active(LinearScan(Indexed(Lines(stored)), place, r), ctx))
  {
    ghost var entries := Indexed(Lines(stored));
    var ix, _ := CreateRequestEvaluator(stored, engine, place);
    v := Evaluate(ix, rawUrl, ctx, engine, View(entries, place, r.passes));
    ghost var deciding := DecidingRules(entries, place, Clamped(rawUrl), r, ctx);
    VerdictIsDecision(v, deciding);
    DecidingIsReached(entries, place, Clamped(rawUrl), engine, r, ctx);
    SameMembersSameDecision(v, deciding, Active(ReachedRules(entries, place, r), ctx));
    if TokensAreSafe(entries) {
      IndexedVerdictIsLinear(entries, place, Clamped(rawUrl), engine, r, ctx, v);
    }
  }

  // ---------- the order of the list ----------

  lemma {:induction false} ReachedMembers(entries: seq<Entry>, place: Place, r: Request, rule: Rule)
    ensures rule in ReachedRules(entries, place, r) <==>
            exists e :: e in entries && Reached(e, place, r) && e.rule == rule
  {
    if entries != [] {
      var front, last := entries[..|entries| - 1], entries[|entries| - 1];
      assert entries == front + [last];
      ReachedMembers(front, place, r, rule);
      if Reached(last, place, r) && last.rule == rule { assert last in entries; }
    }
  }

  lemma {:induction false} CandidateMembers(lines: seq<Line>, e: Entry)
    ensures e in Candidates(lines) <==> Indexable(e) in lines
  {
    if lines != [] {
      CandidateMembers(lines[..|lines| - 1], e);
      assert lines == lines[..|lines| - 1] + [lines[|lines| - 1]];
    }
  }

  lemma {:induction false} SurvivingMembers(entries: seq<Entry>, bad: set<string>, e: Entry)
    ensures e in Surviving(entries, bad) <==> e in entries && e.rule.identity !in bad
  {
    if entries != [] {
      SurvivingMembers(entries[..|entries| - 1], bad, e);
      assert entries == entries[..|entries| - 1] + [entries[|entries| - 1]];
    }
  }

  lemma IndexedMembers(lines: seq<Line>, e: Entry)
    ensures e in Indexed(lines) <==> Indexable(e) in lines && e.rule.identity !in Badfilters(lines)
  {
    CandidateMembers(lines, e);
    SurvivingMembers(Candidates(lines), Badfilters(lines), e);
  }

  ghost predicate SameEntries(a: seq<Entry>, b: seq<Entry>) {
    forall e :: e in a <==> e in b
  }

  lemma SameLinesSameIndexed(a: seq<Line>, b: seq<Line>)
    requires forall line :: line in a <==> line in b
    ensures SameEntries(Indexed(a), Indexed(b))
  {
    assert Badfilters(a) == Badfilters(b);
    forall e ensures e in Indexed(a) <==> e in Indexed(b) {
      IndexedMembers(a, e);
      IndexedMembers(b, e);
    }
  }

  lemma SameEntriesSameReached(a: seq<Entry>, b: seq<Entry>, place: Place, r: Request)
    requires SameEntries(a, b)
    ensures SameMembers(ReachedRules(a, place, r), ReachedRules(b, place, r))
  {
    forall rule ensures rule in ReachedRules(a, place, r) <==> rule in ReachedRules(b, place, r) {
      ReachedMembers(a, place, r, rule);
      ReachedMembers(b, place, r, rule);
    }
  }

  lemma SameEntriesSameDecision(a: seq<Entry>, b: seq<Entry>, place: Place, url: string, engine: Engine, r: Request,
                                ctx: Context, v: Verdict)
    requires IsRequest(r, url, engine) && SameEntries(a, b)
    requires IsVerdict(v, DecidingRules(a, place, url, r, ctx))
    ensures IsDecision(v, DecidingRules(b, place, url, r, ctx))
  {
    VerdictIsDecision(v, DecidingRules(a, place, url, r, ctx));
    DecidingIsReached(a, place, url, engine, r, ctx);
    DecidingIsReached(b, place, url, engine, r, ctx);
    SameEntriesSameReached(a, b, place, r);
    SameMatchedSameActive(ReachedRules(a, place, r), ReachedRules(b, place, r), ctx);
    SameMembersSameDecision(v, DecidingRules(a, place, url, r, ctx), DecidingRules(b, place, url, r, ctx));
  }

  /** One line's share of the index size. */
  function Weight(line: Line, bad: set<string>, place: Place): nat {
    if line.Indexable? && line.entry.rule.identity !in bad && place.slot(line.entry) != Nowhere then 1 else 0
  }

  function TotalWeight(lines: seq<Line>, bad: set<string>, place: Place): nat {
    SumBy(lines, (line: Line) => Weight(line, bad, place))
  }

  lemma SurvivingAppend(entries: seq<Entry>, e: Entry, bad: set<string>)
    ensures Surviving(entries + [e], bad) == Surviving(entries, bad) + if e.rule.identity in bad then [] else [e]
  {
    assert (entries + [e])[..|entries|] == entries;
  }

  lemma NothingAppended<T>(s: seq<T>)
    ensures s + [] == s
  {
  }

  lemma {:induction false} CountIsTotalWeight(lines: seq<Line>, bad: set<string>, place: Place)
    ensures CountPlaced(Surviving(Candidates(lines), bad), place) == TotalWeight(lines, bad, place)
  {
    if lines != [] {
      var front, last := lines[..|lines| - 1], lines[|lines| - 1];
      CountIsTotalWeight(front, bad, place);
      assert lines == front + [last];
      SumByAppend(front, last, (line: Line) => Weight(line, bad, place));
      NothingAppended(Candidates(front));
      NothingAppended(Surviving(Candidates(front), bad));
      if last.Indexable? {
        SurvivingAppend(Candidates(front), last.entry, bad);
        CountStep(Surviving(Candidates(front), bad), last.entry, place);
      }
    }
  }

  /** Reordering the list changes neither the size of the index nor any request's action or transforms. */
  lemma ListOrderIsIrrelevant(a: seq<Line>, b: seq<Line>, place: Place, url: string, engine: Engine, r: Request,
                              ctx: Context, v: Verdict)
    requires multiset(a) == multiset(b) && IsRequest(r, url, engine)
    requires IsVerdict(v, DecidingRules(Indexed(a), place, url, r, ctx))
    ensures CountPlaced(Indexed(a), place) == CountPlaced(Indexed(b), place)
    ensures IsDecision(v, DecidingRules(Indexed(b), place, url, r, ctx))
  {
    forall line ensures line in a <==> line in b { assert line in multiset(a) <==> line in multiset(b); }
    SameSize(a, b, place);
    SameLinesSameIndexed(a, b);
    SameEntriesSameDecision(Indexed(a), Indexed(b), place, url, engine, r, ctx, v);
  }

  lemma SameSize(a: seq<Line>, b: seq<Line>, place: Place)
    requires multiset(a) == multiset(b) && forall line :: line in a <==> line in b
    ensures CountPlaced(Indexed(a), place) == CountPlaced(Indexed(b), place)
  {
    var bad := Badfilters(a);
    assert bad == Badfilters(b);
    CountIsTotalWeight(a, bad, place);
    CountIsTotalWeight(b, bad, place);
    SumByPermutation(a, b, (line: Line) => Weight(line, bad, place));
  }

  // ---------- markers ----------

  /** The list without the rules of one identity; markers stay. */
  function WithoutIdentity(lines: seq<Line>, identity: string): seq<Line> {
    if lines == [] then []
    else
      var line := lines[|lines| - 1];
      WithoutIdentity(lines[..|lines| - 1], identity) +
      if line.Indexable? && line.entry.rule.identity == identity then [] else [line]
  }

  function Survivor(line: Line, bad: set<string>): seq<Entry> {
    if line.Indexable? && line.entry.rule.identity !in bad then [line.entry] else []
  }

  lemma SurvivorsStep(lines: seq<Line>, line: Line, bad: set<string>)
    ensures Surviving(Candidates(lines + [line]), bad) == Surviving(Candidates(lines), bad) + Survivor(line, bad)
  {
    LinesStep(lines, line);
    NothingAppended(Candidates(lines));
    if line.Indexable? { SurvivingAppend(Candidates(lines), line.entry, bad); }
  }

  lemma WithoutStep(lines: seq<Line>, line: Line, identity: string)
    ensures WithoutIdentity(lines + [line], identity) ==
            WithoutIdentity(lines, identity) +
            if line.Indexable? && line.entry.rule.identity == identity then [] else [line]
  {
    assert (lines + [line])[..|lines|] == lines;
  }

  lemma DisablingStep(front: seq<Line>, rest: seq<Line>, line: Line, identity: string, bad: set<string>)
    requires Surviving(Candidates(front), bad + {identity}) == Surviving(Candidates(rest), bad)
    ensures Surviving(Candidates(front + [line]), bad + {identity}) ==
            Surviving(Candidates(rest + if line.Indexable? && line.entry.rule.identity == identity
                                        then []
                                        else [line]), bad)
  {
    SurvivorsStep(front, line, bad + {identity});
    SurvivorsStep(rest, line, bad);
    NothingAppended(rest);
  }

  lemma {:induction false} DisablingIsDeleting(lines: seq<Line>, identity: string, bad: set<string>)
    ensures Surviving(Candidates(lines), bad + {identity}) ==
            Surviving(Candidates(WithoutIdentity(lines, identity)), bad)
    decreases |lines|
  {
    if lines != [] {
      var front, line := lines[..|lines| - 1], lines[|lines| - 1];
      assert lines == front + [line];
      DisablingIsDeleting(front, identity, bad);
      DisablingStep(front, WithoutIdentity(front, identity), line, identity, bad);
      WithoutStep(front, line, identity);
    }
  }

  lemma {:induction false} WithoutMembers(lines: seq<Line>, identity: string, line: Line)
    ensures line in WithoutIdentity(lines, identity) <==>
            line in lines && !(line.Indexable? && line.entry.rule.identity == identity)
  {
    if lines != [] {
      WithoutMembers(lines[..|lines| - 1], identity, line);
      assert lines == lines[..|lines| - 1] + [lines[|lines| - 1]];
    }
  }

  lemma MarkersStay(lines: seq<Line>, identity: string)
    ensures Badfilters(WithoutIdentity(lines, identity)) == Badfilters(lines)
  {
    forall line ensures line in WithoutIdentity(lines, identity) && line.Marker? <==> line in lines && line.Marker? {
      WithoutMembers(lines, identity, line);
    }
  }

  lemma {:induction false} MarkerIsNoCandidate(a: seq<Line>, m: Line, b: seq<Line>)
    requires m.Marker?
    ensures Candidates(a + [m] + b) == Candidates(a + b)
    decreases |b|
  {
    if b == [] {
      assert a + [m] + b == a + [m] && a + b == a;
      LinesStep(a, m);
    } else {
      var front, line := b[..|b| - 1], b[|b| - 1];
      MarkerIsNoCandidate(a, m, front);
      assert a + [m] + b == a + [m] + front + [line] && a + b == a + front + [line];
      LinesStep(a + [m] + front, line);
      LinesStep(a + front, line);
    }
  }

  /** Adding a marker anywhere indexes exactly what deleting every rule of its identity does, so every
      verdict, its covering rule included, is the same. */
  lemma MarkerDeletesItsRules(a: seq<Line>, identity: string, b: seq<Line>)
    ensures Indexed(a + [Marker(identity)] + b) == Indexed(WithoutIdentity(a + b, identity))
  {
    var m := Marker(identity);
    MarkerIsNoCandidate(a, m, b);
    assert forall line :: line in a + [m] + b <==> line in a + b || line == m;
    assert Badfilters(a + [m] + b) == Badfilters(a + b) + {identity};
    DisablingIsDeleting(a + b, identity, Badfilters(a + b));
    MarkersStay(a + b, identity);
  }

  // ---------- rules that only modify ----------

  predicate IsModifyOnly(line: Line) {
    line.Indexable? && !line.entry.rule.isException && !line.entry.rule.contributesBlock
  }

  function WithoutModifyOnly(lines: seq<Line>): seq<Line> {
    if lines == [] then []
    else WithoutModifyOnly(lines[..|lines| - 1]) + if IsModifyOnly(lines[|lines| - 1]) then [] else [lines[|lines| - 1]]
  }

  lemma {:induction false} KeptMembers(lines: seq<Line>, line: Line)
    ensures line in WithoutModifyOnly(lines) <==> line in lines && !IsModifyOnly(line)
  {
    if lines != [] {
      KeptMembers(lines[..|lines| - 1], line);
      assert lines == lines[..|lines| - 1] + [lines[|lines| - 1]];
    }
  }

  lemma KeptBadfilters(lines: seq<Line>)
    ensures Badfilters(WithoutModifyOnly(lines)) == Badfilters(lines)
  {
    forall line ensures line in WithoutModifyOnly(lines) && line.Marker? <==> line in lines && line.Marker? {
      KeptMembers(lines, line);
    }
  }

  lemma KeptIndexed(lines: seq<Line>, e: Entry, level: nat)
    requires AtLevel(e.rule, level)
    ensures e in Indexed(WithoutModifyOnly(lines)) <==> e in Indexed(lines)
  {
    KeptBadfilters(lines);
    IndexedMembers(lines, e);
    IndexedMembers(WithoutModifyOnly(lines), e);
    KeptMembers(lines, Indexable(e));
  }

  lemma ActiveReachedHas(entries: seq<Entry>, place: Place, r: Request, ctx: Context, level: nat)
    ensures Has(Active(ReachedRules(entries, place, r), ctx), level) <==>
      exists e :: e in entries && Reached(e, place, r) && IsActive(e.rule, ctx) && AtLevel(e.rule, level)
  {
    var reached := ReachedRules(entries, place, r);
    forall rule ensures rule in Active(reached, ctx) <==> rule in reached && IsActive(rule, ctx) {
      ActiveMembers(reached, ctx, rule);
    }
    forall rule ensures rule in reached <==> exists e :: e in entries && Reached(e, place, r) && e.rule == rule {
      ReachedMembers(entries, place, r, rule);
    }
    if e :| e in entries && Reached(e, place, r) && IsActive(e.rule, ctx) && AtLevel(e.rule, level) {
      assert e.rule in Active(reached, ctx);
    }
  }

  lemma KeptHas(lines: seq<Line>, place: Place, r: Request, ctx: Context, level: nat)
    ensures Has(Active(ReachedRules(Indexed(lines), place, r), ctx), level) <==>
            Has(Active(ReachedRules(Indexed(WithoutModifyOnly(lines)), place, r), ctx), level)
  {
    ActiveReachedHas(Indexed(lines), place, r, ctx, level);
    ActiveReachedHas(Indexed(WithoutModifyOnly(lines)), place, r, ctx, level);
    forall e: Entry | AtLevel(e.rule, level) ensures e in Indexed(WithoutModifyOnly(lines)) <==> e in Indexed(lines) {
      KeptIndexed(lines, e, level);
    }
  }

  lemma SameLevelsSameAction(a: seq<Rule>, b: seq<Rule>)
    requires forall level :: Has(a, level) <==> Has(b, level)
    ensures ActionOf(a) == ActionOf(b)
  {
    ActionIsWinningLevel(a);
    ActionIsWinningLevel(b);
  }

  /** Deleting the rules that only modify, exceptions aside, never changes what happens to a request. */
  lemma ModifyOnlyNeverDecides(lines: seq<Line>, place: Place, url: string, engine: Engine, r: Request, ctx: Context)
    requires IsRequest(r, url, engine)
    ensures ActionOf(DecidingRules(Indexed(WithoutModifyOnly(lines)), place, url, r, ctx)) ==
            ActionOf(DecidingRules(Indexed(lines), place, url, r, ctx))
  {
    var all, kept := Indexed(lines), Indexed(WithoutModifyOnly(lines));
    DecidingIsReached(all, place, url, engine, r, ctx);
    DecidingIsReached(kept, place, url, engine, r, ctx);
    forall level
      ensures Has(DecidingRules(kept, place, url, r, ctx), level) <==>
              Has(DecidingRules(all, place, url, r, ctx), level)
    {
      KeptHas(lines, place, r, ctx, level);
      SameMembersHave(DecidingRules(all, place, url, r, ctx), Active(ReachedRules(all, place, r), ctx), level);
      SameMembersHave(DecidingRules(kept, place, url, r, ctx), Active(ReachedRules(kept, place, r), ctx), level);
    }
    SameLevelsSameAction(DecidingRules(kept, place, url, r, ctx), DecidingRules(all, place, url, r, ctx));
  }
}
