/** A hot list selected at share 1 gives every measured request the action the full list gave it. */
module HotListTheorems {
  import opened Text
  import opened Sorting
  import opened RequestRules
  import opened UrlTests
  import opened RequestIndex
  import opened RequestEvaluator
  import opened RequestRefinement
  import opened RequestTheorems
  import Ranking
  import Coverage
  import HotList

  // ---------- reading a list ----------

  /** The list parser, as a function value: what it stores for one line. */
  type Parser = string -> seq<Stored>

  /** What the parser stored for a line it stores again when given that line on its own. */
  ghost predicate IsStable(parse: Parser) {
    forall line, s :: s in parse(line) ==> parse(Trim(s.raw)) == [s]
  }

  function StoredOf(lines: seq<string>, parse: Parser): seq<Stored> {
    if lines == [] then [] else StoredOf(lines[..|lines| - 1], parse) + parse(lines[|lines| - 1])
  }

  function ReadList(lines: seq<string>, parse: Parser): seq<Line> {
    Lines(StoredOf(HotList.CleanLines(lines), parse))
  }

  lemma {:induction false} StoredMembers(lines: seq<string>, parse: Parser, s: Stored)
    ensures s in StoredOf(lines, parse) <==> exists line :: line in lines && s in parse(line)
  {
    if lines != [] {
      var front, last := lines[..|lines| - 1], lines[|lines| - 1];
      assert lines == front + [last];
      StoredMembers(front, parse, s);
      if s in parse(last) { assert last in lines; }
    }
  }

  lemma {:induction false} LinesMembers(stored: seq<Stored>, line: Line)
    ensures line in Lines(stored) <==> exists s :: s in stored && LineOf(s) == line
  {
    if stored != [] {
      var front, last := stored[..|stored| - 1], stored[|stored| - 1];
      assert stored == front + [last];
      LinesMembers(front, line);
      if LineOf(last) == line { assert last in stored; }
    }
  }

  /** The line a text reads as, alone. */
  ghost predicate ReadsAs(text: string, line: Line, parse: Parser) {
    exists s :: parse(text) == [s] && LineOf(s) == line
  }

  // ---------- an entry keeps the text of its line ----------

  lemma CompiledKeepsRaw(raw: string, isException: bool)
    ensures var c := Compile(raw, isException); c.Some? ==> c.value.entry.rule.raw == Trim(raw)
  {
  }

  lemma LineKeepsRaw(s: Stored)
    ensures LineOf(s).Indexable? ==> LineOf(s).entry.rule.raw == Trim(s.raw)
  {
    CompiledKeepsRaw(s.raw, s.isException);
  }

  // ---------- the covering rule of a decision ----------

  /** One request that was measured, and what the full list said. */
  datatype Measured = Measured(url: string, request: Request, ctx: Context, verdict: Verdict)

  ghost predicate WasDecided(m: Measured, lines: seq<Line>, place: Place, engine: Engine) {
    IsRequest(m.request, m.url, engine) &&
    IsDecision(m.verdict, DecidingRules(Indexed(lines), place, m.url, m.request, m.ctx))
  }

  function Found(entries: seq<Entry>, place: Place, m: Measured): seq<Rule> {
    Active(ReachedRules(entries, place, m.request), m.ctx)
  }

  lemma DecidedByFound(m: Measured, lines: seq<Line>, place: Place, engine: Engine)
    requires WasDecided(m, lines, place, engine)
    ensures IsDecision(m.verdict, Found(Indexed(lines), place, m))
  {
    DecidingIsReached(Indexed(lines), place, m.url, engine, m.request, m.ctx);
    SameMembersSameDecision(m.verdict, DecidingRules(Indexed(lines), place, m.url, m.request, m.ctx),
                            Found(Indexed(lines), place, m));
  }

  /** The entry is indexed, decides this request at this level, and is written `raw`. */
  ghost predicate IsWinner(e: Entry, entries: seq<Entry>, place: Place, m: Measured, level: nat, raw: string) {
    && e in entries && Reached(e, place, m.request)
    && IsActive(e.rule, m.ctx) && AtLevel(e.rule, level) && e.rule.raw == raw
  }

  lemma CoveringEntry(m: Measured, entries: seq<Entry>, place: Place, raw: string) returns (e: Entry)
    requires IsDecision(m.verdict, Found(entries, place, m)) && m.verdict.coveringRule == Some(raw)
    ensures IsWinner(e, entries, place, m, WinningLevel(Found(entries, place, m)), raw)
  {
    var level := WinningLevel(Found(entries, place, m));
    var rule :| rule in Found(entries, place, m) && AtLevel(rule, level) && rule.raw == raw;
    ActiveMembers(ReachedRules(entries, place, m.request), m.ctx, rule);
    ReachedMembers(entries, place, m.request, rule);
    e :| e in entries && Reached(e, place, m.request) && e.rule == rule;
  }

  /** A covering rule, read again on its own, is the same entry. */
  lemma CoveringLineReadsAs(source: seq<string>, parse: Parser, e: Entry)
    requires IsStable(parse) && e in Indexed(ReadList(source, parse))
    ensures ReadsAs(e.rule.raw, Indexable(e), parse)
  {
    var stored := StoredOf(HotList.CleanLines(source), parse);
    IndexedMembers(Lines(stored), e);
    LinesMembers(stored, Indexable(e));
    var s :| s in stored && LineOf(s) == Indexable(e);
    StoredMembers(HotList.CleanLines(source), parse, s);
    var line :| line in HotList.CleanLines(source) && s in parse(line);
    LineKeepsRaw(s);
    assert parse(Trim(s.raw)) == [s];
  }

  // ---------- the hot list ----------

  function HitsOf(trace: seq<Measured>): seq<Coverage.Hit> {
    if trace == [] then []
    else
      var v := trace[|trace| - 1].verdict;
      HitsOf(trace[..|trace| - 1]) +
      if v.action == Blocked && v.coveringRule.Some?
      then [Coverage.Hit(v.coveringRule.value, Ranking.Finite(1.0))]
      else []
  }

  function ExceptionsOf(trace: seq<Measured>): seq<string> {
    if trace == [] then []
    else
      var v := trace[|trace| - 1].verdict;
      ExceptionsOf(trace[..|trace| - 1]) +
      if v.action == Exception && v.coveringRule.Some? then [v.coveringRule.value] else []
  }

  ghost predicate IsCovering(x: string, trace: seq<Measured>, action: Action) {
    exists m :: m in trace && m.verdict.action == action && m.verdict.coveringRule == Some(x)
  }

  lemma OneMoreCovering(front: seq<Measured>, last: Measured, x: string, action: Action)
    ensures IsCovering(x, front + [last], action) <==>
            IsCovering(x, front, action) || (last.verdict.action == action && last.verdict.coveringRule == Some(x))
  {
    assert last in front + [last];
    if m :| m in front && m.verdict.action == action && m.verdict.coveringRule == Some(x) {
      assert m in front + [last];
    }
  }

  lemma HitAppended(hits: seq<Coverage.Hit>, raw: string, x: string)
    ensures Coverage.HitsOn(hits + [Coverage.Hit(raw, Ranking.Finite(1.0))], x) ==
            Coverage.HitsOn(hits, x) + if raw == x then 1 else 0
  {
    assert (hits + [Coverage.Hit(raw, Ranking.Finite(1.0))])[..|hits|] == hits;
    assert (1.0).Floor == 1;
  }

  lemma HitsStep(front: seq<Measured>, last: Measured, x: string)
    ensures Coverage.HitsOn(HitsOf(front + [last]), x) == Coverage.HitsOn(HitsOf(front), x) +
            if last.verdict.action == Blocked && last.verdict.coveringRule == Some(x) then 1 else 0
    ensures x in ExceptionsOf(front + [last]) <==>
            x in ExceptionsOf(front) || (last.verdict.action == Exception && last.verdict.coveringRule == Some(x))
  {
    assert (front + [last])[..|front|] == front;
    NothingAppended(HitsOf(front));
    if last.verdict.coveringRule.Some? { HitAppended(HitsOf(front), last.verdict.coveringRule.value, x); }
  }

  /** The hits of a trace are its blocks' covering rules, the exceptions those of its exceptions. */
  lemma {:induction false} HitsAreCovering(trace: seq<Measured>, x: string)
    ensures Coverage.HitsOn(HitsOf(trace), x) > 0 <==> IsCovering(x, trace, Blocked)
    ensures x in ExceptionsOf(trace) <==> IsCovering(x, trace, Exception)
  {
    if trace != [] {
      var front, last := trace[..|trace| - 1], trace[|trace| - 1];
      assert trace == front + [last];
      HitsAreCovering(front, x);
      OneMoreCovering(front, last, x, Blocked);
      OneMoreCovering(front, last, x, Exception);
      HitsStep(front, last, x);
    }
  }

  // ---------- the selection keeps every verdict ----------

  /** The lines are the covering rules of the trace that the source carries. */
  ghost predicate AreCoveringLines(hot: seq<string>, source: seq<string>, trace: seq<Measured>) {
    forall x :: x in hot <==>
                x in HotList.CleanLines(source) && (IsCovering(x, trace, Blocked) || IsCovering(x, trace, Exception))
  }

  /** What a selection at share 1 keeps of the hits and exceptions of a trace. */
  lemma SelectionIsCovering(source: seq<string>, trace: seq<Measured>, table: seq<Coverage.Tally>, hot: seq<string>)
    requires Coverage.IsTableOf(table, HitsOf(trace))
    requires hot == HotList.RulesIn(table, HotList.Available(source)) +
                    Sorted(HotList.ExceptionsIn(ExceptionsOf(trace), HotList.Available(source)))
    ensures AreCoveringLines(hot, source, trace)
  {
    forall x ensures x in hot <==>
      x in HotList.CleanLines(source) && (IsCovering(x, trace, Blocked) || IsCovering(x, trace, Exception))
    {
      HotList.SelectionIsWithinSource(source, table, ExceptionsOf(trace), x);
      HitsAreCovering(trace, x);
      InTable(table, HitsOf(trace), x);
    }
  }

  /** Selecting at share 1 from a trace keeps its covering rules, no more and no fewer. */
  method SelectFromTrace(source: seq<string>, ghost trace: seq<Measured>, hits: seq<Coverage.Hit>,
                         exceptions: seq<string>)
    returns (s: HotList.Selection)
    requires hits == HitsOf(trace) && exceptions == ExceptionsOf(trace)
    ensures AreCoveringLines(s.lines, source, trace) && s.dropped == []
  {
    ghost var table, keep;
    s, table, keep := HotList.SelectHotList(source, hits, exceptions, Some(1.0));
    HotList.FullShareKeepsAll(table, keep);
    assert table[..keep] == table && table[keep..] == [];
    SelectionIsCovering(source, trace, table, s.lines);
  }

  lemma InTable(table: seq<Coverage.Tally>, hits: seq<Coverage.Hit>, x: string)
    requires Coverage.IsTableOf(table, hits)
    ensures (exists t :: t in table && t.rule == x) <==> Coverage.HitsOn(hits, x) > 0
  {
    if Coverage.HitsOn(hits, x) > 0 { assert Ranking.Ranked(x, Coverage.HitsOn(hits, x), ()) in table; }
  }

  /** A line of the hot list reads as an entry the full list indexes. */
  ghost predicate ReadsAsIndexed(x: string, entries: seq<Entry>, parse: Parser) {
    exists e :: e in entries && e.rule.raw == x && ReadsAs(x, Indexable(e), parse)
  }

  lemma CoveringReadsAsIndexed(x: string, source: seq<string>, parse: Parser, place: Place, engine: Engine,
                               trace: seq<Measured>, action: Action)
    requires IsStable(parse) && IsCovering(x, trace, action)
    requires forall m :: m in trace ==> WasDecided(m, ReadList(source, parse), place, engine)
    ensures ReadsAsIndexed(x, Indexed(ReadList(source, parse)), parse)
  {
    var lines := ReadList(source, parse);
    var m :| m in trace && m.verdict.action == action && m.verdict.coveringRule == Some(x);
    DecidedByFound(m, lines, place, engine);
    var e := CoveringEntry(m, Indexed(lines), place, x);
    CoveringLineReadsAs(source, parse, e);
  }

  lemma HotLineIsTrimmed(x: string, source: seq<string>)
    requires x in HotList.CleanLines(source)
    ensures x != "" && Trim(x) == x
  {
    HotList.CleanMembers(source, x);
    var l :| l in source && Trim(l) == x;
    TrimIsTrimmed(l);
    TrimIsTrimmed(x);
  }

  /** The lines of the hot list, read back, are exactly the entries its texts read as. */
  lemma HotLines(hot: seq<string>, source: seq<string>, parse: Parser, line: Line)
    requires forall x :: x in hot ==> x in HotList.CleanLines(source)
    requires forall x :: x in hot ==> exists other :: ReadsAs(x, other, parse)
    ensures line in ReadList(hot, parse) <==> exists x :: x in hot && ReadsAs(x, line, parse)
  {
    var clean := HotList.CleanLines(hot);
    LinesMembers(StoredOf(clean, parse), line);
    forall x ensures x in clean <==> x in hot { HotClean(hot, source, x); }
    forall s ensures s in StoredOf(clean, parse) <==> exists x :: x in hot && s in parse(x) {
      StoredMembers(clean, parse, s);
    }
    if line in ReadList(hot, parse) {
      var s :| s in StoredOf(clean, parse) && LineOf(s) == line;
      var x :| x in hot && s in parse(x);
      var other :| ReadsAs(x, other, parse);
      assert ReadsAs(x, line, parse);
    }
    if x :| x in hot && ReadsAs(x, line, parse) {
      var s :| parse(x) == [s] && LineOf(s) == line;
      assert s in parse(x);
    }
  }

  lemma HotClean(hot: seq<string>, source: seq<string>, x: string)
    requires forall y :: y in hot ==> y in HotList.CleanLines(source)
    ensures x in HotList.CleanLines(hot) <==> x in hot
  {
    HotList.CleanMembers(hot, x);
    forall y | y in hot ensures y != "" && Trim(y) == y { HotLineIsTrimmed(y, source); }
  }

  lemma ReadsAsOne(x: string, a: Line, b: Line, parse: Parser)
    requires ReadsAs(x, a, parse) && ReadsAs(x, b, parse)
    ensures a == b
  {
  }

  /** The hot list indexes entries of the full list only, and every one its texts read as. */
  lemma HotEntries(hot: seq<string>, source: seq<string>, parse: Parser, full: seq<Entry>, e: Entry)
    requires forall x :: x in hot ==> x in HotList.CleanLines(source) && ReadsAsIndexed(x, full, parse)
    ensures e in Indexed(ReadList(hot, parse)) ==> e in full
    ensures (exists x :: x in hot && ReadsAs(x, Indexable(e), parse)) ==> e in Indexed(ReadList(hot, parse))
  {
    var lines := ReadList(hot, parse);
    forall x | x in hot ensures exists other :: ReadsAs(x, other, parse) {
      assert ReadsAsIndexed(x, full, parse);
    }
    HotHasNoMarkers(hot, source, parse, full);
    HotLines(hot, source, parse, Indexable(e));
    IndexedMembers(lines, e);
    if e in Indexed(lines) {
      var x :| x in hot && ReadsAs(x, Indexable(e), parse);
      assert ReadsAsIndexed(x, full, parse);
      var f :| f in full && f.rule.raw == x && ReadsAs(x, Indexable(f), parse);
      ReadsAsOne(x, Indexable(e), Indexable(f), parse);
    }
  }

  lemma HotHasNoMarkers(hot: seq<string>, source: seq<string>, parse: Parser, full: seq<Entry>)
    requires forall x :: x in hot ==> x in HotList.CleanLines(source) && ReadsAsIndexed(x, full, parse)
    ensures Badfilters(ReadList(hot, parse)) == {}
  {
    forall x | x in hot ensures exists other :: ReadsAs(x, other, parse) {
      assert ReadsAsIndexed(x, full, parse);
    }
    forall line | line in ReadList(hot, parse) ensures !line.Marker? {
      HotLines(hot, source, parse, line);
      var x :| x in hot && ReadsAs(x, line, parse);
      assert ReadsAsIndexed(x, full, parse);
      var f :| f in full && f.rule.raw == x && ReadsAs(x, Indexable(f), parse);
      ReadsAsOne(x, line, Indexable(f), parse);
    }
  }

  /** Fewer entries that still hold the winner decide the same action. */
  lemma FewerEntriesSameAction(full: seq<Entry>, fewer: seq<Entry>, place: Place, m: Measured)
    requires forall e :: e in fewer ==> e in full
    requires IsDecision(m.verdict, Found(full, place, m))
    requires m.verdict.coveringRule.Some? ==>
      exists e ::
        e in fewer && IsWinner(e, full, place, m, WinningLevel(Found(full, place, m)), m.verdict.coveringRule.value)
    ensures ActionOf(Found(fewer, place, m)) == m.verdict.action
  {
    var mine, its := Found(fewer, place, m), Found(full, place, m);
    forall level: nat | Has(mine, level) ensures Has(its, level) {
      ActiveReachedHas(fewer, place, m.request, m.ctx, level);
      ActiveReachedHas(full, place, m.request, m.ctx, level);
    }
    ActionIsWinningLevel(mine);
    ActionIsWinningLevel(its);
    if m.verdict.coveringRule.Some? {
      var level := WinningLevel(its);
      ActiveReachedHas(fewer, place, m.request, m.ctx, level);
      assert Has(mine, level);
    }
  }

  /** A hot list selected at share 1 from the covering rules of a trace gives every request of the trace
      the action the full list gave it, whenever each covering rule is a line of the full list. */
  lemma HotListKeepsActions(source: seq<string>, parse: Parser, place: Place, engine: Engine, trace: seq<Measured>,
                            hot: seq<string>, m: Measured)
    requires IsStable(parse) && AreCoveringLines(hot, source, trace) && m in trace
    requires forall n :: n in trace ==> WasDecided(n, ReadList(source, parse), place, engine)
    requires m.verdict.coveringRule.Some? ==> m.verdict.coveringRule.value in HotList.CleanLines(source)
    ensures ActionOf(DecidingRules(Indexed(ReadList(hot, parse)), place, m.url, m.request, m.ctx)) == m.verdict.action
  {
    var full, kept := Indexed(ReadList(source, parse)), Indexed(ReadList(hot, parse));
    forall x | x in hot ensures ReadsAsIndexed(x, full, parse) {
      CoveringReadsAsIndexed(x, source, parse, place, engine, trace,
                             if IsCovering(x, trace, Blocked) then Blocked else Exception);
    }
    forall e ensures e in kept ==> e in full { HotEntries(hot, source, parse, full, e); }
    DecidedByFound(m, ReadList(source, parse), place, engine);
    if m.verdict.coveringRule.Some? {
      WinnerIsKept(source, parse, place, full, trace, hot, m);
    }
    FewerEntriesSameAction(full, kept, place, m);
    DecidingIsReached(kept, place, m.url, engine, m.request, m.ctx);
    SameMembersSameAction(DecidingRules(kept, place, m.url, m.request, m.ctx), Found(kept, place, m));
  }

  lemma WinnerIsKept(source: seq<string>, parse: Parser, place: Place, full: seq<Entry>, trace: seq<Measured>,
                     hot: seq<string>, m: Measured)
    requires IsStable(parse) && AreCoveringLines(hot, source, trace) && m in trace
    requires full == Indexed(ReadList(source, parse)) && IsDecision(m.verdict, Found(full, place, m))
    requires m.verdict.coveringRule.Some? && m.verdict.coveringRule.value in HotList.CleanLines(source)
    requires forall x :: x in hot ==> x in HotList.CleanLines(source) && ReadsAsIndexed(x, full, parse)
    ensures exists e ::
      e in Indexed(ReadList(hot, parse)) &&
      IsWinner(e, full, place, m, WinningLevel(Found(full, place, m)), m.verdict.coveringRule.value)
  {
    var raw := m.verdict.coveringRule.value;
    var e := CoveringEntry(m, full, place, raw);
    CoveringLineReadsAs(source, parse, e);
    CoveredIsDecided(m.verdict, Found(full, place, m));
    assert IsCovering(raw, trace, m.verdict.action);
    assert raw in hot;
    HotEntries(hot, source, parse, full, e);
  }

  lemma CoveredIsDecided(v: Verdict, active: seq<Rule>)
    requires IsDecision(v, active) && v.coveringRule.Some?
    ensures v.action == Blocked || v.action == Exception
  {
    ActionIsWinningLevel(active);
  }
}
