/** Building the evaluator from a parsed list, and the verdict it gives one request. */
module RequestEvaluator {
  import opened Text
  import opened RequestRules
  import opened UrlTests
  import opened RequestIndex

  // ---------- pass one and pass two ----------

  /** What the first pass makes of one stored line. */
  datatype Line = Skipped | Marker(identity: string) | Indexable(entry: Entry)

  function LineFrom(compiled: Option<Compiled>): Line {
    match compiled
    case None => Skipped
    case Some(c) => if c.isBadfilter then Marker(c.entry.rule.identity) else Indexable(c.entry)
  }

  function LineOf(s: Stored): Line {
    if s.kind in REQUEST_RULE_TYPES then LineFrom(Compile(s.raw, s.isException)) else Skipped
  }

  function Lines(stored: seq<Stored>): seq<Line> {
    if stored == [] then [] else Lines(stored[..|stored| - 1]) + [LineOf(stored[|stored| - 1])]
  }

  function Badfilters(lines: seq<Line>): set<string> {
    set line | line in lines && line.Marker? :: line.identity
  }

  function Candidates(lines: seq<Line>): seq<Entry> {
    if lines == [] then []
    else
      var line := lines[|lines| - 1];
      Candidates(lines[..|lines| - 1]) + if line.Indexable? then [line.entry] else []
  }

  function Surviving(entries: seq<Entry>, bad: set<string>): seq<Entry> {
    if entries == [] then []
    else
      var e := entries[|entries| - 1];
      Surviving(entries[..|entries| - 1], bad) + if e.rule.identity in bad then [] else [e]
  }

  /** The rules a list indexes: every rule whose identity no marker names. */
  function Indexed(lines: seq<Line>): seq<Entry> {
    Surviving(Candidates(lines), Badfilters(lines))
  }

  function CountPlaced(entries: seq<Entry>, place: Place): nat {
    if entries == [] then 0
    else
      CountPlaced(entries[..|entries| - 1], place) +
      if place.slot(entries[|entries| - 1]) == Nowhere then 0 else 1
  }

  lemma AllEntries<T>(s: seq<T>)
    ensures s[..|s|] == s
  {
  }

  lemma PrefixStep<T>(s: seq<T>, k: nat)
    requires k < |s|
    ensures s[..k + 1] == s[..k] + [s[k]] && s[..k + 1][..k] == s[..k]
  {
  }

  lemma LinesStep(lines: seq<Line>, line: Line)
    ensures Candidates(lines + [line]) == Candidates(lines) + if line.Indexable? then [line.entry] else []
    ensures Badfilters(lines + [line]) == Badfilters(lines) + if line.Marker? then {line.identity} else {}
  {
    assert (lines + [line])[..|lines|] == lines;
    assert forall x :: x in lines + [line] <==> x in lines || x == line;
  }

  method ReadLine(s: Stored) returns (line: Line)
    ensures line == LineOf(s)
  {
    if s.kind !in REQUEST_RULE_TYPES { return Skipped; }
    var compiled := CompileRule(s.raw, s.isException);
    line := LineFrom(compiled);
  }

  method AddLine(before: seq<Entry>, badBefore: set<string>, line: Line, ghost lines: seq<Line>)
      returns (entries: seq<Entry>, bad: set<string>)
    requires before == Candidates(lines) && badBefore == Badfilters(lines)
    ensures entries == Candidates(lines + [line]) && bad == Badfilters(lines + [line])
  {
    LinesStep(lines, line);
    entries, bad := before, badBefore;
    match line {
      case Skipped =>
      case Marker(identity) => bad := bad + {identity};
      case Indexable(entry) => entries := entries + [entry];
    }
  }

  lemma OneMoreLine(stored: seq<Stored>, k: nat)
    requires k < |stored|
    ensures Lines(stored[..k + 1]) == Lines(stored[..k]) + [LineOf(stored[k])]
  {
    PrefixStep(stored, k);
  }

  method CompileAll(stored: seq<Stored>) returns (entries: seq<Entry>, bad: set<string>)
    ensures entries == Candidates(Lines(stored)) && bad == Badfilters(Lines(stored))
  {
    entries, bad := [], {};
    for k := 0 to |stored|
      invariant entries == Candidates(Lines(stored[..k])) && bad == Badfilters(Lines(stored[..k]))
    {
      OneMoreLine(stored, k);
      var line := ReadLine(stored[k]);
      entries, bad := AddLine(entries, bad, line, Lines(stored[..k]));
    }
    AllEntries(stored);
  }

  lemma EmptyIndex(place: Place)
    ensures IsIndex(EMPTY, [], place) && Size(EMPTY) == 0
  {
  }

  lemma SurvivingStep(entries: seq<Entry>, k: nat, bad: set<string>)
    requires k < |entries|
    ensures Surviving(entries[..k + 1], bad) ==
            if entries[k].rule.identity in bad then Surviving(entries[..k], bad)
            else Surviving(entries[..k], bad) + [entries[k]]
  {
    PrefixStep(entries, k);
  }

  lemma CountStep(entries: seq<Entry>, e: Entry, place: Place)
    ensures CountPlaced(entries + [e], place) == CountPlaced(entries, place) + if place.slot(e) == Nowhere then 0 else 1
  {
    assert (entries + [e])[..|entries|] == entries;
  }

  method CreateRequestEvaluator(stored: seq<Stored>, engine: Engine, ghost place: Place)
    returns (ix: Index, size: nat)
    requires IsPlace(place, engine)
    ensures IsIndex(ix, Indexed(Lines(stored)), place)
    ensures size == CountPlaced(Indexed(Lines(stored)), place)
  {
    var entries, bad := CompileAll(stored);
    ix := EMPTY;
    EmptyIndex(place);
    for k := 0 to |entries|
      invariant IsIndex(ix, Surviving(entries[..k], bad), place)
      invariant Size(ix) == CountPlaced(Surviving(entries[..k], bad), place)
    {
      SurvivingStep(entries, k, bad);
      if entries[k].rule.identity in bad { continue; }
      ghost var before := Surviving(entries[..k], bad);
      CountStep(before, entries[k], place);
      assert Seen(entries[k]);
      ix := AddEntry(ix, entries[k], engine, place, before);
    }
    AllEntries(entries);
    size := SizeOf(ix);
  }

  // ---------- collecting the matching rules ----------

  /** The host and every parent of it, each with its block and exception slot. */
  function WalkVisits(candidate: string): seq<Slot>
    decreases |candidate|
  {
    var dot := IndexOf(candidate, '.', 0);
    [HostBlock(candidate), HostException(candidate)] + if dot < 0 then [] else WalkVisits(candidate[dot + 1..])
  }

  function HostVisits(host: Option<string>): seq<Slot> {
    if host.None? then []
    else [ExactBlock(host.value), ExactException(host.value)] + WalkVisits(host.value)
  }

  function TokenVisits(order: seq<string>, haystack: string): seq<Slot> {
    if order == [] then []
    else
      TokenVisits(order[..|order| - 1], haystack) +
      if Contains(haystack, order[|order| - 1]) then [Token(order[|order| - 1])] else []
  }

  /** The slots one request consults, in order. */
  function Visits(order: seq<string>, url: string): seq<Slot> {
    HostVisits(RequestHost(url)) + TokenVisits(order, Lower(url)) + [Residue]
  }

  /** Which tests a URL passes, as a function value. */
  predicate Tried(test: UrlTest) {
    true
  }

  ghost predicate IsProbe(passes: UrlTest -> bool, url: string, engine: Engine) {
    forall test {:trigger Tried(test)} :: passes(test) == Passes(test, url, engine)
  }

  lemma ProbeOf(url: string, engine: Engine) returns (passes: UrlTest -> bool)
    ensures IsProbe(passes, url, engine)
  {
    passes := test => Passes(test, url, engine);
  }

  function Passing(scanned: seq<Scanned>, passes: UrlTest -> bool): seq<Rule> {
    if scanned == [] then []
    else
      var last := scanned[|scanned| - 1];
      Passing(scanned[..|scanned| - 1], passes) + if passes(last.test) then [last.rule] else []
  }

  /** What one request sees of an indexed list. */
  datatype View = View(entries: seq<Entry>, place: Place, passes: UrlTest -> bool)

  /** The rules found at one slot. */
  function FoundAt(view: View, slot: Slot): seq<Rule> {
    if IsScan(slot) then Passing(ScannedAt(view.entries, slot, view.place), view.passes)
    else RulesAt(view.entries, slot, view.place)
  }

  function Gather(view: View, visits: seq<Slot>): seq<Rule> {
    if visits == [] then []
    else Gather(view, visits[..|visits| - 1]) + FoundAt(view, visits[|visits| - 1])
  }

  lemma GatherAppend(view: View, visits: seq<Slot>, slot: Slot)
    ensures Gather(view, visits + [slot]) == Gather(view, visits) + FoundAt(view, slot)
  {
    assert (visits + [slot])[..|visits|] == visits;
  }

  method PassingRules(scanned: seq<Scanned>, url: string, engine: Engine, ghost passes: UrlTest -> bool)
    returns (rules: seq<Rule>)
    requires IsProbe(passes, url, engine)
    ensures rules == Passing(scanned, passes)
  {
    rules := [];
    for k := 0 to |scanned|
      invariant rules == Passing(scanned[..k], passes)
    {
      PrefixStep(scanned, k);
      assert Tried(scanned[k].test);
      if Passes(scanned[k].test, url, engine) { rules := rules + [scanned[k].rule]; }
    }
    AllEntries(scanned);
  }

  method VisitHost(m: map<string, seq<Rule>>, kind: HostMap, host: string, found: seq<Rule>, ghost view: View,
                   ghost before: seq<Slot>)
    returns (matched: seq<Rule>)
    requires IsHostMap(m, kind, view.entries, view.place) && found == Gather(view, before)
    ensures matched == Gather(view, before + [Key(kind, host)])
  {
    matched := found + Get(m, host);
    GatherAppend(view, before, Key(kind, host));
  }

  /** Exact names first, then the host and each of its parents. */
  method WalkHost(ix: Index, host: string, ghost view: View) returns (matched: seq<Rule>)
    requires IsIndex(ix, view.entries, view.place)
    ensures matched == Gather(view, HostVisits(Some(host)))
  {
    matched := VisitHost(ix.exactBlocks, ExactBlocks, host, [], view, []);
    assert [] + [ExactBlock(host)] == [ExactBlock(host)];
    matched := VisitHost(ix.exactExceptions, ExactExceptions, host, matched, view, [ExactBlock(host)]);
    assert [ExactBlock(host)] + [ExactException(host)] == [ExactBlock(host), ExactException(host)];
    matched := WalkLabels(ix, host, matched, view, [ExactBlock(host), ExactException(host)]);
  }

  method WalkLabels(ix: Index, host: string, found: seq<Rule>, ghost view: View, ghost before: seq<Slot>)
    returns (matched: seq<Rule>)
    requires IsIndex(ix, view.entries, view.place) && found == Gather(view, before)
    ensures matched == Gather(view, before + WalkVisits(host))
  {
    matched := found;
    ghost var visits := before;
    ghost var rest := WalkVisits(host);
    var candidate := host;
    while true
      invariant visits + rest == before + WalkVisits(host)
      invariant rest == WalkVisits(candidate)
      invariant matched == Gather(view, visits)
      decreases |candidate|
    {
      ghost var next := Parents(candidate);
      WalkStep(visits, candidate);
      matched := VisitHost(ix.hostBlocks, HostBlocks, candidate, matched, view, visits);
      visits := visits + [HostBlock(candidate)];
      matched := VisitHost(ix.hostExceptions, HostExceptions, candidate, matched, view, visits);
      visits := visits + [HostException(candidate)];
      rest := next;
      var dot := IndexOf(candidate, '.', 0);
      if dot < 0 { break; }
      candidate := candidate[dot + 1..];
    }
    assert visits + [] == visits;
  }

  function Parents(candidate: string): seq<Slot> {
    var dot := IndexOf(candidate, '.', 0);
    if dot < 0 then [] else WalkVisits(candidate[dot + 1..])
  }

  lemma WalkStep(visits: seq<Slot>, candidate: string)
    ensures visits + WalkVisits(candidate) ==
            visits + [HostBlock(candidate)] + [HostException(candidate)] + Parents(candidate)
  {
    assert WalkVisits(candidate) == [HostBlock(candidate), HostException(candidate)] + Parents(candidate);
  }

  lemma TokenStep(order: seq<string>, k: nat, haystack: string)
    requires k < |order|
    ensures TokenVisits(order[..k + 1], haystack) ==
            TokenVisits(order[..k], haystack) + if Contains(haystack, order[k]) then [Token(order[k])] else []
  {
    PrefixStep(order, k);
  }

  method VisitToken(ix: Index, token: string, url: string, engine: Engine, ghost view: View, ghost before: seq<Slot>,
                    found: seq<Rule>)
    returns (matched: seq<Rule>)
    requires IsTokenMap(ix.scanTokens, ix.tokenOrder, view.entries, view.place) && IsProbe(view.passes, url, engine)
    requires found == Gather(view, before)
    ensures matched == Gather(view, before + [Token(token)])
  {
    var passing := PassingRules(Get(ix.scanTokens, token), url, engine, view.passes);
    GatherAppend(view, before, Token(token));
    matched := found + passing;
  }

  method ScanTokenLists(ix: Index, url: string, engine: Engine, ghost view: View, ghost before: seq<Slot>,
                        found: seq<Rule>)
    returns (matched: seq<Rule>)
    requires IsTokenMap(ix.scanTokens, ix.tokenOrder, view.entries, view.place) && IsProbe(view.passes, url, engine)
    requires found == Gather(view, before)
    ensures matched == Gather(view, before + TokenVisits(ix.tokenOrder, Lower(url)))
  {
    matched := found;
    var haystack := Lower(url);
    var order := ix.tokenOrder;
    ghost var visits := before;
    for k := 0 to |order|
      invariant visits == before + TokenVisits(order[..k], haystack)
      invariant matched == Gather(view, visits)
    {
      TokenStep(order, k, haystack);
      var token := order[k];
      if !Contains(haystack, token) { continue; }
      matched := VisitToken(ix, token, url, engine, view, visits, matched);
      visits := visits + [Token(token)];
    }
    AllEntries(order);
  }

  method Collect(ix: Index, url: string, engine: Engine, ghost view: View) returns (matched: seq<Rule>)
    requires IsIndex(ix, view.entries, view.place) && IsProbe(view.passes, url, engine)
    ensures matched == Gather(view, Visits(ix.tokenOrder, url))
  {
    matched := [];
    var host := RequestHost(url);
    if host.Some? {
      matched := WalkHost(ix, host.value, view);
    }
    ghost var hostVisits := HostVisits(host);
    matched := ScanTokenLists(ix, url, engine, view, hostVisits, matched);
    matched := VisitResidue(ix, url, engine, view, hostVisits + TokenVisits(ix.tokenOrder, Lower(url)), matched);
  }

  method VisitResidue(ix: Index, url: string, engine: Engine, ghost view: View, ghost before: seq<Slot>,
                      found: seq<Rule>)
    returns (matched: seq<Rule>)
    requires ix.scanResidue == ScannedAt(view.entries, Residue, view.place) && IsProbe(view.passes, url, engine)
    requires found == Gather(view, before)
    ensures matched == Gather(view, before + [Residue])
  {
    var passing := PassingRules(ix.scanResidue, url, engine, view.passes);
    GatherAppend(view, before, Residue);
    matched := found + passing;
  }

  // ---------- the verdict ----------

  datatype Action = Blocked | Exception | Allowed

  datatype RemoveParams = All | Names(names: seq<string>)

  datatype Verdict = Verdict(
    action: Action,
    coveringRule: Option<string>,
    removeParams: RemoveParams,
    keepParams: seq<string>,
    removeHeaders: seq<string>,
    csp: seq<string>)

  /** The four levels a winner is sought at, strongest first. */
  predicate AtLevel(rule: Rule, level: nat) {
    if level == 0 then rule.isException && rule.isImportant
    else if level == 1 then !rule.isException && rule.isImportant && rule.contributesBlock
    else if level == 2 then rule.isException
    else !rule.isException && rule.contributesBlock
  }

  function FirstAt(active: seq<Rule>, level: nat): Option<Rule> {
    if active == [] then None
    else if AtLevel(active[0], level) then Some(active[0])
    else FirstAt(active[1..], level)
  }

  function Winner(active: seq<Rule>): Option<Rule> {
    if FirstAt(active, 0).Some? then FirstAt(active, 0)
    else if FirstAt(active, 1).Some? then FirstAt(active, 1)
    else if FirstAt(active, 2).Some? then FirstAt(active, 2)
    else FirstAt(active, 3)
  }

  function ActionOf(active: seq<Rule>): Action {
    match Winner(active)
    case None => Allowed
    case Some(rule) => if rule.isException then Exception else Blocked
  }

  function Active(matched: seq<Rule>, ctx: Context): seq<Rule> {
    if matched == [] then []
    else (if IsActive(matched[0], ctx) then [matched[0]] else []) + Active(matched[1..], ctx)
  }

  /** One thing a rule can say about a request's transforms. */
  datatype Fact =
    | AllParams
    | Param(name: string)
    | KeptParam(name: string)
    | AllHeaders
    | Header(name: string)
    | AllPolicies
    | Policy(text: string)

  predicate Says(r: Rule, fact: Fact) {
    match fact
    case AllParams => r.removeAllParams
    case Param(name) => name in r.removeParamNames
    case KeptParam(name) => name in r.keepParamNames
    case AllHeaders => r.removeAllHeaders
    case Header(name) => name in r.removeHeaders
    case AllPolicies => r.hasCspModifier && r.csp == []
    case Policy(text) => text in r.csp && (r.isException ==> r.hasCspModifier)
  }

  /** Some matching exception (or some other matching rule) says it. */
  ghost predicate Said(active: seq<Rule>, byException: bool, fact: Fact) {
    exists r :: r in active && r.isException == byException && Says(r, fact)
  }

  ghost predicate IsRemoveParams(p: RemoveParams, active: seq<Rule>) {
    if Said(active, true, AllParams) then p == Names([])
    else if Said(active, false, AllParams) then p == All
    else p.Names? &&
         forall x :: x in p.names <==> Said(active, false, Param(x)) && !Said(active, true, Param(x))
  }

  ghost predicate IsKeepParams(keep: seq<string>, active: seq<Rule>) {
    forall x :: x in keep <==> !Said(active, true, AllParams) && Said(active, false, KeptParam(x))
  }

  ghost predicate IsRemoveHeaders(headers: seq<string>, active: seq<Rule>) {
    forall x :: x in headers <==>
      !Said(active, true, AllHeaders) && Said(active, false, Header(x)) && !Said(active, true, Header(x))
  }

  ghost predicate IsCsp(csp: seq<string>, active: seq<Rule>) {
    forall x :: x in csp <==>
      !Said(active, true, AllPolicies) && Said(active, false, Policy(x)) && !Said(active, true, Policy(x))
  }

  ghost predicate IsVerdict(v: Verdict, active: seq<Rule>) {
    && v.action == ActionOf(active)
    && v.coveringRule == (if Winner(active).Some? then Some(Winner(active).value.raw) else None)
    && IsRemoveParams(v.removeParams, active)
    && IsKeepParams(v.keepParams, active)
    && IsRemoveHeaders(v.removeHeaders, active)
    && IsCsp(v.csp, active)
  }

  /** What the loop over the active rules has gathered: what is contributed, and what is suppressed. */
  datatype Sums = Sums(
    removeAll: bool, suppressAll: bool,
    params: seq<string>, suppressedParams: seq<string>, kept: seq<string>,
    suppressHeaders: bool, headers: seq<string>, suppressedHeaders: seq<string>,
    suppressCsp: bool, policies: seq<string>, suppressedPolicies: seq<string>)

  ghost predicate IsContributed(t: Sums, active: seq<Rule>) {
    && t.removeAll == Said(active, false, AllParams)
    && (forall x :: x in t.params <==> Said(active, false, Param(x)))
    && (forall x :: x in t.kept <==> Said(active, false, KeptParam(x)))
    && (forall x :: x in t.headers <==> Said(active, false, Header(x)))
    && (forall x :: x in t.policies <==> Said(active, false, Policy(x)))
  }

  ghost predicate IsSuppressed(t: Sums, active: seq<Rule>) {
    && t.suppressAll == Said(active, true, AllParams)
    && t.suppressHeaders == Said(active, true, AllHeaders)
    && t.suppressCsp == Said(active, true, AllPolicies)
    && (forall x :: x in t.suppressedParams <==> Said(active, true, Param(x)))
    && (forall x :: x in t.suppressedHeaders <==> Said(active, true, Header(x)))
    && (forall x :: x in t.suppressedPolicies <==> Said(active, true, Policy(x)))
  }

  ghost predicate IsSums(t: Sums, active: seq<Rule>) {
    IsContributed(t, active) && IsSuppressed(t, active)
  }

  lemma SaidStep(active: seq<Rule>, r: Rule, byException: bool, fact: Fact)
    ensures Said(active + [r], byException, fact) <==>
            Said(active, byException, fact) || (r.isException == byException && Says(r, fact))
  {
    if q :| q in active + [r] && q.isException == byException && Says(q, fact) {
      assert q in active || q == r;
    }
    if q :| q in active && q.isException == byException && Says(q, fact) {
      assert q in active + [r];
    }
    assert r in active + [r];
  }

  /** `Set.add` for each name. */
  method AddAll(before: seq<string>, names: seq<string>) returns (after: seq<string>)
    ensures forall x :: x in after <==> x in before || x in names
  {
    after := before;
    for k := 0 to |names|
      invariant forall x :: x in after <==> x in before || x in names[..k]
    {
      PrefixStep(names, k);
      if names[k] !in after { after := after + [names[k]]; }
    }
    AllEntries(names);
  }

  /** The names that nothing suppresses. */
  method Unsuppressed(names: seq<string>, suppressed: seq<string>) returns (left: seq<string>)
    ensures forall x :: x in left <==> x in names && x !in suppressed
  {
    left := [];
    for k := 0 to |names|
      invariant forall x :: x in left <==> x in names[..k] && x !in suppressed
    {
      PrefixStep(names, k);
      if names[k] !in suppressed { left := left + [names[k]]; }
    }
    AllEntries(names);
  }

  lemma SaidSteps(active: seq<Rule>, rule: Rule, byException: bool)
    ensures forall fact :: Said(active + [rule], byException, fact) <==>
      Said(active, byException, fact) || (rule.isException == byException && Says(rule, fact))
  {
    forall fact ensures Said(active + [rule], byException, fact) <==>
      Said(active, byException, fact) || (rule.isException == byException && Says(rule, fact))
    {
      SaidStep(active, rule, byException, fact);
    }
  }

  /** A rule only speaks for its own side: the other side's facts stay as they were. */
  method SumRule(before: Sums, rule: Rule, ghost active: seq<Rule>) returns (t: Sums)
    requires IsSums(before, active)
    ensures IsSums(t, active + [rule])
  {
    SaidSteps(active, rule, true);
    SaidSteps(active, rule, false);
    if rule.isException {
      t := SumException(before, rule, active);
    } else {
      t := SumBlock(before, rule, active);
    }
  }

  method SumException(before: Sums, rule: Rule, ghost active: seq<Rule>) returns (t: Sums)
    requires IsSuppressed(before, active) && rule.isException
    requires forall fact :: Said(active + [rule], true, fact) <==> Said(active, true, fact) || Says(rule, fact)
    ensures IsSuppressed(t, active + [rule])
    ensures t == before.(suppressAll := t.suppressAll, suppressedParams := t.suppressedParams,
                         suppressHeaders := t.suppressHeaders, suppressedHeaders := t.suppressedHeaders,
                         suppressCsp := t.suppressCsp, suppressedPolicies := t.suppressedPolicies)
  {
    var params := AddAll(before.suppressedParams, rule.removeParamNames);
    var headers := AddAll(before.suppressedHeaders, rule.removeHeaders);
    var policies := before.suppressedPolicies;
    var suppressCsp := before.suppressCsp;
    if rule.hasCspModifier {
      if rule.csp == [] {
        suppressCsp := true;
      } else {
        policies := AddAll(policies, rule.csp);
      }
    }
    t := before.(suppressAll := before.suppressAll || rule.removeAllParams, suppressedParams := params,
                 suppressHeaders := before.suppressHeaders || rule.removeAllHeaders, suppressedHeaders := headers,
                 suppressCsp := suppressCsp, suppressedPolicies := policies);
  }

  method SumBlock(before: Sums, rule: Rule, ghost active: seq<Rule>) returns (t: Sums)
    requires IsContributed(before, active) && !rule.isException
    requires forall fact :: Said(active + [rule], false, fact) <==> Said(active, false, fact) || Says(rule, fact)
    ensures IsContributed(t, active + [rule])
    ensures t == before.(removeAll := t.removeAll, params := t.params, kept := t.kept, headers := t.headers,
                         policies := t.policies)
  {
    var params := AddAll(before.params, rule.removeParamNames);
    var kept := AddAll(before.kept, rule.keepParamNames);
    var headers := AddAll(before.headers, rule.removeHeaders);
    var policies := AddAll(before.policies, rule.csp);
    t := before.(removeAll := before.removeAll || rule.removeAllParams, params := params, kept := kept,
                 headers := headers, policies := policies);
  }

  method FindFirst(active: seq<Rule>, level: nat) returns (r: Option<Rule>)
    ensures r == FirstAt(active, level)
  {
    for k := 0 to |active|
      invariant FirstAt(active[k..], level) == FirstAt(active, level)
    {
      assert active[k..][0] == active[k] && active[k..][1..] == active[k + 1..];
      if AtLevel(active[k], level) { return Some(active[k]); }
    }
    r := None;
  }

  method FindWinner(active: seq<Rule>) returns (r: Option<Rule>)
    ensures r == Winner(active)
  {
    r := FindFirst(active, 0);
    if r.None? { r := FindFirst(active, 1); }
    if r.None? { r := FindFirst(active, 2); }
    if r.None? { r := FindFirst(active, 3); }
  }

  method SumTransforms(active: seq<Rule>) returns (t: Sums)
    ensures IsSums(t, active)
  {
    t := Sums(false, false, [], [], [], false, [], [], false, [], []);
    for k := 0 to |active|
      invariant IsSums(t, active[..k])
    {
      PrefixStep(active, k);
      t := SumRule(t, active[k], active[..k]);
    }
    AllEntries(active);
  }

  method FilterActive(matched: seq<Rule>, ctx: Context) returns (active: seq<Rule>)
    ensures active == Active(matched, ctx)
  {
    active := [];
    for k := 0 to |matched|
      invariant active + Active(matched[k..], ctx) == Active(matched, ctx)
    {
      assert matched[k..][0] == matched[k] && matched[k..][1..] == matched[k + 1..];
      if IsActive(matched[k], ctx) { active := active + [matched[k]]; }
    }
  }

  function Clamped(url: string): string {
    if |url| > MAX_URL_LENGTH then url[..MAX_URL_LENGTH] else url
  }

  /** The rules that decide one request: found through the index, with their conditions met. */
  function Deciding(view: View, order: seq<string>, url: string, ctx: Context): seq<Rule> {
    Active(Gather(view, Visits(order, url)), ctx)
  }

  method Evaluate(ix: Index, rawUrl: string, ctx: Context, engine: Engine, ghost view: View) returns (v: Verdict)
    requires IsIndex(ix, view.entries, view.place) && IsProbe(view.passes, Clamped(rawUrl), engine)
    ensures IsVerdict(v, Deciding(view, ix.tokenOrder, Clamped(rawUrl), ctx))
  {
    var url := Clamped(rawUrl);
    var matched := Collect(ix, url, engine, view);
    var active := FilterActive(matched, ctx);
    v := Decide(active);
  }

  method Decide(active: seq<Rule>) returns (v: Verdict)
    ensures IsVerdict(v, active)
  {
    var t := SumTransforms(active);
    var winner := FindWinner(active);
    var csp := Unsuppressed(t.policies, t.suppressedPolicies);
    if t.suppressCsp { csp := []; }
    var params := Unsuppressed(t.params, t.suppressedParams);
    var headers := Unsuppressed(t.headers, t.suppressedHeaders);
    if t.suppressHeaders { headers := []; }
    v := Verdict(
      if winner.None? then Allowed else if winner.value.isException then Exception else Blocked,
      if winner.None? then None else Some(winner.value.raw),
      if t.suppressAll then Names([]) else if t.removeAll then All else Names(params),
      if t.suppressAll then [] else t.kept,
      headers,
      csp);
  }
}
