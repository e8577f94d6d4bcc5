/** The indexed walk collects what one pass over the list would: each rule once, and exactly when its
    own host or test is met. */
module RequestRefinement {
  import opened Text
  import opened RequestRules
  import opened UrlTests
  import opened RequestIndex
  import opened RequestEvaluator
  import opened RequestTokens

  /** A request as the index sees it: its host, its folded URL, and the tests the URL passes. */
  datatype Request = Request(host: Option<string>, haystack: string, passes: UrlTest -> bool)

  ghost predicate IsRequest(r: Request, url: string, engine: Engine) {
    r.host == RequestHost(url) && r.haystack == Lower(url) && IsProbe(r.passes, url, engine)
  }

  /** A rule indexed at `slot` matches: its host is met, or its test passes. */
  predicate FiresAt(slot: Slot, host: Option<string>, passed: bool) {
    match slot
    case ExactBlock(h) => host == Some(h)
    case ExactException(h) => host == Some(h)
    case HostBlock(d) => host.Some? && Covers(d, host.value)
    case HostException(d) => host.Some? && Covers(d, host.value)
    case Token(_) => passed
    case Residue => passed
    case Nowhere => false
  }

  /** The rule is found for this request: it matches, and its token, if any, is in the URL. */
  predicate Reached(e: Entry, place: Place, r: Request) {
    var slot := place.slot(e);
    FiresAt(slot, r.host, r.passes(place.test(e))) && (slot.Token? ==> Contains(r.haystack, slot.text))
  }

  /** The rules one pass over the entries finds, in list order. */
  function ReachedRules(entries: seq<Entry>, place: Place, r: Request): seq<Rule> {
    if entries == [] then []
    else
      var e := entries[|entries| - 1];
      ReachedRules(entries[..|entries| - 1], place, r) + if Reached(e, place, r) then [e.rule] else []
  }

  function VisitsOf(order: seq<string>, r: Request): seq<Slot> {
    HostVisits(r.host) + TokenVisits(order, r.haystack) + [Residue]
  }

  // ---------- what the walk visits ----------

  lemma WalkHas(c: string, s: Slot)
    ensures s in WalkVisits(c) <==> s == HostBlock(c) || s == HostException(c) || s in Parents(c)
  {
    assert WalkVisits(c) == [HostBlock(c), HostException(c)] + Parents(c);
  }

  /** The label walk meets the key `d` exactly when the host is `d` or lies under it. */
  lemma {:induction false} WalkMeets(d: string, c: string, slot: Slot)
    requires slot == HostBlock(d) || slot == HostException(d)
    ensures slot in WalkVisits(c) <==> Covers(d, c)
    decreases |c|
  {
    var dot := IndexOf(c, '.', 0);
    WalkHas(c, slot);
    CoversStep(d, c, dot);
    if dot >= 0 { WalkMeets(d, c[dot + 1..], slot); }
  }

  ghost predicate IsWalkSlot(s: Slot, bound: nat) {
    (s.HostBlock? || s.HostException?) && |s.host| <= bound
  }

  lemma DistinctConcat<T>(a: seq<T>, b: seq<T>)
    requires AreDistinct(a) && AreDistinct(b) && forall x :: x in a ==> x !in b
    ensures AreDistinct(a + b)
  {
    var c := a + b;
    forall i, j | 0 <= i < j < |c| ensures c[i] != c[j] {
      if i < |a| <= j { assert a[i] in a && b[j - |a|] in b; }
    }
  }

  lemma {:induction false} WalkSlots(c: string, s: Slot)
    ensures s in WalkVisits(c) ==> IsWalkSlot(s, |c|)
    decreases |c|
  {
    WalkHas(c, s);
    var dot := IndexOf(c, '.', 0);
    if dot >= 0 { WalkSlots(c[dot + 1..], s); }
  }

  lemma PairDistinct(a: Slot, b: Slot, tail: seq<Slot>)
    requires a != b && a !in tail && b !in tail && AreDistinct(tail)
    ensures AreDistinct([a, b] + tail)
  {
    DistinctConcat([a, b], tail);
  }

  lemma WalkIsHeadAndParents(c: string)
    ensures WalkVisits(c) == [HostBlock(c), HostException(c)] + Parents(c)
  {
  }

  lemma {:induction false} WalkIsDistinct(c: string)
    ensures AreDistinct(WalkVisits(c))
    decreases |c|
  {
    WalkIsHeadAndParents(c);
    var dot := IndexOf(c, '.', 0);
    if dot >= 0 {
      WalkIsDistinct(c[dot + 1..]);
      WalkSlots(c[dot + 1..], HostBlock(c));
      WalkSlots(c[dot + 1..], HostException(c));
    }
    PairDistinct(HostBlock(c), HostException(c), Parents(c));
  }

  lemma HostSlots(host: Option<string>, s: Slot)
    ensures s in HostVisits(host) ==> !s.Token? && !s.Residue? && !s.Nowhere?
  {
    if host.Some? { WalkSlots(host.value, s); }
  }

  lemma HostVisitsAreDistinct(host: Option<string>)
    ensures AreDistinct(HostVisits(host))
  {
    if host.Some? {
      var head, walk := [ExactBlock(host.value), ExactException(host.value)], WalkVisits(host.value);
      WalkIsDistinct(host.value);
      forall s | s in head ensures s !in walk { WalkSlots(host.value, s); }
      DistinctConcat(head, walk);
    }
  }

  lemma {:induction false} TokensMet(order: seq<string>, haystack: string, t: string)
    ensures Token(t) in TokenVisits(order, haystack) <==> t in order && Contains(haystack, t)
  {
    if order != [] {
      TokensMet(order[..|order| - 1], haystack, t);
      assert order == order[..|order| - 1] + [order[|order| - 1]];
    }
  }

  lemma {:induction false} TokenVisitsAreDistinct(order: seq<string>, haystack: string)
    requires AreDistinct(order)
    ensures AreDistinct(TokenVisits(order, haystack)) && forall s :: s in TokenVisits(order, haystack) ==> s.Token?
  {
    if order != [] {
      var front, last := order[..|order| - 1], order[|order| - 1];
      TokenVisitsAreDistinct(front, haystack);
      TokensMet(front, haystack, last);
      DistinctConcat(TokenVisits(front, haystack), if Contains(haystack, last) then [Token(last)] else []);
    }
  }

  lemma {:induction false} TokensOfAreDistinct(entries: seq<Entry>, place: Place)
    ensures AreDistinct(TokensOf(entries, place))
    ensures forall e :: e in entries && place.slot(e).Token? ==> place.slot(e).text in TokensOf(entries, place)
  {
    if entries != [] {
      TokensOfAreDistinct(entries[..|entries| - 1], place);
      assert entries == entries[..|entries| - 1] + [entries[|entries| - 1]];
    }
  }

  lemma TokenSlots(order: seq<string>, haystack: string, s: Slot)
    ensures s in TokenVisits(order, haystack) ==> s.Token?
  {
    if order != [] { TokenSlots(order[..|order| - 1], haystack, s); }
  }

  lemma VisitsAreDistinct(order: seq<string>, r: Request)
    requires AreDistinct(order)
    ensures AreDistinct(VisitsOf(order, r))
  {
    var hosts, tokens := HostVisits(r.host), TokenVisits(order, r.haystack);
    HostVisitsAreDistinct(r.host);
    TokenVisitsAreDistinct(order, r.haystack);
    forall s | s in hosts ensures s !in tokens && s != Residue {
      HostSlots(r.host, s);
      TokenSlots(order, r.haystack, s);
    }
    ThreePartsDistinct(hosts, tokens, Residue);
  }

  lemma ThreePartsDistinct(hosts: seq<Slot>, tokens: seq<Slot>, last: Slot)
    requires AreDistinct(hosts) && AreDistinct(tokens)
    requires forall s :: s in hosts ==> s !in tokens && s != last
    requires forall s :: s in tokens ==> s != last
    ensures AreDistinct(hosts + tokens + [last])
  {
    DistinctConcat(hosts, tokens);
    DistinctConcat(hosts + tokens, [last]);
  }

  // ---------- each entry is gathered once ----------

  predicate Taken(e: Entry, view: View, visits: seq<Slot>) {
    view.place.slot(e) in visits && (IsScan(view.place.slot(e)) ==> view.passes(view.place.test(e)))
  }

  lemma FoundAtAppend(view: View, e: Entry, slot: Slot)
    ensures FoundAt(view.(entries := view.entries + [e]), slot) ==
            FoundAt(view, slot) + if Taken(e, view, [slot]) then [e.rule] else []
  {
    if IsScan(slot) {
      ScannedAtAppend(view.entries, e, slot, view.place);
      var scanned := ScannedAt(view.entries, slot, view.place);
      if view.place.slot(e) == slot {
        PassingAppend(scanned, Scanned(e.rule, view.place.test(e)), view.passes);
      } else {
        assert scanned + [] == scanned;
      }
    } else {
      RulesAtAppend(view.entries, e, slot, view.place);
    }
  }

  lemma PassingAppend(scanned: seq<Scanned>, last: Scanned, passes: UrlTest -> bool)
    ensures Passing(scanned + [last], passes) ==
            Passing(scanned, passes) + if passes(last.test) then [last.rule] else []
  {
    assert (scanned + [last])[..|scanned|] == scanned;
  }

  lemma {:induction false} GatherGrows(view: View, e: Entry, visits: seq<Slot>)
    requires AreDistinct(visits)
    ensures multiset(Gather(view.(entries := view.entries + [e]), visits)) ==
            multiset(Gather(view, visits)) + if Taken(e, view, visits) then multiset{e.rule} else multiset{}
  {
    if visits != [] {
      var front, last := visits[..|visits| - 1], visits[|visits| - 1];
      assert visits == front + [last] && last !in front;
      GatherGrows(view, e, front);
      FoundAtAppend(view, e, last);
      assert Taken(e, view, visits) <==> Taken(e, view, front) || Taken(e, view, [last]);
      assert !(Taken(e, view, front) && Taken(e, view, [last]));
    }
  }

  lemma {:induction false} GatherNothing(view: View, visits: seq<Slot>)
    requires view.entries == []
    ensures Gather(view, visits) == []
  {
    if visits != [] { GatherNothing(view, visits[..|visits| - 1]); }
  }

  /** Which slots one request consults. */
  predicate IsVisited(slot: Slot, order: seq<string>, r: Request) {
    match slot
    case ExactBlock(h) => r.host == Some(h)
    case ExactException(h) => r.host == Some(h)
    case HostBlock(d) => r.host.Some? && Covers(d, r.host.value)
    case HostException(d) => r.host.Some? && Covers(d, r.host.value)
    case Token(t) => t in order && Contains(r.haystack, t)
    case Residue => true
    case Nowhere => false
  }

  lemma HostSlotVisited(slot: Slot, order: seq<string>, r: Request)
    requires !slot.Token?
    ensures slot in HostVisits(r.host) <==> slot != Residue && IsVisited(slot, order, r)
  {
    HostSlots(r.host, slot);
    if r.host.Some? {
      var host := r.host.value;
      var walk := WalkVisits(host);
      WalkSlots(host, slot);
      if slot.HostBlock? || slot.HostException? { WalkMeets(slot.host, host, slot); }
      assert HostVisits(r.host) == [ExactBlock(host), ExactException(host)] + walk;
    }
  }

  /** The indexed walk consults a slot exactly when its host, its token or nothing at all is asked for. */
  lemma SlotVisited(slot: Slot, order: seq<string>, r: Request)
    ensures slot in VisitsOf(order, r) <==> IsVisited(slot, order, r)
  {
    InThreeParts(slot, HostVisits(r.host), TokenVisits(order, r.haystack));
    HostSlots(r.host, slot);
    TokenSlots(order, r.haystack, slot);
    if slot.Token? {
      TokensMet(order, r.haystack, slot.text);
    } else {
      HostSlotVisited(slot, order, r);
    }
  }

  lemma InThreeParts(slot: Slot, hosts: seq<Slot>, tokens: seq<Slot>)
    ensures slot in hosts + tokens + [Residue] <==> slot in hosts || slot in tokens || slot == Residue
  {
  }

  lemma TakenIsReached(e: Entry, view: View, order: seq<string>, r: Request)
    requires view.passes == r.passes && (view.place.slot(e).Token? ==> view.place.slot(e).text in order)
    ensures Taken(e, view, VisitsOf(order, r)) <==> Reached(e, view.place, r)
  {
    SlotVisited(view.place.slot(e), order, r);
  }

  lemma {:induction false} GatherPrefix(view: View, n: nat, r: Request, visits: seq<Slot>)
    requires n <= |view.entries| && AreDistinct(visits)
    requires forall e :: e in view.entries ==> (Taken(e, view, visits) <==> Reached(e, view.place, r))
    ensures multiset(Gather(view.(entries := view.entries[..n]), visits)) ==
            multiset(ReachedRules(view.entries[..n], view.place, r))
  {
    if n == 0 {
      GatherNothing(view.(entries := []), visits);
      assert view.entries[..0] == [];
    } else {
      GatherPrefix(view, n - 1, r, visits);
      PrefixStep(view.entries, n - 1);
      GatherGrows(view.(entries := view.entries[..n - 1]), view.entries[n - 1], visits);
    }
  }

  lemma GatheredOverVisits(view: View, r: Request)
    requires view.passes == r.passes
    ensures multiset(Gather(view, VisitsOf(TokensOf(view.entries, view.place), r))) ==
            multiset(ReachedRules(view.entries, view.place, r))
  {
    var order := TokensOf(view.entries, view.place);
    var visits := VisitsOf(order, r);
    TokensOfAreDistinct(view.entries, view.place);
    VisitsAreDistinct(order, r);
    forall e | e in view.entries ensures Taken(e, view, visits) <==> Reached(e, view.place, r) {
      TakenIsReached(e, view, order, r);
    }
    AllEntries(view.entries);
    GatherPrefix(view, |view.entries|, r, visits);
  }

  /** What the indexed walk gathers is what one pass over the entries finds, each rule as often. */
  lemma GatheredIsReached(view: View, url: string, engine: Engine, r: Request)
    requires IsRequest(r, url, engine) && view.passes == r.passes
    ensures multiset(Gather(view, Visits(TokensOf(view.entries, view.place), url))) ==
            multiset(ReachedRules(view.entries, view.place, r))
  {
    VisitsAgree(TokensOf(view.entries, view.place), url, r);
    GatheredOverVisits(view, r);
  }

  lemma VisitsAgree(order: seq<string>, url: string, r: Request)
    requires r.host == RequestHost(url) && r.haystack == Lower(url)
    ensures Visits(order, url) == VisitsOf(order, r)
  {
  }

  // ---------- against the linear scan ----------

  /** The rule matches the request, read off the rule alone: no walk and no token. */
  predicate Fires(e: Entry, place: Place, r: Request) {
    FiresAt(place.slot(e), r.host, r.passes(place.test(e)))
  }

  function LinearScan(entries: seq<Entry>, place: Place, r: Request): seq<Rule> {
    if entries == [] then []
    else
      var e := entries[|entries| - 1];
      LinearScan(entries[..|entries| - 1], place, r) + if Fires(e, place, r) then [e.rule] else []
  }

  lemma TokenSlotReads(e: Entry, engine: Engine)
    requires SlotOf(e, engine).Token?
    ensures LiteralToken(e.body) == Some(SlotOf(e, engine).text)
    ensures ScanTest(e.body, e.rule.isException, engine) == Some(TestOf(e, engine))
  {
  }

  lemma TokenIsFolded(body: string)
    requires LiteralToken(body).Some?
    ensures Lower(LiteralToken(body).value) == LiteralToken(body).value
  {
    LowerIsIdempotent(RunFrom(body, 0, "", ""));
  }

  lemma RequiresMet(test: UrlTest, text: string, url: string, engine: Engine)
    requires Requires(test, text, engine) && Passes(test, url, engine) && Lower(text) == text
    ensures Contains(Lower(url), text)
  {
  }

  ghost predicate TokensAreSafe(entries: seq<Entry>) {
    forall e :: e in entries ==> TokenSafe(e.body)
  }

  lemma PlacedTokenReads(e: Entry, place: Place, engine: Engine)
    requires IsPlace(place, engine) && place.slot(e).Token?
    ensures LiteralToken(e.body) == Some(place.slot(e).text)
    ensures ScanTest(e.body, e.rule.isException, engine) == Some(place.test(e))
  {
    assert Seen(e);
    TokenSlotReads(e, engine);
  }

  lemma ProbeAgrees(test: UrlTest, r: Request, url: string, engine: Engine)
    requires IsProbe(r.passes, url, engine)
    ensures r.passes(test) == Passes(test, url, engine)
  {
    assert Tried(test);
  }

  /** A URL that a safe body accepts holds its token, so the shortlist consults it. */
  lemma SafeTokenReached(e: Entry, place: Place, r: Request, url: string, engine: Engine)
    requires IsPlace(place, engine) && IsProbe(r.passes, url, engine) && TokenSafe(e.body)
    requires place.slot(e).Token? && r.passes(place.test(e))
    ensures Contains(Lower(url), place.slot(e).text)
  {
    PlacedTokenReads(e, place, engine);
    ProbeAgrees(place.test(e), r, url, engine);
    SafeBodyIsLossless(e.body, e.rule.isException, engine);
    TokenIsFolded(e.body);
    RequiresMet(place.test(e), place.slot(e).text, url, engine);
  }

  /** Nothing the tests accept is missing from the shortlist. */
  ghost predicate ShortlistIsComplete(entries: seq<Entry>, place: Place, r: Request) {
    forall e :: e in entries && place.slot(e).Token? && r.passes(place.test(e)) ==>
                  Contains(r.haystack, place.slot(e).text)
  }

  lemma SafeShortlist(entries: seq<Entry>, place: Place, r: Request, url: string, engine: Engine)
    requires IsPlace(place, engine) && IsProbe(r.passes, url, engine)
    requires r.haystack == Lower(url) && TokensAreSafe(entries)
    ensures ShortlistIsComplete(entries, place, r)
  {
    forall e | e in entries && place.slot(e).Token? && r.passes(place.test(e))
      ensures Contains(r.haystack, place.slot(e).text)
    {
      SafeTokenReached(e, place, r, url, engine);
    }
  }

  lemma {:induction false} ReachedIsLinear(entries: seq<Entry>, place: Place, r: Request)
    requires ShortlistIsComplete(entries, place, r)
    ensures ReachedRules(entries, place, r) == LinearScan(entries, place, r)
  {
    if entries != [] {
      var front := entries[..|entries| - 1];
      assert forall e :: e in front ==> e in entries;
      ReachedIsLinear(front, place, r);
      assert entries[|entries| - 1] in entries;
    }
  }

  lemma {:induction false} ReachedIsWithinLinear(entries: seq<Entry>, place: Place, r: Request)
    ensures multiset(ReachedRules(entries, place, r)) <= multiset(LinearScan(entries, place, r))
  {
    if entries != [] { ReachedIsWithinLinear(entries[..|entries| - 1], place, r); }
  }

  /** The index never finds a rule the linear scan does not, and finds all of them when every body is
      safe to shortlist. */
  lemma IndexRefinesLinearScan(view: View, url: string, engine: Engine, r: Request)
    requires IsPlace(view.place, engine) && IsRequest(r, url, engine) && view.passes == r.passes
    ensures var found := multiset(Gather(view, Visits(TokensOf(view.entries, view.place), url)));
      found <= multiset(LinearScan(view.entries, view.place, r)) &&
      (TokensAreSafe(view.entries) ==> found == multiset(LinearScan(view.entries, view.place, r)))
  {
    GatheredIsReached(view, url, engine, r);
    ReachedIsWithinLinear(view.entries, view.place, r);
    if TokensAreSafe(view.entries) {
      SafeShortlist(view.entries, view.place, r, url, engine);
      ReachedIsLinear(view.entries, view.place, r);
    }
  }
}
