/** The request evaluator: rules indexed by host and by literal token, and the walk that collects the
    rules matching one request. */
module RequestIndex {
  import opened Text
  import opened RequestRules
  import opened UrlTests
  import opened RuleSyntax

  const MIN_TOKEN_LENGTH := 3
  const MAX_URL_LENGTH := 4096

  // ---------- the literal token ----------

  predicate IsSpecial(c: char) {
    c == '*' || c == '^' || c == '|'
  }

  function Longer(run: string, best: string): string {
    if |run| > |best| then run else best
  }

  function RunFrom(body: string, i: nat, run: string, best: string): string
    requires i <= |body|
    decreases |body| - i
  {
    if i == |body| then Longer(run, best)
    else if IsSpecial(body[i]) then RunFrom(body, i + 1, "", Longer(run, best))
    else RunFrom(body, i + 1, run + [body[i]], best)
  }

  predicate HasNoToken(body: string) {
    body == "" || '\\' in body || IsSlashedRegex(body)
  }

  /** The longest literal run of the body, folded, when it is long enough to index on. */
  function LiteralToken(body: string): Option<string> {
    if HasNoToken(body) then None
    else
      var token := Lower(RunFrom(body, 0, "", ""));
      if |token| >= MIN_TOKEN_LENGTH then Some(token) else None
  }

  method LiteralTokenOf(body: string) returns (r: Option<string>)
    ensures r == LiteralToken(body)
  {
    if HasNoToken(body) { return None; }
    var best, run := "", "";
    var i := 0;
    while i < |body|
      invariant i <= |body|
      invariant RunFrom(body, i, run, best) == RunFrom(body, 0, "", "")
    {
      if IsSpecial(body[i]) {
        if |run| > |best| { best := run; }
        run := "";
      } else {
        run := run + [body[i]];
      }
      i := i + 1;
    }
    if |run| > |best| { best := run; }
    var token := Lower(best);
    r := if |token| >= MIN_TOKEN_LENGTH then Some(token) else None;
  }

  // ---------- where a rule is indexed ----------

  datatype Slot =
    | ExactBlock(host: string)
    | ExactException(host: string)
    | HostBlock(host: string)
    | HostException(host: string)
    | Token(text: string)
    | Residue
    | Nowhere

  function SlotOf(e: Entry, engine: Engine): Slot {
    var hosts := HostsEntry(e.body);
    var hostKey := HostOnlyPattern(e.body);
    if hosts.Some? then
      var host := StripTrailing(Lower(hosts.value), {'.'});
      if host == "" then Nowhere
      else if e.rule.isException then ExactException(host)
      else ExactBlock(host)
    else if hostKey.Some? && '*' !in hostKey.value && IsValidDomainName(hostKey.value) then
      if e.rule.isException then HostException(hostKey.value) else HostBlock(hostKey.value)
    else if ScanTest(e.body, e.rule.isException, engine).None? then Nowhere
    else
      match LiteralToken(e.body)
      case None => Residue
      case Some(token) => Token(token)
  }

  predicate IsScan(slot: Slot) {
    slot.Token? || slot.Residue?
  }

  function TestOf(e: Entry, engine: Engine): UrlTest {
    var test := ScanTest(e.body, e.rule.isException, engine);
    if test.Some? then test.value else Always
  }

  datatype Scanned = Scanned(rule: Rule, test: UrlTest)

  /** Where each entry is indexed and what it tests, as function values, so that lemmas about indexes
      do not unfold the reading of a body. */
  datatype Place = Place(slot: Entry -> Slot, test: Entry -> UrlTest)

  ghost predicate Places(place: Place, e: Entry, engine: Engine) {
    place.slot(e) == SlotOf(e, engine) && place.test(e) == TestOf(e, engine)
  }

  predicate Seen(e: Entry) {
    true
  }

  ghost predicate IsPlace(place: Place, engine: Engine) {
    forall e {:trigger Seen(e)} :: Places(place, e, engine)
  }

  /** Every engine has its place. */
  lemma PlaceOf(engine: Engine) returns (place: Place)
    ensures IsPlace(place, engine)
  {
    var slot: Entry -> Slot := e => SlotOf(e, engine);
    var test: Entry -> UrlTest := e => TestOf(e, engine);
    place := Place(slot, test);
    forall e ensures Places(place, e, engine) {
      assert slot(e) == SlotOf(e, engine);
      assert test(e) == TestOf(e, engine);
    }
  }

  /** The rules indexed at `slot`, in list order. */
  function RulesAt(entries: seq<Entry>, slot: Slot, place: Place): seq<Rule> {
    if entries == [] then []
    else
      var e := entries[|entries| - 1];
      RulesAt(entries[..|entries| - 1], slot, place) + if place.slot(e) == slot then [e.rule] else []
  }

  function ScannedAt(entries: seq<Entry>, slot: Slot, place: Place): seq<Scanned> {
    if entries == [] then []
    else
      var e := entries[|entries| - 1];
      ScannedAt(entries[..|entries| - 1], slot, place) +
      if place.slot(e) == slot then [Scanned(e.rule, place.test(e))] else []
  }

  datatype Index = Index(
    hostBlocks: map<string, seq<Rule>>,
    hostExceptions: map<string, seq<Rule>>,
    exactBlocks: map<string, seq<Rule>>,
    exactExceptions: map<string, seq<Rule>>,
    scanTokens: map<string, seq<Scanned>>,
    tokenOrder: seq<string>,
    scanResidue: seq<Scanned>)

  function Get<T>(m: map<string, seq<T>>, key: string): seq<T> {
    if key in m then m[key] else []
  }

  function AddToMap<T>(m: map<string, seq<T>>, key: string, x: T): map<string, seq<T>> {
    m[key := Get(m, key) + [x]]
  }

  /** A kind of host map: which slot a key of it stands for. */
  datatype HostMap = HostBlocks | HostExceptions | ExactBlocks | ExactExceptions

  function Key(kind: HostMap, host: string): Slot {
    match kind
    case HostBlocks => HostBlock(host)
    case HostExceptions => HostException(host)
    case ExactBlocks => ExactBlock(host)
    case ExactExceptions => ExactException(host)
  }

  /** A host map holds, under each key, exactly the rules of that slot, in list order. */
  ghost predicate IsHostMap(m: map<string, seq<Rule>>, kind: HostMap, entries: seq<Entry>, place: Place) {
    forall h :: Get(m, h) == RulesAt(entries, Key(kind, h), place)
  }

  /** The tokens of the entries, in the order they are first met. */
  function TokensOf(entries: seq<Entry>, place: Place): seq<string> {
    if entries == [] then []
    else
      var tokens := TokensOf(entries[..|entries| - 1], place);
      var slot := place.slot(entries[|entries| - 1]);
      if slot.Token? && slot.text !in tokens then tokens + [slot.text] else tokens
  }

  ghost predicate IsTokenMap(m: map<string, seq<Scanned>>, order: seq<string>, entries: seq<Entry>, place: Place) {
    && (forall t :: Get(m, t) == ScannedAt(entries, Token(t), place))
    && order == TokensOf(entries, place)
    && (forall t :: t in order <==> t in m)
  }

  ghost predicate IsIndex(ix: Index, entries: seq<Entry>, place: Place) {
    && IsHostMap(ix.hostBlocks, HostBlocks, entries, place)
    && IsHostMap(ix.hostExceptions, HostExceptions, entries, place)
    && IsHostMap(ix.exactBlocks, ExactBlocks, entries, place)
    && IsHostMap(ix.exactExceptions, ExactExceptions, entries, place)
    && IsTokenMap(ix.scanTokens, ix.tokenOrder, entries, place)
    && ix.scanResidue == ScannedAt(entries, Residue, place)
  }

  const EMPTY := Index(map[], map[], map[], map[], map[], [], [])

  lemma RulesAtAppend(entries: seq<Entry>, e: Entry, slot: Slot, place: Place)
    ensures RulesAt(entries + [e], slot, place) ==
            RulesAt(entries, slot, place) + if place.slot(e) == slot then [e.rule] else []
  {
    assert (entries + [e])[..|entries|] == entries;
  }

  lemma ScannedAtAppend(entries: seq<Entry>, e: Entry, slot: Slot, place: Place)
    ensures ScannedAt(entries + [e], slot, place) ==
            ScannedAt(entries, slot, place) + if place.slot(e) == slot then [Scanned(e.rule, place.test(e))] else []
  {
    assert (entries + [e])[..|entries|] == entries;
  }

  lemma HostMapKept(m: map<string, seq<Rule>>, kind: HostMap, entries: seq<Entry>, e: Entry, place: Place)
    requires IsHostMap(m, kind, entries, place)
    requires forall h :: place.slot(e) != Key(kind, h)
    ensures IsHostMap(m, kind, entries + [e], place)
  {
    forall h ensures Get(m, h) == RulesAt(entries + [e], Key(kind, h), place) {
      RulesAtAppend(entries, e, Key(kind, h), place);
    }
  }

  lemma HostMapGrown(m: map<string, seq<Rule>>, kind: HostMap, entries: seq<Entry>, e: Entry, key: string, place: Place)
    requires IsHostMap(m, kind, entries, place) && place.slot(e) == Key(kind, key)
    ensures IsHostMap(AddToMap(m, key, e.rule), kind, entries + [e], place)
  {
    forall h ensures Get(AddToMap(m, key, e.rule), h) == RulesAt(entries + [e], Key(kind, h), place) {
      RulesAtAppend(entries, e, Key(kind, h), place);
      assert Key(kind, h) == Key(kind, key) <==> h == key;
    }
  }

  lemma TokenMapKept(ix: Index, entries: seq<Entry>, e: Entry, place: Place)
    requires IsTokenMap(ix.scanTokens, ix.tokenOrder, entries, place) && !place.slot(e).Token?
    ensures IsTokenMap(ix.scanTokens, ix.tokenOrder, entries + [e], place)
  {
    forall t ensures Get(ix.scanTokens, t) == ScannedAt(entries + [e], Token(t), place) {
      ScannedAtAppend(entries, e, Token(t), place);
    }
    assert (entries + [e])[..|entries|] == entries;
  }

  /** The other maps are untouched by a rule that is indexed elsewhere. */
  lemma OthersKept(ix: Index, entries: seq<Entry>, e: Entry, place: Place)
    requires IsIndex(ix, entries, place)
    ensures var slot := place.slot(e);
      && (!slot.HostBlock? ==> IsHostMap(ix.hostBlocks, HostBlocks, entries + [e], place))
      && (!slot.HostException? ==> IsHostMap(ix.hostExceptions, HostExceptions, entries + [e], place))
      && (!slot.ExactBlock? ==> IsHostMap(ix.exactBlocks, ExactBlocks, entries + [e], place))
      && (!slot.ExactException? ==> IsHostMap(ix.exactExceptions, ExactExceptions, entries + [e], place))
      && (!slot.Token? ==> IsTokenMap(ix.scanTokens, ix.tokenOrder, entries + [e], place))
      && (!slot.Residue? ==> ix.scanResidue == ScannedAt(entries + [e], Residue, place))
  {
    var slot := place.slot(e);
    if !slot.HostBlock? { HostMapKept(ix.hostBlocks, HostBlocks, entries, e, place); }
    if !slot.HostException? { HostMapKept(ix.hostExceptions, HostExceptions, entries, e, place); }
    if !slot.ExactBlock? { HostMapKept(ix.exactBlocks, ExactBlocks, entries, e, place); }
    if !slot.ExactException? { HostMapKept(ix.exactExceptions, ExactExceptions, entries, e, place); }
    if !slot.Token? { TokenMapKept(ix, entries, e, place); }
    ScannedAtAppend(entries, e, Residue, place);
  }

  method AddEntry(before: Index, e: Entry, engine: Engine, ghost place: Place, ghost entries: seq<Entry>)
      returns (ix: Index)
    requires IsIndex(before, entries, place) && Places(place, e, engine)
    ensures IsIndex(ix, entries + [e], place)
    ensures Size(ix) == Size(before) + if place.slot(e) == Nowhere then 0 else 1
  {
    OthersKept(before, entries, e, place);
    var hosts := HostsEntry(e.body);
    if hosts.Some? {
      var host := StripTrailing(Lower(hosts.value), {'.'});
      if host == "" { return before; }
      ix := AddExact(before, e, host, place, entries);
      return;
    }
    var hostKey := HostOnlyPattern(e.body);
    if hostKey.Some? && '*' !in hostKey.value && IsValidDomainName(hostKey.value) {
      ix := AddHost(before, e, hostKey.value, place, entries);
      return;
    }
    var test := ScanTest(e.body, e.rule.isException, engine);
    if test.None? { return before; }
    ix := AddToScan(before, e, test.value, place, entries);
  }

  method AddExact(before: Index, e: Entry, host: string, ghost place: Place, ghost entries: seq<Entry>)
      returns (ix: Index)
    requires IsIndex(before, entries, place)
    requires place.slot(e) == if e.rule.isException then ExactException(host) else ExactBlock(host)
    ensures IsIndex(ix, entries + [e], place) && Size(ix) == Size(before) + 1
  {
    OthersKept(before, entries, e, place);
    if e.rule.isException {
      HostMapGrown(before.exactExceptions, ExactExceptions, entries, e, host, place);
      SizeAfterAdd(before.exactExceptions, host, e.rule);
      ix := before.(exactExceptions := AddToMap(before.exactExceptions, host, e.rule));
    } else {
      HostMapGrown(before.exactBlocks, ExactBlocks, entries, e, host, place);
      SizeAfterAdd(before.exactBlocks, host, e.rule);
      ix := before.(exactBlocks := AddToMap(before.exactBlocks, host, e.rule));
    }
  }

  method AddHost(before: Index, e: Entry, host: string, ghost place: Place, ghost entries: seq<Entry>)
      returns (ix: Index)
    requires IsIndex(before, entries, place)
    requires place.slot(e) == if e.rule.isException then HostException(host) else HostBlock(host)
    ensures IsIndex(ix, entries + [e], place) && Size(ix) == Size(before) + 1
  {
    OthersKept(before, entries, e, place);
    if e.rule.isException {
      HostMapGrown(before.hostExceptions, HostExceptions, entries, e, host, place);
      SizeAfterAdd(before.hostExceptions, host, e.rule);
      ix := before.(hostExceptions := AddToMap(before.hostExceptions, host, e.rule));
    } else {
      HostMapGrown(before.hostBlocks, HostBlocks, entries, e, host, place);
      SizeAfterAdd(before.hostBlocks, host, e.rule);
      ix := before.(hostBlocks := AddToMap(before.hostBlocks, host, e.rule));
    }
  }

  method AddToScan(before: Index, e: Entry, test: UrlTest, ghost place: Place, ghost entries: seq<Entry>)
      returns (ix: Index)
    requires IsIndex(before, entries, place)
    requires place.slot(e) == (if LiteralToken(e.body).Some? then Token(LiteralToken(e.body).value) else Residue)
    requires test == place.test(e)
    ensures IsIndex(ix, entries + [e], place) && Size(ix) == Size(before) + 1
  {
    OthersKept(before, entries, e, place);
    var token := LiteralTokenOf(e.body);
    var scanned := Scanned(e.rule, test);
    if token.None? {
      ScannedAtAppend(entries, e, Residue, place);
      ix := before.(scanResidue := before.scanResidue + [scanned]);
    } else {
      TokenMapGrown(before, entries, e, token.value, place);
      SizeAfterAdd(before.scanTokens, token.value, scanned);
      ix := before.(scanTokens := AddToMap(before.scanTokens, token.value, scanned),
                    tokenOrder := WithToken(before, token.value));
    }
  }

  /** The tokens in the order they were first met. */
  function WithToken(ix: Index, token: string): seq<string> {
    if token in ix.scanTokens then ix.tokenOrder else ix.tokenOrder + [token]
  }

  lemma TokenMapGrown(ix: Index, entries: seq<Entry>, e: Entry, token: string, place: Place)
    requires IsTokenMap(ix.scanTokens, ix.tokenOrder, entries, place) && place.slot(e) == Token(token)
    ensures IsTokenMap(AddToMap(ix.scanTokens, token, Scanned(e.rule, place.test(e))), WithToken(ix, token),
                       entries + [e], place)
  {
    var m := AddToMap(ix.scanTokens, token, Scanned(e.rule, place.test(e)));
    forall t ensures Get(m, t) == ScannedAt(entries + [e], Token(t), place) {
      ScannedAtAppend(entries, e, Token(t), place);
    }
    forall t ensures t in WithToken(ix, token) <==> t in m {
      assert t in ix.tokenOrder <==> t in ix.scanTokens;
    }
    assert (entries + [e])[..|entries|] == entries;
  }

  // ---------- the size of an index ----------

  ghost function SizeOver<T>(keys: set<string>, m: map<string, seq<T>>): nat
    requires keys <= m.Keys
  {
    if keys == {} then 0
    else
      var k :| k in keys;
      |m[k]| + SizeOver(keys - {k}, m)
  }

  ghost function MapSize<T>(m: map<string, seq<T>>): nat {
    SizeOver(m.Keys, m)
  }

  ghost function Size(ix: Index): nat {
    |ix.scanResidue| + MapSize(ix.hostBlocks) + MapSize(ix.hostExceptions) + MapSize(ix.exactBlocks) +
    MapSize(ix.exactExceptions) + MapSize(ix.scanTokens)
  }

  lemma {:induction false} SizeOfKey<T>(keys: set<string>, m: map<string, seq<T>>, k: string)
    requires keys <= m.Keys && k in keys
    ensures SizeOver(keys, m) == |m[k]| + SizeOver(keys - {k}, m)
    decreases |keys|
  {
    var c :| c in keys && SizeOver(keys, m) == |m[c]| + SizeOver(keys - {c}, m);
    if c != k {
      SizeOfKey(keys - {c}, m, k);
      SizeOfKey(keys - {k}, m, c);
      assert keys - {c} - {k} == keys - {k} - {c};
    }
  }

  lemma {:induction false} SizeElsewhere<T>(keys: set<string>, m: map<string, seq<T>>, n: map<string, seq<T>>)
    requires keys <= m.Keys && keys <= n.Keys && forall k :: k in keys ==> m[k] == n[k]
    ensures SizeOver(keys, m) == SizeOver(keys, n)
    decreases |keys|
  {
    if keys != {} {
      var k :| k in keys;
      SizeOfKey(keys, m, k);
      SizeOfKey(keys, n, k);
      SizeElsewhere(keys - {k}, m, n);
    }
  }

  lemma SizeAfterAdd<T>(m: map<string, seq<T>>, key: string, x: T)
    ensures MapSize(AddToMap(m, key, x)) == MapSize(m) + 1
  {
    var n := AddToMap(m, key, x);
    SizeOfKey(n.Keys, n, key);
    SizeElsewhere(n.Keys - {key}, m, n);
    if key in m {
      SizeOfKey(m.Keys, m, key);
      assert n.Keys == m.Keys;
    } else {
      assert n.Keys - {key} == m.Keys;
    }
  }

  method MapSizeOf<T>(m: map<string, seq<T>>) returns (n: nat)
    ensures n == MapSize(m)
  {
    n := 0;
    var keys := m.Keys;
    while keys != {}
      invariant keys <= m.Keys
      invariant n + SizeOver(keys, m) == MapSize(m)
    {
      var k :| k in keys;
      SizeOfKey(keys, m, k);
      n, keys := n + |m[k]|, keys - {k};
    }
  }

  method SizeOf(ix: Index) returns (n: nat)
    ensures n == Size(ix)
  {
    n := |ix.scanResidue|;
    var a := MapSizeOf(ix.hostBlocks);
    var b := MapSizeOf(ix.hostExceptions);
    var c := MapSizeOf(ix.exactBlocks);
    var d := MapSizeOf(ix.exactExceptions);
    var e := MapSizeOf(ix.scanTokens);
    n := n + a + b + c + d + e;
  }
}
