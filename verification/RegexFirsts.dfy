/** What the second pass takes one character of a pattern to stand for, against what it stands for. */
module RegexFirsts {
  import opened Text
  import opened RegexScanner
  import opened RegexSyntax
  import opened RegexClasses

  // ---------- what a set of tokens stands for ----------

  predicate Stands(t: Token, y: char) {
    match t
    case Lit(c) => c == '.' || c == y
    case Esc(c) => if IsShorthand(c) then y in ShorthandChars(c) else c == y
    case Not(excluded) => y !in excluded
  }

  /** Some token stands for a case-folded character. */
  ghost predicate Denotes(tokens: set<Token>, y: char) {
    exists t :: t in tokens && Stands(t, y)
  }

  lemma InExpansion(tokens: set<Token>, t: Token, y: char)
    requires t in tokens && Stands(t, y) && !t.Not? && t != Lit('.')
    ensures y in Expand(tokens)
  {
    if t.Esc? && IsShorthand(t.c) {
      assert y in (set u, c | u in tokens && u.Esc? && IsShorthand(u.c) && c in ShorthandChars(u.c) :: c);
    } else if t.Esc? {
      assert y in (set u | u in tokens && u.Esc? && !IsShorthand(u.c) :: u.c);
    } else {
      assert y in (set u | u in tokens && u.Lit? :: u.c);
    }
  }

  lemma NotOverlaps(a: set<Token>, b: set<Token>, s: Token, y: char)
    requires s in a && s.Not? && y !in s.excluded && y in Expand(b)
    ensures FirstSetsOverlap(a, b) && FirstSetsOverlap(b, a)
  {
  }

  lemma CommonOverlaps(a: set<Token>, b: set<Token>, y: char)
    requires a != {} && b != {} && y in Expand(a) && y in Expand(b)
    ensures FirstSetsOverlap(a, b)
  {
    assert y in Expand(a) * Expand(b);
  }

  lemma TokensOverlap(a: set<Token>, b: set<Token>, s: Token, t: Token, y: char)
    requires s in a && Stands(s, y) && t in b && Stands(t, y)
    ensures FirstSetsOverlap(a, b)
  {
    if s == Lit('.') || t == Lit('.') || (s.Not? && t.Not?) {
    } else if s.Not? {
      InExpansion(b, t, y);
      NotOverlaps(a, b, s, y);
    } else if t.Not? {
      InExpansion(a, s, y);
      NotOverlaps(b, a, t, y);
    } else {
      InExpansion(a, s, y);
      InExpansion(b, t, y);
      CommonOverlaps(a, b, y);
    }
  }

  /** Sets that do not overlap stand for no common character. */
  lemma NoOverlapNoCommon(a: set<Token>, b: set<Token>, y: char)
    requires !FirstSetsOverlap(a, b)
    ensures !(Denotes(a, y) && Denotes(b, y))
  {
    if s, t :| s in a && Stands(s, y) && t in b && Stands(t, y) { TokensOverlap(a, b, s, t, y); }
  }

  // ---------- the tokens of a class ----------

  function CollectChar(c: char, negated: bool, acc: ClassScan): ClassScan {
    if negated then acc.(excluded := acc.excluded + {LowerChar(c)})
    else acc.(firsts := acc.firsts + {Lit(LowerChar(c))})
  }

  function CollectItem(it: Item, negated: bool, acc: ClassScan): ClassScan {
    match it
    case One(c) => CollectChar(c, negated, acc)
    case Range(lo, hi) => CollectChar(hi, negated, ClassRange(lo, hi, negated, CollectChar(lo, negated, acc)))
    case Escaped(c) => ClassEscape(Some(c), negated, acc)
  }

  /** The class scan over the entries of a class. */
  function Collect(items: seq<Item>, negated: bool, acc: ClassScan): ClassScan {
    if items == [] then acc else Collect(items[1..], negated, CollectItem(items[0], negated, acc))
  }

  function TokensOf(negated: bool, scan: ClassScan): set<Token> {
    if negated && !scan.unbounded then scan.firsts + {if scan.excluded == {} then Lit('.') else Not(scan.excluded)}
    else scan.firsts
  }

  const NOTHING := ClassScan({}, {}, false)

  /** No dash but in the last place. */
  predicate DashIsLast(items: seq<Item>) {
    |items| <= 1 || (IsItem(items[0]) && DashIsLast(items[1..]))
  }

  lemma {:induction false} DashOfItems(items: seq<Item>)
    requires items != [] && forall k :: 0 <= k < |items| - 1 ==> IsItem(items[k])
    ensures DashIsLast(items)
  {
    if |items| > 1 { DashOfItems(items[1..]); }
  }

  /** The scan of one class as a function value. */
  type Fold = (nat, ClassScan) -> ClassScan

  predicate Peek(j: nat, acc: ClassScan) {
    true
  }

  ghost predicate IsFold(fold: Fold, b: string, lead: nat, end: nat, negated: bool) {
    && 0 < lead && end <= |b|
    && forall j: nat, acc: ClassScan {:trigger Peek(j, acc)} ::
         lead <= j ==> fold(j, acc) == ClassFrom(b, j, lead, end, negated, acc)
  }

  lemma FoldChar(fold: Fold, b: string, lead: nat, end: nat, negated: bool, j: nat, acc: ClassScan)
    requires IsFold(fold, b, lead, end, negated) && lead <= j < end - 1 && b[j] != '\\'
    requires b[j] == '-' ==> j == lead || j >= end - 2
    ensures fold(j, acc) == fold(j + 1, CollectChar(b[j], negated, acc))
  {
    assert Peek(j, acc) && Peek(j + 1, CollectChar(b[j], negated, acc));
  }

  lemma FoldDash(fold: Fold, b: string, lead: nat, end: nat, negated: bool, j: nat, acc: ClassScan)
    requires IsFold(fold, b, lead, end, negated) && lead < j < end - 2 && b[j] == '-' && b[j + 1] != '\\'
    ensures fold(j, acc) == fold(j + 1, ClassRange(b[j - 1], b[j + 1], negated, acc))
  {
    assert Peek(j, acc) && Peek(j + 1, ClassRange(b[j - 1], b[j + 1], negated, acc));
  }

  lemma FoldEscape(fold: Fold, b: string, lead: nat, end: nat, negated: bool, j: nat, acc: ClassScan)
    requires IsFold(fold, b, lead, end, negated) && lead <= j < end - 1 && b[j] == '\\' && j + 1 < |b|
    ensures fold(j, acc) == fold(j + 2, ClassEscape(Some(b[j + 1]), negated, acc))
  {
    assert Peek(j, acc) && Peek(j + 2, ClassEscape(Some(b[j + 1]), negated, acc));
  }

  lemma FoldItem(fold: Fold, b: string, lead: nat, end: nat, negated: bool, j: nat, it: Item, acc: ClassScan)
    requires IsFold(fold, b, lead, end, negated) && lead <= j && j + |ItemText(it)| <= end - 1
    requires At(b, j, ItemText(it)) && IsEntry(it)
    requires it == One('-') ==> j == lead || j == end - 2
    ensures fold(j, acc) == fold(j + |ItemText(it)|, CollectItem(it, negated, acc))
  {
    var t := ItemText(it);
    AtIndex(b, j, t, 0);
    match it
    case One(c) => FoldChar(fold, b, lead, end, negated, j, acc);
    case Range(lo, hi) =>
      AtIndex(b, j, t, 1);
      AtIndex(b, j, t, 2);
      var first := CollectChar(lo, negated, acc);
      FoldChar(fold, b, lead, end, negated, j, acc);
      FoldDash(fold, b, lead, end, negated, j + 1, first);
      FoldChar(fold, b, lead, end, negated, j + 2, ClassRange(lo, hi, negated, first));
    case Escaped(c) =>
      AtIndex(b, j, t, 1);
      FoldEscape(fold, b, lead, end, negated, j, acc);
  }

  lemma {:induction false} FoldItems(fold: Fold, b: string, lead: nat, end: nat, negated: bool, j: nat,
                                     items: seq<Item>, acc: ClassScan)
    requires IsFold(fold, b, lead, end, negated) && lead <= j && j + |ItemsText(items)| == end - 1
    requires At(b, j, ItemsText(items)) && AreEntries(items)
    requires j == lead && items != [] ==> DashIsLast(items[1..])
    requires j != lead ==> DashIsLast(items)
    ensures fold(j, acc) == Collect(items, negated, acc)
    decreases |items|
  {
    if items == [] {
      assert Peek(j, acc);
    } else {
      var next := ItemsAt(b, j, items);
      FoldItem(fold, b, lead, end, negated, j, items[0], acc);
      FoldItems(fold, b, lead, end, negated, next, items[1..], CollectItem(items[0], negated, acc));
    }
  }

  lemma FoldOf(b: string, lead: nat, end: nat, negated: bool) returns (fold: Fold)
    requires 0 < lead && end <= |b|
    ensures IsFold(fold, b, lead, end, negated)
  {
    fold := (j: nat, acc: ClassScan) => if lead <= j then ClassFrom(b, j, lead, end, negated, acc) else acc;
  }

  lemma ClassCollects(b: string, i: nat, r: Re, lead: nat, end: nat)
    requires r.Class? && IsLeaf(r) && At(b, i, Print(r))
    requires lead == i + |ClassOpening(r.negated)| && end == i + |Print(r)|
    ensures 0 < lead && end <= |b|
    ensures ClassFrom(b, lead, lead, end, r.negated, NOTHING) == Collect(r.items, r.negated, NOTHING)
  {
    ClassText(b, i, r);
    EntriesOf(r.items);
    if |r.items| > 1 { DashOfItems(r.items[1..]); }
    var fold := FoldOf(b, lead, end, r.negated);
    FoldItems(fold, b, lead, end, r.negated, lead, r.items, NOTHING);
    assert Peek(lead, NOTHING);
  }

  lemma TokensRead(b: string, i: nat, end: nat, negated: bool, lead: nat)
    requires i < end <= |b| && Is(b, i + 1, '^') == negated && lead == i + |ClassOpening(negated)|
    ensures ClassTokens(b, i, end) == TokensOf(negated, ClassFrom(b, lead, lead, end, negated, NOTHING))
  {
  }

  lemma ClassSpan(b: string, i: nat, r: Re, lead: nat, end: nat)
    requires r.Class? && IsLeaf(r) && At(b, i, Print(r))
    requires lead == i + |ClassOpening(r.negated)| && end == i + |Print(r)|
    ensures i < end <= |b| && Is(b, i + 1, '^') == r.negated
  {
    ClassHead(b, i, r);
  }

  /** The tokens the scanner reads off the text of a class are those of its entries. */
  lemma ClassTokensAre(b: string, i: nat, r: Re, end: nat)
    requires r.Class? && IsLeaf(r) && At(b, i, Print(r)) && end == i + |Print(r)|
    ensures i < end <= |b| && ClassTokens(b, i, end) == TokensOf(r.negated, Collect(r.items, r.negated, NOTHING))
  {
    var lead := i + |ClassOpening(r.negated)|;
    ClassSpan(b, i, r, lead, end);
    ClassCollects(b, i, r, lead, end);
    TokensRead(b, i, end, r.negated, lead);
  }

  // ---------- leaves ----------

  function EscapeTokenOf(c: char): Token {
    var lower := LowerChar(c);
    if c != lower && IsShorthand(lower) then Not(ShorthandChars(lower)) else Esc(lower)
  }

  /** The tokens of one character of a pattern. */
  function LeafTokens(r: Re): set<Token> {
    match r
    case Char(c) => {Lit(LowerChar(c))}
    case Dot => {Lit('.')}
    case Escape(c) => {EscapeTokenOf(c)}
    case Class(negated, items) => TokensOf(negated, Collect(items, negated, NOTHING))
    case _ => {}
  }

  /** An escape whose letter the second pass takes for less than it stands for. */
  predicate IsMisread(c: char) {
    c in CONTROLS || c == 's'
  }

  predicate IsBounded(lo: char, hi: char) {
    (hi as int) - (lo as int) <= 256 && (hi as int) < 0xD800
  }

  predicate IsReadItem(negated: bool, it: Item) {
    match it
    case One(_) => true
    case Range(lo, hi) => negated ==> IsBounded(lo, hi)
    case Escaped(c) => c !in CONTROLS && (c == 's' ==> negated)
  }

  /** The tokens of the class stand for the character if the class matches it. */
  ghost predicate ReadsOn(negated: bool, items: seq<Item>, x: char) {
    SomeItemMatches(items, x) != negated ==> Denotes(TokensOf(negated, Collect(items, negated, NOTHING)), LowerChar(x))
  }

  /** The second pass takes the leaf for everything it stands for. */
  ghost predicate IsReadLeaf(r: Re) {
    match r
    case Escape(c) => !IsMisread(c)
    case Class(negated, items) => forall x :: ReadsOn(negated, items, x)
    case _ => true
  }

  lemma LettersAre(y: char)
    ensures y in LETTERS <==> 'a' <= y <= 'z'
  {
  }

  lemma DigitsAre(y: char)
    ensures y in DIGITS <==> IsDigit(y)
  {
  }

  lemma WordsAre(x: char)
    ensures LowerChar(x) in ShorthandChars('w') <==> IsWordChar(x)
  {
    var y := LowerChar(x);
    LettersAre(y);
    DigitsAre(y);
    assert ShorthandChars('w') == LETTERS + DIGITS + {'_'};
  }

  lemma SpacesAre(x: char)
    ensures x in ShorthandChars('s') <==> IsSpace(x)
  {
  }

  lemma ShorthandsAre(x: char)
    ensures LowerChar(x) in ShorthandChars('s') <==> IsSpace(x)
    ensures LowerChar(x) in ShorthandChars('d') <==> IsDigit(x)
    ensures LowerChar(x) in ShorthandChars('w') <==> IsWordChar(x)
  {
    SpacesAre(LowerChar(x));
    DigitsAre(LowerChar(x));
    WordsAre(x);
  }

  lemma EscapeIsRead(c: char, x: char)
    requires IsEscapable(c) && !IsMisread(c) && EscapeMatches(c, x)
    ensures Stands(EscapeTokenOf(c), LowerChar(x))
  {
    ShorthandsAre(x);
  }

  /** A misread escape matches a character its token does not stand for. */
  lemma MisreadMisses(c: char) returns (x: char)
    requires IsMisread(c)
    ensures EscapeMatches(c, x) && LowerChar(x) == x && !Stands(EscapeTokenOf(c), x) && IsPlain(x)
  {
    x := match c case 'f' => '\U{000C}' case 'n' => '\n' case 'r' => '\r' case 't' => '\t' case 'v' => '\U{000B}'
         case _ => '\U{00A0}';
  }

  // ---------- classes ----------

  lemma {:induction false} InCharRange(lo: int, hi: int, m: char)
    requires 0 <= lo <= m as int <= hi < 0xD800
    ensures LowerChar(m) in CharRange(lo, hi)
    decreases hi - lo
  {
    if lo < m as int { InCharRange(lo + 1, hi, m); }
  }

  lemma {:induction false} FromCharRange(lo: int, hi: int, y: char)
    requires 0 <= lo && hi < 0xD800 && y in CharRange(lo, hi)
    ensures exists m: char :: lo <= m as int <= hi && LowerChar(m) == y
    decreases hi - lo
  {
    if y == LowerChar(lo as char) {
      assert lo <= (lo as char) as int <= hi;
    } else {
      FromCharRange(lo + 1, hi, y);
    }
  }

  lemma {:induction false} FirstsGrow(items: seq<Item>, negated: bool, acc: ClassScan, t: Token)
    requires t in acc.firsts
    ensures t in Collect(items, negated, acc).firsts
    decreases |items|
  {
    if items != [] { FirstsGrow(items[1..], negated, CollectItem(items[0], negated, acc), t); }
  }

  lemma ItemIsRead(it: Item, acc: ClassScan, x: char) returns (t: Token)
    requires IsEntry(it) && IsReadItem(false, it) && ItemMatches(it, x)
    ensures t in CollectItem(it, false, acc).firsts && Stands(t, LowerChar(x))
  {
    match it
    case One(c) => t := Lit(LowerChar(c));
    case Range(lo, hi) =>
      if IsBounded(lo, hi) {
        var m: char :| lo <= m <= hi && LowerChar(m) == LowerChar(x);
        InCharRange(lo as int, hi as int, m);
        t := Lit(LowerChar(m));
      } else {
        t := Lit('.');
      }
    case Escaped(c) =>
      EscapeIsRead(c, x);
      t := EscapeTokenOf(c);
  }

  lemma {:induction false} ItemsAreRead(items: seq<Item>, acc: ClassScan, x: char) returns (t: Token)
    requires AreEntries(items) && (forall it :: it in items ==> IsReadItem(false, it)) && SomeItemMatches(items, x)
    ensures t in Collect(items, false, acc).firsts && Stands(t, LowerChar(x))
    decreases |items|
  {
    var rest, after := items[1..], CollectItem(items[0], false, acc);
    if ItemMatches(items[0], x) {
      t := ItemIsRead(items[0], acc, x);
      FirstsGrow(rest, false, after, t);
    } else {
      assert items == [items[0]] + rest;
      t := ItemsAreRead(rest, after, x);
    }
  }

  lemma ItemExcludes(it: Item, acc: ClassScan, x: char)
    requires IsEntry(it) && IsReadItem(true, it) && !ItemMatches(it, x) && LowerChar(x) !in acc.excluded
    ensures LowerChar(x) !in CollectItem(it, true, acc).excluded
    ensures CollectItem(it, true, acc).unbounded == acc.unbounded
  {
    match it
    case One(_) =>
    case Range(lo, hi) =>
      assert LowerChar(lo) != LowerChar(x) && LowerChar(hi) != LowerChar(x);
      if LowerChar(x) in CharRange(lo as int, hi as int) { FromCharRange(lo as int, hi as int, LowerChar(x)); }
    case Escaped(c) => EscapeExcludes(c, acc, x);
  }

  lemma EscapeExcludes(c: char, acc: ClassScan, x: char)
    requires IsEscapable(c) && c !in CONTROLS && !EscapeMatches(c, x) && LowerChar(x) !in acc.excluded
    ensures LowerChar(x) !in ClassEscape(Some(c), true, acc).excluded
    ensures ClassEscape(Some(c), true, acc).unbounded == acc.unbounded
  {
    ShorthandsAre(x);
  }

  lemma {:induction false} ItemsExclude(items: seq<Item>, acc: ClassScan, x: char)
    requires AreEntries(items) && (forall it :: it in items ==> IsReadItem(true, it)) && !SomeItemMatches(items, x)
    requires LowerChar(x) !in acc.excluded
    ensures LowerChar(x) !in Collect(items, true, acc).excluded
    ensures Collect(items, true, acc).unbounded == acc.unbounded
    decreases |items|
  {
    if items != [] {
      var rest := items[1..];
      assert items == [items[0]] + rest;
      assert !ItemMatches(items[0], x);
      ItemExcludes(items[0], acc, x);
      ItemsExclude(rest, CollectItem(items[0], true, acc), x);
    }
  }

  /** A class of entries that are read right is read right. */
  lemma EntriesAreRead(negated: bool, items: seq<Item>)
    requires AreItems(items) && forall it :: it in items ==> IsReadItem(negated, it)
    ensures IsReadLeaf(Class(negated, items))
  {
    forall x | SomeItemMatches(items, x) != negated
      ensures Denotes(TokensOf(negated, Collect(items, negated, NOTHING)), LowerChar(x))
    {
      EntriesReadOn(negated, items, x);
    }
  }

  lemma EntriesReadOn(negated: bool, items: seq<Item>, x: char)
    requires AreItems(items) && (forall it :: it in items ==> IsReadItem(negated, it))
    requires SomeItemMatches(items, x) != negated
    ensures Denotes(TokensOf(negated, Collect(items, negated, NOTHING)), LowerChar(x))
  {
    EntriesOf(items);
    if negated {
      ItemsExclude(items, NOTHING, x);
      var scan := Collect(items, true, NOTHING);
      var t := if scan.excluded == {} then Lit('.') else Not(scan.excluded);
      assert t in TokensOf(true, scan) && Stands(t, LowerChar(x));
    } else {
      var t := ItemsAreRead(items, NOTHING, x);
    }
  }

  /** The tokens of a leaf that is read right stand for every character it matches. */
  lemma LeafIsRead(r: Re, w: string)
    requires IsLeaf(r) && IsReadLeaf(r) && Matches(r, w)
    ensures |w| == 1 && Denotes(LeafTokens(r), LowerChar(w[0]))
  {
    var y := LowerChar(w[0]);
    match r
    case Char(c) => assert Stands(Lit(LowerChar(c)), y);
    case Dot => assert Stands(Lit('.'), y);
    case Escape(c) => EscapeIsRead(c, w[0]);
    case Class(negated, items) => assert ReadsOn(negated, items, w[0]);
  }

  /** The token of an escape stands for everything it matches exactly when it is neither `\s` nor the escape
      of a control character. */
  lemma EscapeIsReadIff(c: char)
    requires IsEscapable(c)
    ensures (forall x :: EscapeMatches(c, x) ==> Stands(EscapeTokenOf(c), LowerChar(x))) <==> !IsMisread(c)
  {
    if IsMisread(c) {
      var x := MisreadMisses(c);
    } else {
      forall x | EscapeMatches(c, x) ensures Stands(EscapeTokenOf(c), LowerChar(x)) { EscapeIsRead(c, x); }
    }
  }

  // ---------- exactly which classes are read right ----------

  /** The characters on which a class can be misread: the controls, their letters, and the white space beyond the
      scanner's table. */
  predicate IsDelicate(x: char) {
    (IsRegexSpace(x) && x != ' ') || x in CONTROLS
  }

  /** An upper-case shorthand: it stands for what its class leaves out. */
  predicate IsOutside(it: Item) {
    it.Escaped? && it.c in {'D', 'S', 'W'}
  }

  predicate IsWide(it: Item) {
    it.Range? && !IsBounded(it.lo, it.hi)
  }

  /** A negated class over a wide range leaves its tokens to its upper-case shorthands. */
  predicate HasWide(items: seq<Item>) {
    exists it :: it in items && IsWide(it)
  }

  predicate HasOutside(items: seq<Item>) {
    exists it :: it in items && IsOutside(it)
  }

  lemma MisreadIsDelicate(it: Item, x: char)
    requires IsEntry(it) && ItemMatches(it, x) && !IsReadItem(false, it)
    ensures IsDelicate(x) || (it == Escaped('s') && x == ' ')
  {
  }

  lemma SpaceIsRead(acc: ClassScan) returns (t: Token)
    ensures t in CollectItem(Escaped('s'), false, acc).firsts && Stands(t, ' ')
  {
    t := Esc('s');
    SpacesAre(' ');
  }

  lemma {:induction false} PlainlyRead(items: seq<Item>, acc: ClassScan, x: char) returns (t: Token)
    requires AreEntries(items) && !IsDelicate(x) && SomeItemMatches(items, x)
    ensures t in Collect(items, false, acc).firsts && Stands(t, LowerChar(x))
    decreases |items|
  {
    var rest, after := items[1..], CollectItem(items[0], false, acc);
    if ItemMatches(items[0], x) {
      t := FirstPlainlyRead(items[0], acc, x);
      FirstsGrow(rest, false, after, t);
    } else {
      assert items == [items[0]] + rest;
      t := PlainlyRead(rest, after, x);
    }
  }

  lemma FirstPlainlyRead(it: Item, acc: ClassScan, x: char) returns (t: Token)
    requires IsEntry(it) && !IsDelicate(x) && ItemMatches(it, x)
    ensures t in CollectItem(it, false, acc).firsts && Stands(t, LowerChar(x))
  {
    if IsReadItem(false, it) {
      t := ItemIsRead(it, acc, x);
    } else {
      MisreadIsDelicate(it, x);
      t := SpaceIsRead(acc);
    }
  }

  /** Two characters that fold alike are matched alike. */
  lemma SameFold(it: Item, x: char, y: char)
    requires IsEntry(it) && LowerChar(x) == LowerChar(y)
    ensures ItemMatches(it, x) <==> ItemMatches(it, y)
  {
  }

  lemma SameFolds(items: seq<Item>, x: char, y: char)
    requires AreEntries(items) && LowerChar(x) == LowerChar(y)
    ensures SomeItemMatches(items, x) <==> SomeItemMatches(items, y)
  {
    forall it | it in items ensures ItemMatches(it, x) <==> ItemMatches(it, y) {
      EntryOf(items, it);
      SameFold(it, x, y);
    }
  }

  lemma {:induction false} EntryOf(items: seq<Item>, it: Item)
    requires AreEntries(items) && it in items
    ensures IsEntry(it)
  {
    if it != items[0] {
      assert items == [items[0]] + items[1..];
      EntryOf(items[1..], it);
    }
  }

  lemma NarrowExcludes(it: Item, acc: ClassScan, x: char)
    requires IsEntry(it) && !IsWide(it) && !ItemMatches(it, x) && LowerChar(x) !in CONTROLS
    requires LowerChar(x) !in acc.excluded
    ensures LowerChar(x) !in CollectItem(it, true, acc).excluded
    ensures CollectItem(it, true, acc).unbounded == acc.unbounded
  {
    if it.Escaped? && it.c in CONTROLS {
      assert LowerChar(it.c) == it.c;
    } else {
      ItemExcludes(it, acc, x);
    }
  }

  lemma {:induction false} AllExclude(items: seq<Item>, acc: ClassScan, x: char)
    requires AreEntries(items) && !HasWide(items) && !SomeItemMatches(items, x) && LowerChar(x) !in CONTROLS
    requires LowerChar(x) !in acc.excluded
    ensures LowerChar(x) !in Collect(items, true, acc).excluded
    ensures Collect(items, true, acc).unbounded == acc.unbounded
    decreases |items|
  {
    if items != [] {
      var rest := items[1..];
      assert items == [items[0]] + rest;
      assert !ItemMatches(items[0], x) && !IsWide(items[0]);
      assert !HasWide(rest) && !SomeItemMatches(rest, x);
      NarrowExcludes(items[0], acc, x);
      AllExclude(rest, CollectItem(items[0], true, acc), x);
    }
  }

  lemma {:induction false} WideIsUnbounded(items: seq<Item>, acc: ClassScan)
    requires acc.unbounded || HasWide(items)
    ensures Collect(items, true, acc).unbounded
    decreases |items|
  {
    if items != [] {
      assert items == [items[0]] + items[1..];
      assert HasWide(items) ==> IsWide(items[0]) || HasWide(items[1..]);
      WideIsUnbounded(items[1..], CollectItem(items[0], true, acc));
    }
  }

  lemma {:induction false} NothingCollected(items: seq<Item>, acc: ClassScan)
    requires AreEntries(items) && !HasOutside(items) && acc.firsts == {}
    ensures Collect(items, true, acc).firsts == {}
    decreases |items|
  {
    if items != [] {
      assert items == [items[0]] + items[1..];
      assert !IsOutside(items[0]) && !HasOutside(items[1..]);
      NothingCollected(items[1..], CollectItem(items[0], true, acc));
    }
  }

  lemma OutsideCollects(c: char, acc: ClassScan, y: char)
    requires c in {'D', 'S', 'W'} && y in ShorthandChars(LowerChar(c))
    ensures Lit(y) in CollectItem(Escaped(c), true, acc).firsts
  {
  }

  /** What an upper-case shorthand leaves out is in the table, but for the delicate characters. */
  lemma LeftOutIsListed(c: char, x: char)
    requires c in {'D', 'S', 'W'} && !EscapeMatches(c, x) && !IsDelicate(x)
    ensures LowerChar(x) in ShorthandChars(LowerChar(c))
  {
    ShorthandsAre(x);
  }

  lemma {:induction false} OutsideIsRead(items: seq<Item>, acc: ClassScan, x: char) returns (t: Token)
    requires HasOutside(items) && !SomeItemMatches(items, x) && !IsDelicate(x)
    ensures t in Collect(items, true, acc).firsts && Stands(t, LowerChar(x))
    decreases |items|
  {
    var rest, after := items[1..], CollectItem(items[0], true, acc);
    assert items == [items[0]] + rest;
    if IsOutside(items[0]) {
      assert !ItemMatches(items[0], x);
      LeftOutIsListed(items[0].c, x);
      OutsideCollects(items[0].c, acc, LowerChar(x));
      t := Lit(LowerChar(x));
      FirstsGrow(rest, true, after, t);
    } else {
      assert HasOutside(rest) && !SomeItemMatches(rest, x);
      t := OutsideIsRead(rest, after, x);
    }
  }

  /** Off the delicate characters every class is read right, but a negated one over a wide range. */
  lemma PlainReadsOn(negated: bool, items: seq<Item>, x: char)
    requires AreEntries(items) && !IsDelicate(x) && LowerChar(x) !in CONTROLS
    requires negated && HasWide(items) ==> HasOutside(items)
    ensures ReadsOn(negated, items, x)
  {
    if SomeItemMatches(items, x) != negated {
      if !negated {
        var t := PlainlyRead(items, NOTHING, x);
      } else if HasWide(items) {
        var t := OutsideIsRead(items, NOTHING, x);
      } else {
        AllExclude(items, NOTHING, x);
        var scan := Collect(items, true, NOTHING);
        var t := if scan.excluded == {} then Lit('.') else Not(scan.excluded);
        assert t in TokensOf(true, scan) && Stands(t, LowerChar(x));
      }
    }
  }

  lemma FoldReadsOn(negated: bool, items: seq<Item>, x: char)
    requires AreEntries(items) && LowerChar(x) in CONTROLS && ReadsOn(negated, items, LowerChar(x))
    ensures ReadsOn(negated, items, x)
  {
    SameFolds(items, x, LowerChar(x));
  }

  lemma WideReadsNothing(items: seq<Item>, x: char)
    requires AreEntries(items) && HasWide(items) && !HasOutside(items)
    ensures ReadsOn(true, items, x) <==> SomeItemMatches(items, x)
  {
    WideIsUnbounded(items, NOTHING);
    NothingCollected(items, NOTHING);
  }

  /** The tokens of a class stand for everything it matches exactly when they do on the delicate characters; those of
      a negated class over a wide range without an upper-case shorthand only when it matches nothing. */
  lemma ClassIsReadIff(negated: bool, items: seq<Item>)
    requires AreItems(items)
    ensures IsReadLeaf(Class(negated, items)) <==>
            if negated && HasWide(items) && !HasOutside(items) then forall x :: SomeItemMatches(items, x)
            else forall x :: IsDelicate(x) ==> ReadsOn(negated, items, x)
  {
    EntriesOf(items);
    if negated && HasWide(items) && !HasOutside(items) {
      forall x ensures ReadsOn(negated, items, x) <==> SomeItemMatches(items, x) { WideReadsNothing(items, x); }
    } else if forall x :: IsDelicate(x) ==> ReadsOn(negated, items, x) {
      forall x ensures ReadsOn(negated, items, x) {
        if !IsDelicate(x) {
          if LowerChar(x) in CONTROLS {
            assert IsDelicate(LowerChar(x));
            FoldReadsOn(negated, items, x);
          } else {
            PlainReadsOn(negated, items, x);
          }
        }
      }
    }
  }
}
