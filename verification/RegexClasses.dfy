/** Character classes as text: where they close, and how every walk of the scanner passes over them. */
module RegexClasses {
  import opened Text
  import opened RegexScanner
  import opened RegexSyntax

  // ---------- where a class closes ----------

  /** An entry, or a dash that stands for itself. */
  predicate IsEntry(it: Item) {
    IsItem(it) || it == One('-')
  }

  predicate AreEntries(items: seq<Item>) {
    items == [] || (IsEntry(items[0]) && AreEntries(items[1..]))
  }

  lemma {:induction false} EntriesFrom(items: seq<Item>)
    requires forall k :: 0 <= k < |items| ==> IsEntry(items[k])
    ensures AreEntries(items)
  {
    if items != [] { EntriesFrom(items[1..]); }
  }

  lemma EntriesOf(items: seq<Item>)
    requires AreItems(items)
    ensures AreEntries(items)
  {
    EntriesFrom(items);
  }

  lemma CloseLater(p: string, j: nat)
    requires j < |p| && p[j] != ']'
    ensures ClassClose(p, j) == ClassClose(p, j + if p[j] == '\\' then 2 else 1)
  {
  }

  lemma CloseAfterItem(p: string, j: nat, it: Item)
    requires IsEntry(it) && At(p, j, ItemText(it))
    ensures ClassClose(p, j) == ClassClose(p, j + |ItemText(it)|)
  {
    var t := ItemText(it);
    AtIndex(p, j, t, 0);
    CloseLater(p, j);
    if it.Range? {
      AtIndex(p, j, t, 1);
      AtIndex(p, j, t, 2);
      CloseLater(p, j + 1);
      CloseLater(p, j + 2);
    }
  }

  /** Where the second entry starts. */
  lemma ItemsAt(p: string, j: nat, items: seq<Item>) returns (next: nat)
    requires items != [] && At(p, j, ItemsText(items))
    ensures At(p, j, ItemText(items[0])) && At(p, next, ItemsText(items[1..]))
    ensures next == j + |ItemText(items[0])| && next + |ItemsText(items[1..])| == j + |ItemsText(items)|
  {
    next := j + |ItemText(items[0])|;
    AtConcat(p, j, ItemText(items[0]), ItemsText(items[1..]));
  }

  lemma {:induction false} CloseAfterItems(p: string, j: nat, items: seq<Item>, bracket: nat)
    requires At(p, j, ItemsText(items)) && bracket == j + |ItemsText(items)| && Is(p, bracket, ']')
    requires AreEntries(items)
    ensures ClassClose(p, j) == Some(bracket + 1)
    decreases |items|
  {
    if items != [] {
      var next := ItemsAt(p, j, items);
      CloseAfterItem(p, j, items[0]);
      CloseAfterItems(p, next, items[1..], bracket);
    }
  }

  lemma ClassText(p: string, i: nat, r: Re)
    requires r.Class? && At(p, i, Print(r))
    ensures At(p, i, ClassOpening(r.negated)) && Is(p, i, '[')
    ensures At(p, i + |ClassOpening(r.negated)|, ItemsText(r.items))
    ensures Is(p, i + |ClassOpening(r.negated)| + |ItemsText(r.items)|, ']')
    ensures |Print(r)| == |ClassOpening(r.negated)| + |ItemsText(r.items)| + 1
  {
    var o, t := ClassOpening(r.negated), ItemsText(r.items);
    AtConcat(p, i, o + t, "]");
    AtConcat(p, i, o, t);
    AtIndex(p, i, o, 0);
    AtIndex(p, i + |o| + |t|, "]", 0);
  }

  lemma FirstOfItems(items: seq<Item>)
    requires AreItems(items)
    ensures ItemsText(items)[0] == ItemText(items[0])[0] != ']'
  {
  }

  /** What follows the bracket: `^` exactly in a negated class, and never a `]`. */
  lemma ClassHead(p: string, i: nat, r: Re)
    requires r.Class? && IsLeaf(r) && At(p, i, Print(r))
    ensures Is(p, i + 1, '^') <==> r.negated
    ensures !Is(p, i + |ClassOpening(r.negated)|, ']')
  {
    var o := ClassOpening(r.negated);
    ClassText(p, i, r);
    FirstOfItems(r.items);
    AtIndex(p, i + |o|, ItemsText(r.items), 0);
    AtIndex(p, i, o, |o| - 1);
  }

  /** A class ends where its text does. */
  lemma ClassEndsThere(p: string, i: nat, r: Re)
    requires r.Class? && IsLeaf(r) && At(p, i, Print(r))
    ensures ClassEnd(p, i) == Some(i + |Print(r)|)
  {
    ClassText(p, i, r);
    ClassHead(p, i, r);
    EntriesOf(r.items);
    CloseAfterItems(p, i + |ClassOpening(r.negated)|, r.items, i + |Print(r)| - 1);
  }

  /** Where the class opening at `i` closes, looking from just past the bracket. */
  lemma ClassInside(p: string, i: nat, r: Re)
    requires r.Class? && IsLeaf(r) && At(p, i, Print(r))
    ensures Is(p, i, '[') && ClassClose(p, i + 1) == Some(i + |Print(r)|)
  {
    ClassText(p, i, r);
    ClassHead(p, i, r);
    EntriesOf(r.items);
    CloseAfterItems(p, i + |ClassOpening(r.negated)|, r.items, i + |Print(r)| - 1);
    if r.negated { CloseLater(p, i + 1); }
  }

  // ---------- the walks that pass over a class ----------

  lemma {:induction false} BodyPastClass(p: string, close: nat, j: nat, opens: seq<nat>, end: nat)
    requires ClassClose(p, j) == Some(end) && end <= close
    ensures BodyFrom(p, close, j, true, opens) == BodyFrom(p, close, end, false, opens)
    decreases |p| - j
  {
    if p[j] != ']' {
      CloseLater(p, j);
      BodyPastClass(p, close, j + if p[j] == '\\' then 2 else 1, opens, end);
    }
  }

  lemma {:induction false} BranchesPastClass(t: string, j: nat, depth: int, start: nat, end: nat)
    requires ClassClose(t, j) == Some(end) && start <= |t|
    ensures BranchesFrom(t, j, depth, true, start) == BranchesFrom(t, end, depth, false, start)
    decreases |t| - j
  {
    if t[j] != ']' {
      CloseLater(t, j);
      BranchesPastClass(t, j + if t[j] == '\\' then 2 else 1, depth, start, end);
    }
  }

  lemma {:induction false} GroupPastClass(p: string, j: nat, depth: int, end: nat)
    requires ClassClose(p, j) == Some(end)
    ensures GroupClose(p, j, depth, true) == GroupClose(p, end, depth, false)
    decreases |p| - j
  {
    if p[j] != ']' {
      CloseLater(p, j);
      GroupPastClass(p, j + if p[j] == '\\' then 2 else 1, depth, end);
    }
  }

  // ---------- what the one-pass scan reads inside a class ----------

  /** The character after the first entry. */
  function Following(items: seq<Item>): char
    requires items != []
  {
    if |items| == 1 then ']' else ItemText(items[1])[0]
  }

  predicate IsOptionalChar(c: char) {
    c == '*' || c == '?'
  }

  /** Some escape stands before a `*`, `+` or `?`, which the scan takes for its quantifier. */
  predicate IsMarked(items: seq<Item>) {
    items != [] && ((items[0].Escaped? && QuantifierChar(Following(items))) || IsMarked(items[1..]))
  }

  /** Some escape stands before anything but a `*` or `?`: the scan takes it for an atom that must be there. */
  predicate IsSettled(items: seq<Item>) {
    items != [] && ((items[0].Escaped? && !IsOptionalChar(Following(items))) || IsSettled(items[1..]))
  }

  lemma FirstItemAt(p: string, j: nat, items: seq<Item>)
    requires items != [] && At(p, j, ItemsText(items))
    ensures Is(p, j, ItemText(items[0])[0])
  {
    var next := ItemsAt(p, j, items);
    AtIndex(p, j, ItemText(items[0]), 0);
  }

  lemma FollowingAt(p: string, j: nat, items: seq<Item>, bracket: nat)
    requires items != [] && At(p, j, ItemsText(items)) && bracket == j + |ItemsText(items)| && Is(p, bracket, ']')
    ensures Is(p, j + |ItemText(items[0])|, Following(items))
  {
    var next := ItemsAt(p, j, items);
    if |items| > 1 { FirstItemAt(p, next, items[1..]); }
  }
}
