/** The one-pass stack scan decides the recursive definitions: what each stretch of printed text
    does to the stack, and which group is refused. */
module RegexFirstPass {
  import opened Text
  import opened RegexScanner
  import opened RegexSyntax
  import opened RegexClasses

  // ---------- what the scan sees ----------

  /** What the scan takes for nullable: as the language has it, but for a quantified class it takes some
      escape of for an atom that must be there. */
  predicate SeenNullable(r: Re) {
    match r
    case Empty => true
    case Group(_, body) => SeenNullable(body)
    case Rep(atom, q, _) => (q != Plus && !(atom.Class? && IsSettled(atom.items))) || SeenNullable(atom)
    case Cat(first, rest) => SeenNullable(first) && SeenNullable(rest)
    case Alt(left, right) => SeenNullable(left) || SeenNullable(right)
    case _ => false
  }

  /** What the scan takes for a quantifier: every quantifier, and one that only follows an escape in a class. */
  predicate SeenQuantifier(r: Re) {
    match r
    case Class(_, items) => IsMarked(items)
    case Group(_, body) => SeenQuantifier(body)
    case Rep(_, _, _) => true
    case Cat(first, rest) => SeenQuantifier(first) || SeenQuantifier(rest)
    case Alt(left, right) => SeenQuantifier(left) || SeenQuantifier(right)
    case _ => false
  }

  /** What reading a tree does to the frame of the group that holds it. */
  function FrameAfter(f: Frame, r: Re): Frame
    decreases r
  {
    match r
    case Empty => f
    case Class(_, items) => f.(hasRepeat := f.hasRepeat || IsMarked(items), branchNullable := false)
    case Group(_, body) =>
      f.(hasRepeat := f.hasRepeat || SeenQuantifier(body), branchNullable := f.branchNullable && SeenNullable(body))
    case Rep(atom, q, _) =>
      f.(hasRepeat := true, branchNullable := f.branchNullable && SeenNullable(r))
    case Cat(first, rest) => FrameAfter(FrameAfter(f, first), rest)
    case Alt(left, right) =>
      var g := FrameAfter(f, left);
      FrameAfter(g.(hasAlternation := true, anyBranchNullable := g.anyBranchNullable || g.branchNullable,
                    branchNullable := true), right)
    case _ => f.(branchNullable := false)
  }

  /** The first group refused, reading groups in the order they close. */
  function FirstRefusal(r: Re): Option<Reason> {
    match r
    case Group(_, body) => FirstRefusal(body)
    case Rep(atom, q, _) =>
      var inner := FirstRefusal(atom);
      if inner.Some? || !atom.Group? || !Repeats(q) then inner
      else if SeenNullable(atom.body) then Some(NullableGroup)
      else if SeenQuantifier(atom.body) then Some(NestedRepetition)
      else None
    case Cat(first, rest) =>
      var inner := FirstRefusal(first);
      if inner.Some? then inner else FirstRefusal(rest)
    case Alt(left, right) =>
      var inner := FirstRefusal(left);
      if inner.Some? then inner else FirstRefusal(right)
    case _ => None
  }

  /** Where the `)` of a group is when its text starts at `i`. */
  function CloseIndex(g: Re, i: nat): nat
    requires g.Group?
  {
    i + |Opening(g.capturing)| + |Print(g.body)|
  }

  /** Where the repeated alternations of `r` close when its text starts at `i`. */
  function AlternationEnds(r: Re, i: nat): seq<nat> {
    match r
    case Group(capturing, body) => AlternationEnds(body, i + |Opening(capturing)|)
    case Rep(atom, q, _) =>
      AlternationEnds(atom, i) + (if atom.Group? && Repeats(q) && atom.body.Alt? then [CloseIndex(atom, i)] else [])
    case Cat(first, rest) => AlternationEnds(first, i) + AlternationEnds(rest, i + |Print(first)|)
    case Alt(left, right) => AlternationEnds(left, i) + AlternationEnds(right, i + |Print(left)| + 1)
    case _ => []
  }

  function StackAfter(stack: seq<Frame>, r: Re): seq<Frame> {
    if stack == [] then [] else SetTop(stack, FrameAfter(Top(stack), r))
  }

  function ScanAfter(s: Scan, r: Re, i: nat): Scan {
    Scan(StackAfter(s.stack, r), false, s.ends + AlternationEnds(r, i))
  }

  const FRESH := Frame(false, false, false, true)

  // ---------- frames ----------

  lemma {:induction false} BranchFrame(f: Frame, r: Re)
    requires IsBranch(r)
    ensures var g := FrameAfter(f, r);
      g == Frame(f.hasRepeat || SeenQuantifier(r), f.hasAlternation, f.anyBranchNullable,
                 f.branchNullable && SeenNullable(r))
    decreases r
  {
    match r
    case Cat(first, rest) => BranchFrame(f, first); BranchFrame(FrameAfter(f, first), rest);
    case _ =>
  }

  lemma {:induction false} BodyFrame(f: Frame, r: Re)
    requires WellFormed(r) && f.branchNullable
    ensures var g := FrameAfter(f, r);
      && g.hasRepeat == (f.hasRepeat || SeenQuantifier(r))
      && g.hasAlternation == (f.hasAlternation || r.Alt?)
      && (g.anyBranchNullable || g.branchNullable) == (f.anyBranchNullable || SeenNullable(r))
    decreases r
  {
    match r
    case Alt(left, right) =>
      BodyFrame(f, left);
      var g := FrameAfter(f, left);
      BodyFrame(g.(hasAlternation := true, anyBranchNullable := g.anyBranchNullable || g.branchNullable,
                   branchNullable := true), right);
    case _ => BranchFrame(f, r);
  }

  // ---------- the scan over printed text ----------

  /** The scan of one pattern as a function value, so that lemmas about trees do not unfold it. */
  type Run = (nat, Scan) -> Outcome

  predicate Look(i: nat, s: Scan) {
    true
  }

  ghost predicate IsScan(run: Run, p: string) {
    forall i: nat, s: Scan {:trigger Look(i, s)} :: run(i, s) == ScanFrom(p, i, s)
  }

  /** How the scan ends after a step. */
  function Taken(run: Run, step: Step): Outcome {
    match step
    case Continue(next, s) => run(next, s)
    case Refuse(reason) => Refused(reason)
    case GiveUp => Admitted
  }

  lemma OneStep(run: Run, p: string, i: nat, s: Scan, step: Step)
    requires IsScan(run, p) && i < |p| && StepAt(p, i, s) == step
    ensures run(i, s) == Taken(run, step)
  {
    assert Look(i, s);
    match step
    case Continue(next, s') => assert Look(next, s');
    case _ =>
  }

  lemma Advance(run: Run, p: string, i: nat, s: Scan, next: nat, s': Scan)
    requires IsScan(run, p) && i < |p| && StepAt(p, i, s) == Continue(next, s')
    ensures run(i, s) == run(next, s')
  {
    OneStep(run, p, i, s, Continue(next, s'));
  }

  /** The scan from `i` ends as `r` says: refused inside it, or carried on from its end. */
  ghost predicate Scans(run: Run, i: nat, r: Re, s: Scan) {
    run(i, s) ==
    match FirstRefusal(r)
    case Some(reason) => Refused(reason)
    case None => run(i + |Print(r)|, ScanAfter(s, r, i))
  }

  lemma {:induction false} ScanTree(run: Run, p: string, i: nat, r: Re, s: Scan)
    requires IsScan(run, p)
    requires WellFormed(r) && At(p, i, Print(r)) && !s.inClass
    requires !IsQuantifierAt(p, i + |Print(r)|)
    requires r.Alt? && s.stack != [] ==> Top(s.stack).branchNullable
    ensures Scans(run, i, r, s)
    decreases r, 3
  {
    match r
    case Empty =>
      assert StackAfter(s.stack, r) == s.stack;
      assert s.ends + [] == s.ends;
    case Group(_, _) =>
      assert IsBranch(r);
      ScanGroup(run, p, i, r, s, None);
      assert Closed(s, r, i, None) == ScanAfter(s, r, i);
    case Rep(atom, q, isLazy) =>
      assert IsBranch(r);
      ScanRep(run, p, i, r, s);
    case Cat(_, _) => ScanCat(run, p, i, r, s);
    case Alt(left, right) => ScanAlt(run, p, i, r, s);
    case _ =>
      Parts(r);
      ScanLeaf(run, p, i, r, s);
  }

  lemma {:induction false} ScanCat(run: Run, p: string, i: nat, r: Re, s: Scan)
    requires IsScan(run, p)
    requires r.Cat? && WellFormed(r) && At(p, i, Print(r)) && !s.inClass
    requires !IsQuantifierAt(p, i + |Print(r)|)
    ensures Scans(run, i, r, s)
    decreases r, 2
  {
    ScanFirst(run, p, i, r, s);
    if FirstRefusal(r.first).None? {
      ScanRest(run, p, i, r, s);
      CatAfter(s, r, i);
    }
    CatScans(run, i, r, s);
  }

  lemma {:induction false} ScanFirst(run: Run, p: string, i: nat, r: Re, s: Scan)
    requires IsScan(run, p)
    requires r.Cat? && WellFormed(r) && At(p, i, Print(r)) && !s.inClass
    requires !IsQuantifierAt(p, i + |Print(r)|)
    ensures Scans(run, i, r.first, s)
    decreases r, 1
  {
    CatText(p, i, r);
    ScanTree(run, p, i, r.first, s);
  }

  lemma {:induction false} ScanRest(run: Run, p: string, i: nat, r: Re, s: Scan)
    requires IsScan(run, p)
    requires r.Cat? && WellFormed(r) && At(p, i, Print(r)) && !s.inClass
    requires !IsQuantifierAt(p, i + |Print(r)|)
    ensures Scans(run, i + |Print(r.first)|, r.rest, ScanAfter(s, r.first, i))
    decreases r, 1
  {
    CatText(p, i, r);
    ScanTree(run, p, i + |Print(r.first)|, r.rest, ScanAfter(s, r.first, i));
  }

  lemma CatScans(run: Run, i: nat, r: Re, s: Scan)
    requires r.Cat? && Scans(run, i, r.first, s)
    requires FirstRefusal(r.first).None? ==>
               Scans(run, i + |Print(r.first)|, r.rest, ScanAfter(s, r.first, i)) &&
               ScanAfter(ScanAfter(s, r.first, i), r.rest, i + |Print(r.first)|) == ScanAfter(s, r, i)
    ensures Scans(run, i, r, s)
  {
    assert i + |Print(r)| == i + |Print(r.first)| + |Print(r.rest)|;
  }

  lemma CatText(p: string, i: nat, r: Re)
    requires r.Cat? && WellFormed(r) && At(p, i, Print(r))
    requires !IsQuantifierAt(p, i + |Print(r)|)
    ensures WellFormed(r.first) && !r.first.Alt? && WellFormed(r.rest) && !r.rest.Alt?
    ensures At(p, i, Print(r.first)) && At(p, i + |Print(r.first)|, Print(r.rest))
    ensures i + |Print(r)| == i + |Print(r.first)| + |Print(r.rest)|
    ensures !IsQuantifierAt(p, i + |Print(r.first)|)
  {
    assert IsBranch(r);
    BranchIsWellFormed(r.first);
    BranchIsWellFormed(r.rest);
    AtConcat(p, i, Print(r.first), Print(r.rest));
    NoQuantifierBefore(p, i + |Print(r.first)|, r.rest);
  }

  lemma StackOfCat(stack: seq<Frame>, a: Re, b: Re)
    ensures StackAfter(StackAfter(stack, a), b) == StackAfter(stack, Cat(a, b))
  {
    if stack != [] {
      var f := FrameAfter(Top(stack), a);
      assert Top(SetTop(stack, f)) == f && SetTop(stack, f)[..|stack| - 1] == stack[..|stack| - 1];
    }
  }

  lemma EndsOfCat(ends: seq<nat>, a: Re, b: Re, i: nat)
    ensures ends + AlternationEnds(a, i) + AlternationEnds(b, i + |Print(a)|) == ends + AlternationEnds(Cat(a, b), i)
  {
  }

  lemma CatAfter(s: Scan, r: Re, i: nat)
    requires r.Cat?
    ensures ScanAfter(ScanAfter(s, r.first, i), r.rest, i + |Print(r.first)|) == ScanAfter(s, r, i)
  {
    StackOfCat(s.stack, r.first, r.rest);
    EndsOfCat(s.ends, r.first, r.rest, i);
  }

  lemma {:induction false} ScanAlt(run: Run, p: string, i: nat, r: Re, s: Scan)
    requires IsScan(run, p)
    requires r.Alt? && WellFormed(r) && At(p, i, Print(r)) && !s.inClass
    requires !IsQuantifierAt(p, i + |Print(r)|)
    requires s.stack != [] ==> Top(s.stack).branchNullable
    ensures Scans(run, i, r, s)
    decreases r, 1
  {
    ScanLeft(run, p, i, r, s);
    if FirstRefusal(r.left).None? {
      ScanSeparator(run, p, i, r, s);
      AfterLeftIsFresh(s, r, i);
      ScanRight(run, p, i, r, AfterLeft(s, r, i));
      AltAfter(s, r, i);
    }
    AltScans(run, i, r, s);
  }

  /** The scan state past the `|` of an alternation. */
  function AfterLeft(s: Scan, r: Re, i: nat): Scan
    requires r.Alt?
  {
    var s1 := ScanAfter(s, r.left, i);
    s1.(stack := NextBranch(s1.stack))
  }

  lemma {:induction false} ScanLeft(run: Run, p: string, i: nat, r: Re, s: Scan)
    requires IsScan(run, p)
    requires r.Alt? && WellFormed(r) && At(p, i, Print(r)) && !s.inClass
    requires s.stack != [] ==> Top(s.stack).branchNullable
    ensures Scans(run, i, r.left, s)
    decreases r, 0
  {
    AltText(p, i, r);
    ScanTree(run, p, i, r.left, s);
  }

  lemma ScanSeparator(run: Run, p: string, i: nat, r: Re, s: Scan)
    requires IsScan(run, p)
    requires r.Alt? && At(p, i, Print(r))
    ensures run(i + |Print(r.left)|, ScanAfter(s, r.left, i)) ==
            run(i + |Print(r.left)| + 1, AfterLeft(s, r, i))
  {
    AltText(p, i, r);
    ScanBar(run, p, i + |Print(r.left)|, ScanAfter(s, r.left, i));
  }

  lemma {:induction false} ScanRight(run: Run, p: string, i: nat, r: Re, s: Scan)
    requires IsScan(run, p)
    requires r.Alt? && WellFormed(r) && At(p, i, Print(r))
    requires !IsQuantifierAt(p, i + |Print(r)|) && !s.inClass && (s.stack != [] ==> Top(s.stack).branchNullable)
    ensures Scans(run, i + |Print(r.left)| + 1, r.right, s)
    decreases r, 0
  {
    AltText(p, i, r);
    ScanTree(run, p, i + |Print(r.left)| + 1, r.right, s);
  }

  lemma AfterLeftIsFresh(s: Scan, r: Re, i: nat)
    requires r.Alt?
    ensures var s' := AfterLeft(s, r, i); !s'.inClass && (s'.stack != [] ==> Top(s'.stack).branchNullable)
  {
  }

  lemma AltScans(run: Run, i: nat, r: Re, s: Scan)
    requires r.Alt? && Scans(run, i, r.left, s)
    requires FirstRefusal(r.left).None? ==>
               run(i + |Print(r.left)|, ScanAfter(s, r.left, i)) ==
               run(i + |Print(r.left)| + 1, AfterLeft(s, r, i)) &&
               Scans(run, i + |Print(r.left)| + 1, r.right, AfterLeft(s, r, i)) &&
               ScanAfter(AfterLeft(s, r, i), r.right, i + |Print(r.left)| + 1) == ScanAfter(s, r, i)
    ensures Scans(run, i, r, s)
  {
    assert i + |Print(r)| == i + |Print(r.left)| + 1 + |Print(r.right)|;
  }

  lemma AltText(p: string, i: nat, r: Re)
    requires r.Alt? && At(p, i, Print(r))
    ensures At(p, i, Print(r.left)) && Is(p, i + |Print(r.left)|, '|') && At(p, i + |Print(r.left)| + 1, Print(r.right))
    ensures i + |Print(r)| == i + |Print(r.left)| + 1 + |Print(r.right)|
  {
    AtConcat(p, i, Print(r.left) + "|", Print(r.right));
    AtConcat(p, i, Print(r.left), "|");
    AtIndex(p, i + |Print(r.left)|, "|", 0);
  }

  lemma AltAfter(s: Scan, r: Re, i: nat)
    requires r.Alt?
    ensures ScanAfter(AfterLeft(s, r, i), r.right, i + |Print(r.left)| + 1) == ScanAfter(s, r, i)
  {
    assert s.ends + AlternationEnds(r.left, i) + AlternationEnds(r.right, i + |Print(r.left)| + 1) ==
           s.ends + AlternationEnds(r, i);
    if s.stack != [] {
      var s1 := ScanAfter(s, r.left, i);
      var g := FrameAfter(Top(s.stack), r.left);
      assert Top(s1.stack) == g;
    }
  }

  function NextBranch(stack: seq<Frame>): seq<Frame> {
    if stack == [] then []
    else
      var f := Top(stack);
      SetTop(stack, f.(hasAlternation := true, anyBranchNullable := f.anyBranchNullable || f.branchNullable,
                       branchNullable := true))
  }

  lemma ScanBar(run: Run, p: string, bar: nat, s: Scan)
    requires IsScan(run, p)
    requires Is(p, bar, '|') && !s.inClass
    ensures run(bar, s) == run(bar + 1, s.(stack := NextBranch(s.stack)))
  {
    Advance(run, p, bar, s, bar + 1, s.(stack := NextBranch(s.stack)));
  }

  // ---------- leaves ----------

  function ClassFrame(f: Frame, items: seq<Item>): Frame {
    f.(hasRepeat := f.hasRepeat || IsMarked(items), branchNullable := f.branchNullable && !IsSettled(items))
  }

  function ClassStack(stack: seq<Frame>, items: seq<Item>): seq<Frame> {
    if stack == [] then [] else SetTop(stack, ClassFrame(Top(stack), items))
  }

  /** What an escape in a class does to the frame: it is read as an atom. */
  function ItemStack(stack: seq<Frame>, it: Item, after: char): seq<Frame> {
    if stack == [] || !it.Escaped? then stack
    else
      var f := Top(stack);
      SetTop(stack, f.(hasRepeat := f.hasRepeat || QuantifierChar(after),
                       branchNullable := f.branchNullable && IsOptionalChar(after)))
  }

  lemma FollowingIsNoBrace(items: seq<Item>)
    requires items != [] && AreEntries(items)
    ensures Following(items) != '{'
  {
    if |items| > 1 { assert AreEntries(items[1..]) && IsEntry(items[1]); }
  }

  lemma ReadInClass(p: string, j: nat, stack: seq<Frame>, after: char)
    requires Is(p, j, after) && after != '{'
    ensures AtomRead(p, j, stack) == ItemStack(stack, Escaped('d'), after)
  {
  }

  lemma ScanItem(run: Run, p: string, j: nat, it: Item, after: char, s: Scan)
    requires IsScan(run, p) && IsEntry(it) && s.inClass && after != '{'
    requires At(p, j, ItemText(it)) && Is(p, j + |ItemText(it)|, after)
    ensures run(j, s) == run(j + |ItemText(it)|, s.(stack := ItemStack(s.stack, it, after)))
  {
    var t := ItemText(it);
    AtIndex(p, j, t, 0);
    match it
    case One(_) => Advance(run, p, j, s, j + 1, s);
    case Range(_, _) =>
      AtIndex(p, j, t, 1);
      AtIndex(p, j, t, 2);
      Advance(run, p, j, s, j + 1, s);
      Advance(run, p, j + 1, s, j + 2, s);
      Advance(run, p, j + 2, s, j + 3, s);
    case Escaped(_) =>
      ReadInClass(p, j + 2, s.stack, after);
      Advance(run, p, j, s, j + 2, s.(stack := ItemStack(s.stack, it, after)));
  }

  lemma ClassStackStep(stack: seq<Frame>, items: seq<Item>)
    requires items != []
    ensures ClassStack(ItemStack(stack, items[0], Following(items)), items[1..]) == ClassStack(stack, items)
  {
    if !items[0].Escaped? {
      assert IsMarked(items) == IsMarked(items[1..]) && IsSettled(items) == IsSettled(items[1..]);
    }
  }

  lemma {:induction false} ScanItems(run: Run, p: string, j: nat, items: seq<Item>, bracket: nat, s: Scan)
    requires IsScan(run, p) && AreEntries(items) && s.inClass
    requires At(p, j, ItemsText(items)) && bracket == j + |ItemsText(items)| && Is(p, bracket, ']')
    ensures run(j, s) == run(bracket + 1, Scan(ClassStack(s.stack, items), false, s.ends))
    decreases |items|
  {
    if items == [] {
      assert ClassStack(s.stack, items) == s.stack;
      Advance(run, p, j, s, j + 1, s.(inClass := false));
    } else {
      var next := ItemsAt(p, j, items);
      FollowingAt(p, j, items, bracket);
      FollowingIsNoBrace(items);
      var after := Following(items);
      ScanItem(run, p, j, items[0], after, s);
      ScanItems(run, p, next, items[1..], bracket, s.(stack := ItemStack(s.stack, items[0], after)));
      ClassStackStep(s.stack, items);
    }
  }

  /** Past the bracket and the `^`. */
  lemma OpenClass(run: Run, p: string, i: nat, r: Re, s: Scan, s1: Scan)
    requires IsScan(run, p) && r.Class? && IsLeaf(r) && At(p, i, Print(r)) && !s.inClass
    requires s1 == s.(inClass := true, stack := AtomRead(p, i + |Print(r)|, s.stack))
    ensures run(i, s) == run(i + |ClassOpening(r.negated)|, s1)
  {
    ClassText(p, i, r);
    ClassEndsThere(p, i, r);
    Advance(run, p, i, s, i + 1, s1);
    if r.negated {
      AtIndex(p, i, ClassOpening(true), 1);
      Advance(run, p, i + 1, s1, i + 2, s1);
    }
  }

  lemma ScanClassText(run: Run, p: string, i: nat, r: Re, s: Scan)
    requires IsScan(run, p) && r.Class? && IsLeaf(r) && At(p, i, Print(r)) && !s.inClass
    ensures run(i, s) == run(i + |Print(r)|, s.(stack := ClassStack(AtomRead(p, i + |Print(r)|, s.stack), r.items)))
  {
    var s1 := s.(inClass := true, stack := AtomRead(p, i + |Print(r)|, s.stack));
    OpenClass(run, p, i, r, s, s1);
    ClassText(p, i, r);
    EntriesOf(r.items);
    ScanItems(run, p, i + |ClassOpening(r.negated)|, r.items, i + |Print(r)| - 1, s1);
  }

  function LeafStack(stack: seq<Frame>, r: Re): seq<Frame> {
    if r.Class? then ClassStack(stack, r.items) else stack
  }

  /** A leaf is read as one atom, whose nullability what follows settles. */
  lemma ScanLeafText(run: Run, p: string, i: nat, r: Re, s: Scan)
    requires IsScan(run, p) && IsLeaf(r) && At(p, i, Print(r)) && !s.inClass
    ensures run(i, s) == run(i + |Print(r)|, s.(stack := LeafStack(AtomRead(p, i + |Print(r)|, s.stack), r)))
  {
    if r.Class? {
      ScanClassText(run, p, i, r, s);
    } else {
      AtIndex(p, i, Print(r), 0);
      assert !IsQuantifierAt(p, i);
      Advance(run, p, i, s, i + |Print(r)|, s.(stack := AtomRead(p, i + |Print(r)|, s.stack)));
    }
  }

  lemma LeafAfter(p: string, i: nat, r: Re, s: Scan)
    requires IsLeaf(r) && !s.inClass && !IsQuantifierAt(p, i + |Print(r)|)
    ensures FirstRefusal(r).None?
    ensures s.(stack := LeafStack(AtomRead(p, i + |Print(r)|, s.stack), r)) == ScanAfter(s, r, i)
  {
    assert s.ends + [] == s.ends;
  }

  lemma ScanLeaf(run: Run, p: string, i: nat, r: Re, s: Scan)
    requires IsScan(run, p) && IsLeaf(r) && At(p, i, Print(r)) && !s.inClass
    requires !IsQuantifierAt(p, i + |Print(r)|)
    ensures Scans(run, i, r, s)
  {
    ScanLeafText(run, p, i, r, s);
    LeafAfter(p, i, r, s);
  }

  // ---------- groups ----------

  /** Reading a group's opening and body leaves its own frame on top of the stack. */
  function Opened(s: Scan, g: Re, i: nat): Scan
    requires g.Group?
  {
    Scan(s.stack + [FrameAfter(FRESH, g.body)], false,
         s.ends + AlternationEnds(g.body, i + |Opening(g.capturing)|))
  }

  lemma GroupText(p: string, i: nat, g: Re)
    requires g.Group? && At(p, i, Print(g))
    ensures At(p, i, Opening(g.capturing)) && At(p, i + |Opening(g.capturing)|, Print(g.body))
    ensures Is(p, CloseIndex(g, i), ')') && i + |Print(g)| == CloseIndex(g, i) + 1
  {
    var o := Opening(g.capturing);
    AtConcat(p, i, o + Print(g.body), ")");
    AtConcat(p, i, o, Print(g.body));
    AtIndex(p, CloseIndex(g, i), ")", 0);
  }

  lemma OpenGroup(p: string, i: nat, g: Re)
    requires g.Group? && IsAtom(g) && At(p, i, Print(g))
    ensures Is(p, i, '(') && SkipGroupPrefix(p, i) == i + |Opening(g.capturing)|
  {
    GroupText(p, i, g);
    AtIndex(p, i, Opening(g.capturing), 0);
    if g.capturing {
      if Print(g.body) != "" {
        PrintStartsPlainly(g.body);
        AtIndex(p, i + 1, Print(g.body), 0);
      }
      assert !Is(p, i + 1, '?');
    } else {
      AtIndex(p, i, Opening(g.capturing), 1);
      AtIndex(p, i, Opening(g.capturing), 2);
    }
  }

  lemma {:induction false} ScanBody(run: Run, p: string, i: nat, g: Re, s: Scan)
    requires IsScan(run, p)
    requires g.Group? && IsAtom(g) && At(p, i, Print(g)) && !s.inClass
    ensures run(i, s) ==
            match FirstRefusal(g.body)
            case Some(reason) => Refused(reason)
            case None => run(CloseIndex(g, i), Opened(s, g, i))
    decreases g, 0
  {
    GroupText(p, i, g);
    OpenGroup(p, i, g);
    var s1 := s.(stack := s.stack + [FRESH]);
    Advance(run, p, i, s, i + |Opening(g.capturing)|, s1);
    ScanTree(run, p, i + |Opening(g.capturing)|, g.body, s1);
    if FirstRefusal(g.body).None? {
      assert StackAfter(s1.stack, g.body) == Opened(s, g, i).stack;
    }
  }

  /** What follows a printed atom: nothing that quantifies it, or the printed quantifier. */
  ghost predicate Followed(p: string, j: nat, q: Option<Quantifier>) {
    match q
    case None => !IsQuantifierAt(p, j)
    case Some(Star) => Is(p, j, '*')
    case Some(Plus) => Is(p, j, '+')
    case Some(Opt) => Is(p, j, '?')
  }

  function Outermost(g: Re, q: Option<Quantifier>): Re {
    if q.None? then g else Rep(g, q.value, false)
  }

  /** The stack just past the `)`: the parent knows what the group held, the quantifier is unread. */
  function ParentAfter(f: Frame, g: Re, q: Option<Quantifier>): Frame
    requires g.Group?
  {
    f.(hasRepeat := f.hasRepeat || SeenQuantifier(g.body) || (q.Some? && Repeats(q.value)),
       branchNullable := f.branchNullable && SeenNullable(Outermost(g, q)))
  }

  function Closed(s: Scan, g: Re, i: nat, q: Option<Quantifier>): Scan
    requires g.Group?
  {
    Scan(if s.stack == [] then [] else SetTop(s.stack, ParentAfter(Top(s.stack), g, q)), false,
         s.ends + AlternationEnds(Outermost(g, q), i))
  }

  function CloseResult(s: Scan, g: Re, i: nat, q: Option<Quantifier>): Step
    requires g.Group?
  {
    match FirstRefusal(Outermost(g, q))
    case Some(reason) => Refuse(reason)
    case None => Continue(i + |Print(g)|, Closed(s, g, i, q))
  }

  lemma CloseStep(p: string, i: nat, g: Re, s: Scan, q: Option<Quantifier>)
    requires g.Group? && IsAtom(g) && At(p, i, Print(g)) && !s.inClass
    requires Followed(p, i + |Print(g)|, q) && FirstRefusal(g.body).None?
    requires Is(p, CloseIndex(g, i), ')')
    ensures StepAt(p, CloseIndex(g, i), Opened(s, g, i)) == CloseResult(s, g, i, q)
  {
    var close := CloseIndex(g, i);
    var o := Opened(s, g, i);
    BodyFrame(FRESH, g.body);
    QuantifierRead(p, close + 1, q);
    assert close + 1 == i + |Print(g)|;
    assert Top(o.stack) == FrameAfter(FRESH, g.body) && o.stack[..|o.stack| - 1] == s.stack;
    assert StepAt(p, close, o) == CloseGroup(p, close, o);
    assert FirstRefusal(g).None?;
    if FirstRefusal(Outermost(g, q)).None? {
      CloseEnds(i, g, s, q);
      if s.stack != [] {
        CloseParent(p, close, o, Top(s.stack), g, q);
      }
    }
  }

  lemma CloseEnds(i: nat, g: Re, s: Scan, q: Option<Quantifier>)
    requires g.Group? && WellFormed(g.body)
    ensures Closed(s, g, i, q).ends ==
            if q.Some? && Repeats(q.value) && FrameAfter(FRESH, g.body).hasAlternation
            then Opened(s, g, i).ends + [CloseIndex(g, i)] else Opened(s, g, i).ends
  {
    BodyFrame(FRESH, g.body);
    GroupEnds(g, i, q);
    var inner := AlternationEnds(g.body, i + |Opening(g.capturing)|);
    assert s.ends + (inner + [CloseIndex(g, i)]) == s.ends + inner + [CloseIndex(g, i)];
  }

  lemma GroupEnds(g: Re, i: nat, q: Option<Quantifier>)
    requires g.Group?
    ensures AlternationEnds(Outermost(g, q), i) ==
            AlternationEnds(g.body, i + |Opening(g.capturing)|) +
            if q.Some? && Repeats(q.value) && g.body.Alt? then [CloseIndex(g, i)] else []
  {
    assert AlternationEnds(g, i) == AlternationEnds(g.body, i + |Opening(g.capturing)|);
    if q.Some? {
      assert AlternationEnds(Rep(g, q.value, false), i) ==
             AlternationEnds(g, i) + (if Repeats(q.value) && g.body.Alt? then [CloseIndex(g, i)] else []);
    }
  }

  lemma CloseParent(p: string, close: nat, o: Scan, parent: Frame, g: Re, q: Option<Quantifier>)
    requires g.Group? && WellFormed(g.body) && Followed(p, close + 1, q)
    requires o.stack != [] && Top(o.stack) == FrameAfter(FRESH, g.body)
    ensures var f := Top(o.stack);
      var nullable := f.anyBranchNullable || f.branchNullable;
      var quantified := IsQuantifierAt(p, close + 1);
      var repeating := quantified && IsRepeatingQuantifier(p, close + 1);
      var optional := quantified && IsOptionalQuantifier(p, close + 1);
      var marked := parent.(hasRepeat := parent.hasRepeat || f.hasRepeat || repeating);
      (if !optional && !nullable then marked.(branchNullable := false) else marked) == ParentAfter(parent, g, q)
  {
    BodyFrame(FRESH, g.body);
    QuantifierRead(p, close + 1, q);
    assert SeenNullable(g) == SeenNullable(g.body);
    assert q.Some? ==> SeenNullable(Outermost(g, q)) == (q.value != Plus || SeenNullable(g));
  }

  lemma QuantifierRead(p: string, j: nat, q: Option<Quantifier>)
    requires Followed(p, j, q)
    ensures IsQuantifierAt(p, j) == q.Some?
    ensures q.Some? ==> IsRepeatingQuantifier(p, j) == Repeats(q.value)
    ensures q.Some? ==> IsOptionalQuantifier(p, j) == (q.value != Plus)
  {
  }

  lemma {:induction false} ScanGroup(run: Run, p: string, i: nat, g: Re, s: Scan, q: Option<Quantifier>)
    requires IsScan(run, p)
    requires g.Group? && IsAtom(g) && At(p, i, Print(g)) && !s.inClass
    requires Followed(p, i + |Print(g)|, q)
    ensures run(i, s) ==
            match FirstRefusal(Outermost(g, q))
            case Some(reason) => Refused(reason)
            case None => run(i + |Print(g)|, Closed(s, g, i, q))
    decreases g, 1
  {
    ScanBody(run, p, i, g, s);
    assert FirstRefusal(g) == FirstRefusal(g.body);
    if FirstRefusal(g.body).None? {
      AfterBody(run, p, i, g, s, q);
    }
  }

  lemma AfterBody(run: Run, p: string, i: nat, g: Re, s: Scan, q: Option<Quantifier>)
    requires IsScan(run, p)
    requires g.Group? && IsAtom(g) && At(p, i, Print(g)) && !s.inClass
    requires Followed(p, i + |Print(g)|, q) && FirstRefusal(g.body).None?
    ensures run(CloseIndex(g, i), Opened(s, g, i)) ==
            match FirstRefusal(Outermost(g, q))
            case Some(reason) => Refused(reason)
            case None => run(i + |Print(g)|, Closed(s, g, i, q))
  {
    CloseTaken(run, p, i, g, s, q);
  }

  lemma CloseTaken(run: Run, p: string, i: nat, g: Re, s: Scan, q: Option<Quantifier>)
    requires IsScan(run, p)
    requires g.Group? && IsAtom(g) && At(p, i, Print(g)) && !s.inClass
    requires Followed(p, i + |Print(g)|, q) && FirstRefusal(g.body).None?
    ensures run(CloseIndex(g, i), Opened(s, g, i)) == Taken(run, CloseResult(s, g, i, q))
  {
    GroupText(p, i, g);
    CloseStep(p, i, g, s, q);
    OneStep(run, p, CloseIndex(g, i), Opened(s, g, i), CloseResult(s, g, i, q));
  }

  // ---------- quantified atoms ----------

  function MarkRepeat(stack: seq<Frame>): seq<Frame> {
    if stack == [] then [] else SetTop(stack, Top(stack).(hasRepeat := true))
  }

  lemma QuantifierFollows(p: string, j: nat, q: Quantifier, isLazy: bool)
    requires At(p, j, QuantifierText(q, isLazy))
    ensures Followed(p, j, Some(q))
  {
    AtIndex(p, j, QuantifierText(q, isLazy), 0);
  }

  /** The quantifier's own characters only mark the frame. */
  lemma ScanQuantifier(run: Run, p: string, j: nat, q: Quantifier, isLazy: bool, s: Scan)
    requires IsScan(run, p)
    requires At(p, j, QuantifierText(q, isLazy)) && !s.inClass
    requires !IsQuantifierAt(p, j + |QuantifierText(q, isLazy)|)
    ensures run(j, s) == run(j + |QuantifierText(q, isLazy)|, s.(stack := MarkRepeat(s.stack)))
  {
    var t := QuantifierText(q, isLazy);
    AtIndex(p, j, t, 0);
    var s1 := s.(stack := MarkRepeat(s.stack));
    Advance(run, p, j, s, j + 1, s1);
    if isLazy {
      AtIndex(p, j, t, 1);
      assert MarkRepeat(s1.stack) == s1.stack;
      Advance(run, p, j + 1, s1, j + 2, s1);
    }
  }

  lemma {:induction false} ScanRep(run: Run, p: string, i: nat, r: Re, s: Scan)
    requires IsScan(run, p)
    requires r.Rep? && IsAtom(r.atom) && At(p, i, Print(r)) && !s.inClass
    requires !IsQuantifierAt(p, i + |Print(r)|)
    ensures Scans(run, i, r, s)
    decreases r, 0
  {
    AtConcat(p, i, Print(r.atom), QuantifierText(r.q, r.isLazy));
    if r.atom.Group? {
      ScanRepGroup(run, p, i, r, s);
    } else {
      ScanRepSingle(run, p, i, r, s);
    }
  }

  lemma {:induction false} ScanRepGroup(run: Run, p: string, i: nat, r: Re, s: Scan)
    requires IsScan(run, p)
    requires r.Rep? && r.atom.Group? && IsAtom(r.atom) && !s.inClass && At(p, i, Print(r.atom))
    requires At(p, i + |Print(r.atom)|, QuantifierText(r.q, r.isLazy))
    requires !IsQuantifierAt(p, i + |Print(r)|)
    ensures Scans(run, i, r, s)
    decreases r.atom, 2
  {
    var j := i + |Print(r.atom)|;
    QuantifierFollows(p, j, r.q, r.isLazy);
    ScanGroup(run, p, i, r.atom, s, Some(r.q));
    SameRefusal(r, i);
    if FirstRefusal(r).None? {
      var s1 := Closed(s, r.atom, i, Some(r.q));
      ScanQuantifier(run, p, j, r.q, r.isLazy, s1);
      RepGroupAfter(s, r, i);
    }
  }

  lemma SameRefusal(r: Re, i: nat)
    requires r.Rep? && r.atom.Group?
    ensures FirstRefusal(Outermost(r.atom, Some(r.q))) == FirstRefusal(r)
    ensures AlternationEnds(Outermost(r.atom, Some(r.q)), i) == AlternationEnds(r, i)
  {
  }

  lemma RepGroupAfter(s: Scan, r: Re, i: nat)
    requires r.Rep? && r.atom.Group?
    ensures var s1 := Closed(s, r.atom, i, Some(r.q));
            s1.(stack := MarkRepeat(s1.stack)) == ScanAfter(s, r, i)
  {
    assert SeenNullable(Outermost(r.atom, Some(r.q))) == SeenNullable(r);
    SameRefusal(r, i);
  }

  lemma ScanRepSingle(run: Run, p: string, i: nat, r: Re, s: Scan)
    requires IsScan(run, p)
    requires r.Rep? && IsLeaf(r.atom) && !s.inClass && At(p, i, Print(r.atom))
    requires At(p, i + |Print(r.atom)|, QuantifierText(r.q, r.isLazy))
    requires !IsQuantifierAt(p, i + |Print(r)|)
    ensures Scans(run, i, r, s)
  {
    var j := i + |Print(r.atom)|;
    var s1 := s.(stack := LeafStack(AtomRead(p, j, s.stack), r.atom));
    QuantifierFollows(p, j, r.q, r.isLazy);
    ScanLeafText(run, p, i, r.atom, s);
    ScanQuantifier(run, p, j, r.q, r.isLazy, s1);
    AtomBeforeQuantifier(p, j, r.q, s.stack);
    SingleAfter(i, r, s);
  }

  lemma AtomBeforeQuantifier(p: string, j: nat, q: Quantifier, stack: seq<Frame>)
    requires Followed(p, j, Some(q))
    ensures AtomRead(p, j, stack) == QuantifiedStack(stack, q)
  {
    QuantifierRead(p, j, Some(q));
  }

  function Quantified(f: Frame, q: Quantifier): Frame {
    f.(hasRepeat := true, branchNullable := f.branchNullable && q != Plus)
  }

  function QuantifiedStack(stack: seq<Frame>, q: Quantifier): seq<Frame> {
    if stack == [] then [] else SetTop(stack, Quantified(Top(stack), q))
  }

  lemma SingleAfter(i: nat, r: Re, s: Scan)
    requires r.Rep? && IsLeaf(r.atom) && !s.inClass
    ensures FirstRefusal(r).None?
    ensures ScanAfter(s, r, i) == s.(stack := MarkRepeat(LeafStack(QuantifiedStack(s.stack, r.q), r.atom)))
  {
    assert FirstRefusal(r.atom).None? && AlternationEnds(r.atom, i) == [] && !SeenNullable(r.atom);
    assert AlternationEnds(r, i) == [] && s.ends + [] == s.ends;
  }
}
