/** The second pass over printed text: the closing index of a repeated alternation leads back to its
    body, and splitting the body on top-level `|` gives its branches. */
module RegexSecondPass {
  import opened Text
  import opened RegexScanner
  import opened RegexSyntax
  import opened RegexClasses
  import opened RegexFirstPass

  /** The repeated bodies that are alternations, in closing order. */
  function AlternationBodies(r: Re): seq<Re> {
    match r
    case Group(_, body) => AlternationBodies(body)
    case Rep(atom, q, _) =>
      AlternationBodies(atom) + (if atom.Group? && Repeats(q) && atom.body.Alt? then [atom.body] else [])
    case Cat(first, rest) => AlternationBodies(first) + AlternationBodies(rest)
    case Alt(left, right) => AlternationBodies(left) + AlternationBodies(right)
    case _ => []
  }

  lemma CatParts(p: string, i: nat, r: Re)
    requires r.Cat? && WellFormed(r) && At(p, i, Print(r))
    ensures WellFormed(r.first) && !r.first.Alt? && WellFormed(r.rest) && !r.rest.Alt?
    ensures At(p, i, Print(r.first)) && At(p, i + |Print(r.first)|, Print(r.rest))
    ensures i + |Print(r)| == i + |Print(r.first)| + |Print(r.rest)|
  {
    Parts(r);
    AtConcat(p, i, Print(r.first), Print(r.rest));
  }

  lemma AltParts(p: string, i: nat, r: Re)
    requires r.Alt? && WellFormed(r) && At(p, i, Print(r))
    ensures WellFormed(r.left) && WellFormed(r.right)
    ensures At(p, i, Print(r.left)) && Is(p, i + |Print(r.left)|, '|') && At(p, i + |Print(r.left)| + 1, Print(r.right))
    ensures i + |Print(r)| == i + |Print(r.left)| + 1 + |Print(r.right)|
  {
    Parts(r);
    AltText(p, i, r);
  }

  // ---------- recovering a group body ----------

  /** The walk to the index `close`, as a function value (see `RegexFirstPass.Run`). */
  type Walk = (nat, nat, seq<nat>) -> Option<string>

  predicate Sight(close: nat, i: nat, opens: seq<nat>) {
    true
  }

  ghost predicate IsWalk(walk: Walk, p: string) {
    forall close: nat, i: nat, opens: seq<nat> {:trigger Sight(close, i, opens)} ::
      walk(close, i, opens) == BodyFrom(p, close, i, false, opens)
  }

  predicate IsPassed(c: char) {
    c != '\\' && c != '[' && c != '(' && c != ')'
  }

  lemma SkipChar(walk: Walk, p: string, close: nat, i: nat, opens: seq<nat>)
    requires IsWalk(walk, p)
    requires i < |p| && i < close && IsPassed(p[i])
    ensures walk(close, i, opens) == walk(close, i + 1, opens)
  {
    assert Sight(close, i, opens) && Sight(close, i + 1, opens);
  }

  lemma {:induction false} SkipText(walk: Walk, p: string, close: nat, i: nat, t: string, opens: seq<nat>)
    requires IsWalk(walk, p)
    requires At(p, i, t) && i + |t| <= close
    requires forall k :: 0 <= k < |t| ==> IsPassed(t[k])
    ensures walk(close, i, opens) == walk(close, i + |t|, opens)
    decreases |t|
  {
    if t != "" {
      AtIndex(p, i, t, 0);
      SkipChar(walk, p, close, i, opens);
      AtConcat(p, i, t[..1], t[1..]);
      assert t == t[..1] + t[1..];
      SkipText(walk, p, close, i + 1, t[1..], opens);
    }
  }

  /** Reading a group's opening records it; the prefix `?:` is passed over. */
  lemma EnterGroup(walk: Walk, p: string, close: nat, i: nat, capturing: bool, opens: seq<nat>)
    requires IsWalk(walk, p)
    requires At(p, i, Opening(capturing)) && i + |Opening(capturing)| <= close
    ensures walk(close, i, opens) == walk(close, i + |Opening(capturing)|, opens + [i])
  {
    AtIndex(p, i, Opening(capturing), 0);
    assert Sight(close, i, opens) && Sight(close, i + 1, opens + [i]);
    if !capturing {
      AtConcat(p, i, "(", "?:");
      assert "(" + "?:" == Opening(capturing);
      SkipText(walk, p, close, i + 1, "?:", opens + [i]);
    }
  }

  lemma LeaveGroup(walk: Walk, p: string, close: nat, i: nat, opens: seq<nat>, open: nat)
    requires IsWalk(walk, p)
    requires Is(p, i, ')') && i < close
    ensures walk(close, i, opens + [open]) == walk(close, i + 1, opens)
  {
    assert Sight(close, i, opens + [open]) && Sight(close, i + 1, opens);
    assert (opens + [open])[..|opens|] == opens;
  }

  lemma {:induction false} SkipTree(walk: Walk, p: string, close: nat, i: nat, r: Re, opens: seq<nat>)
    requires IsWalk(walk, p)
    requires WellFormed(r) && At(p, i, Print(r)) && i + |Print(r)| <= close
    ensures walk(close, i, opens) == walk(close, i + |Print(r)|, opens)
    decreases r, 1
  {
    match r
    case Empty =>
    case Group(_, _) => SkipGroup(walk, p, close, i, r, opens);
    case Rep(_, _, _) => SkipRep(walk, p, close, i, r, opens);
    case Cat(_, _) => SkipCat(walk, p, close, i, r, opens);
    case Alt(_, _) => SkipAlt(walk, p, close, i, r, opens);
    case _ =>
      Parts(r);
      SkipLeaf(walk, p, close, i, r, opens);
  }

  lemma SkipLeaf(walk: Walk, p: string, close: nat, i: nat, r: Re, opens: seq<nat>)
    requires IsWalk(walk, p)
    requires IsLeaf(r) && At(p, i, Print(r)) && i + |Print(r)| <= close
    ensures walk(close, i, opens) == walk(close, i + |Print(r)|, opens)
  {
    if r.Class? {
      SkipClass(walk, p, close, i, r, opens);
    } else if r.Escape? {
      AtIndex(p, i, Print(r), 0);
      assert Sight(close, i, opens) && Sight(close, i + 2, opens);
    } else {
      SkipText(walk, p, close, i, Print(r), opens);
    }
  }

  lemma SkipClass(walk: Walk, p: string, close: nat, i: nat, r: Re, opens: seq<nat>)
    requires IsWalk(walk, p)
    requires r.Class? && IsLeaf(r) && At(p, i, Print(r)) && i + |Print(r)| <= close
    ensures walk(close, i, opens) == walk(close, i + |Print(r)|, opens)
  {
    ClassInside(p, i, r);
    BodyPastClass(p, close, i + 1, opens, i + |Print(r)|);
    assert Sight(close, i, opens) && Sight(close, i + |Print(r)|, opens);
  }

  lemma {:induction false} SkipGroup(walk: Walk, p: string, close: nat, i: nat, r: Re, opens: seq<nat>)
    requires IsWalk(walk, p)
    requires r.Group? && WellFormed(r) && At(p, i, Print(r)) && i + |Print(r)| <= close
    ensures walk(close, i, opens) == walk(close, i + |Print(r)|, opens)
    decreases r, 0
  {
    Parts(r);
    GroupText(p, i, r);
    EnterGroup(walk, p, close, i, r.capturing, opens);
    SkipTree(walk, p, close, i + |Opening(r.capturing)|, r.body, opens + [i]);
    LeaveGroup(walk, p, close, CloseIndex(r, i), opens, i);
  }

  lemma {:induction false} SkipRep(walk: Walk, p: string, close: nat, i: nat, r: Re, opens: seq<nat>)
    requires IsWalk(walk, p)
    requires r.Rep? && WellFormed(r) && At(p, i, Print(r)) && i + |Print(r)| <= close
    ensures walk(close, i, opens) == walk(close, i + |Print(r)|, opens)
    decreases r, 0
  {
    Parts(r);
    AtConcat(p, i, Print(r.atom), QuantifierText(r.q, r.isLazy));
    SkipTree(walk, p, close, i, r.atom, opens);
    SkipText(walk, p, close, i + |Print(r.atom)|, QuantifierText(r.q, r.isLazy), opens);
  }

  lemma {:induction false} SkipCat(walk: Walk, p: string, close: nat, i: nat, r: Re, opens: seq<nat>)
    requires IsWalk(walk, p)
    requires r.Cat? && WellFormed(r) && At(p, i, Print(r)) && i + |Print(r)| <= close
    ensures walk(close, i, opens) == walk(close, i + |Print(r)|, opens)
    decreases r, 0
  {
    CatParts(p, i, r);
    SkipTree(walk, p, close, i, r.first, opens);
    SkipTree(walk, p, close, i + |Print(r.first)|, r.rest, opens);
  }

  lemma {:induction false} SkipAlt(walk: Walk, p: string, close: nat, i: nat, r: Re, opens: seq<nat>)
    requires IsWalk(walk, p)
    requires r.Alt? && WellFormed(r) && At(p, i, Print(r)) && i + |Print(r)| <= close
    ensures walk(close, i, opens) == walk(close, i + |Print(r)|, opens)
    decreases r, 0
  {
    AltParts(p, i, r);
    SkipTree(walk, p, close, i, r.left, opens);
    SkipChar(walk, p, close, i + |Print(r.left)|, opens);
    SkipTree(walk, p, close, i + |Print(r.left)| + 1, r.right, opens);
  }

  /** Every recorded index leads back to its body's own text, and lies in `[low, high)`. */
  ghost predicate Recovers(walk: Walk, i: nat, ends: seq<nat>, bodies: seq<Re>, opens: seq<nat>, low: nat, high: nat) {
    |ends| == |bodies| &&
    forall k :: 0 <= k < |ends| ==>
      low <= ends[k] < high && walk(ends[k], i, opens) == Some(Print(bodies[k]))
  }

  lemma FindOwnBody(walk: Walk, p: string, i: nat, g: Re, opens: seq<nat>)
    requires IsWalk(walk, p)
    requires g.Group? && IsAtom(g) && At(p, i, Print(g))
    ensures walk(CloseIndex(g, i), i, opens) == Some(Print(g.body))
  {
    var close := CloseIndex(g, i);
    var at := i + |Opening(g.capturing)|;
    GroupText(p, i, g);
    OpenGroup(p, i, g);
    EnterGroup(walk, p, close, i, g.capturing, opens);
    SkipTree(walk, p, close, at, g.body, opens + [i]);
    BodyAtClose(walk, p, close, opens, i, at);
    assert p[at..close] == Print(g.body);
  }

  lemma BodyAtClose(walk: Walk, p: string, close: nat, opens: seq<nat>, open: nat, at: nat)
    requires IsWalk(walk, p)
    requires Is(p, close, ')') && SkipGroupPrefix(p, open) == at <= close
    ensures walk(close, close, opens + [open]) == Some(p[at..close])
  {
    assert Sight(close, close, opens + [open]);
  }

  lemma {:induction false} FindBodies(walk: Walk, p: string, i: nat, r: Re, opens: seq<nat>)
    requires IsWalk(walk, p)
    requires WellFormed(r) && At(p, i, Print(r))
    ensures Recovers(walk, i, AlternationEnds(r, i), AlternationBodies(r), opens, i, i + |Print(r)|)
    decreases r, 1
  {
    match r
    case Group(_, _) => FindInGroup(walk, p, i, r, opens);
    case Rep(_, _, _) => FindInRep(walk, p, i, r, opens);
    case Cat(_, _) => FindInCat(walk, p, i, r, opens);
    case Alt(_, _) => FindInAlt(walk, p, i, r, opens);
    case _ =>
  }

  lemma {:induction false} FindInCat(walk: Walk, p: string, i: nat, r: Re, opens: seq<nat>)
    requires IsWalk(walk, p)
    requires r.Cat? && WellFormed(r) && At(p, i, Print(r))
    ensures Recovers(walk, i, AlternationEnds(r, i), AlternationBodies(r), opens, i, i + |Print(r)|)
    decreases r, 0
  {
    CatParts(p, i, r);
    var j := i + |Print(r.first)|;
    FindBodies(walk, p, i, r.first, opens);
    FindLater(walk, p, i, r.first, j, r.rest, opens);
    Joined(walk, i, AlternationEnds(r.first, i), AlternationBodies(r.first), AlternationEnds(r.rest, j),
           AlternationBodies(r.rest), opens, i, j, j, i + |Print(r)|);
  }

  lemma {:induction false} FindInAlt(walk: Walk, p: string, i: nat, r: Re, opens: seq<nat>)
    requires IsWalk(walk, p)
    requires r.Alt? && WellFormed(r) && At(p, i, Print(r))
    ensures Recovers(walk, i, AlternationEnds(r, i), AlternationBodies(r), opens, i, i + |Print(r)|)
    decreases r, 0
  {
    AltParts(p, i, r);
    var j := i + |Print(r.left)| + 1;
    FindBodies(walk, p, i, r.left, opens);
    FindLater(walk, p, i, r.left, j, r.right, opens);
    Joined(walk, i, AlternationEnds(r.left, i), AlternationBodies(r.left), AlternationEnds(r.right, j),
           AlternationBodies(r.right), opens, i, j - 1, j, i + |Print(r)|);
  }

  lemma Joined(walk: Walk, i: nat, ends: seq<nat>, bodies: seq<Re>, ends': seq<nat>, bodies': seq<Re>, opens: seq<nat>,
               low: nat, mid: nat, mid': nat, high: nat)
    requires Recovers(walk, i, ends, bodies, opens, low, mid) && Recovers(walk, i, ends', bodies', opens, mid', high)
    requires low <= mid <= mid' <= high
    ensures Recovers(walk, i, ends + ends', bodies + bodies', opens, low, high)
  {
  }

  lemma {:induction false} FindInRep(walk: Walk, p: string, i: nat, r: Re, opens: seq<nat>)
    requires IsWalk(walk, p)
    requires r.Rep? && WellFormed(r) && At(p, i, Print(r))
    ensures Recovers(walk, i, AlternationEnds(r, i), AlternationBodies(r), opens, i, i + |Print(r)|)
    decreases r, 0
  {
    Parts(r);
    AtConcat(p, i, Print(r.atom), QuantifierText(r.q, r.isLazy));
    FindBodies(walk, p, i, r.atom, opens);
    if r.atom.Group? {
      GroupText(p, i, r.atom);
      FindOwnBody(walk, p, i, r.atom, opens);
    }
  }

  lemma {:induction false} FindInGroup(walk: Walk, p: string, i: nat, r: Re, opens: seq<nat>)
    requires IsWalk(walk, p)
    requires r.Group? && WellFormed(r) && At(p, i, Print(r))
    ensures Recovers(walk, i, AlternationEnds(r, i), AlternationBodies(r), opens, i, i + |Print(r)|)
    decreases r, 0
  {
    Parts(r);
    GroupText(p, i, r);
    var at := i + |Opening(r.capturing)|;
    FindBodies(walk, p, at, r.body, opens + [i]);
    forall k | 0 <= k < |AlternationEnds(r.body, at)|
      ensures walk(AlternationEnds(r.body, at)[k], i, opens) == Some(Print(AlternationBodies(r.body)[k]))
    {
      EnterGroup(walk, p, AlternationEnds(r.body, at)[k], i, r.capturing, opens);
    }
  }

  /** The bodies of a later part are found by passing over the earlier part. */
  lemma {:induction false} FindLater(walk: Walk, p: string, i: nat, before: Re, j: nat, r: Re, opens: seq<nat>)
    requires IsWalk(walk, p)
    requires WellFormed(before) && At(p, i, Print(before))
    requires WellFormed(r) && At(p, j, Print(r))
    requires j == i + |Print(before)| || (j == i + |Print(before)| + 1 && Is(p, j - 1, '|'))
    ensures Recovers(walk, i, AlternationEnds(r, j), AlternationBodies(r), opens, j, j + |Print(r)|)
    decreases r, 2
  {
    FindBodies(walk, p, j, r, opens);
    forall k | 0 <= k < |AlternationEnds(r, j)|
      ensures walk(AlternationEnds(r, j)[k], i, opens) == Some(Print(AlternationBodies(r)[k]))
    {
      var close := AlternationEnds(r, j)[k];
      SkipTree(walk, p, close, i, before, opens);
      if j > i + |Print(before)| { SkipChar(walk, p, close, j - 1, opens); }
    }
  }

  // ---------- splitting a body into branches ----------

  /** The split from an index, as a function value. */
  type Cut = (nat, int, nat) -> seq<string>

  predicate Glance(i: nat, depth: int, start: nat) {
    true
  }

  ghost predicate IsCut(cut: Cut, t: string) {
    forall i: nat, depth: int, start: nat {:trigger Glance(i, depth, start)} ::
      start <= |t| ==> cut(i, depth, start) == BranchesFrom(t, i, depth, false, start)
  }

  lemma PassChar(cut: Cut, t: string, i: nat, depth: int, start: nat)
    requires IsCut(cut, t)
    requires i < |t| && start <= |t| && IsPassed(t[i]) && (t[i] != '|' || depth != 0)
    ensures cut(i, depth, start) == cut(i + 1, depth, start)
  {
    assert Glance(i, depth, start) && Glance(i + 1, depth, start);
  }

  lemma CutHere(cut: Cut, t: string, i: nat, start: nat)
    requires IsCut(cut, t)
    requires Is(t, i, '|') && start <= i
    ensures cut(i, 0, start) == [t[start..i]] + cut(i + 1, 0, i + 1)
  {
    assert Glance(i, 0, start) && Glance(i + 1, 0, i + 1);
  }

  lemma {:induction false} PassText(cut: Cut, t: string, i: nat, part: string, depth: int, start: nat)
    requires IsCut(cut, t)
    requires At(t, i, part) && start <= |t|
    requires forall k :: 0 <= k < |part| ==> IsPassed(part[k]) && part[k] != '|'
    ensures cut(i, depth, start) == cut(i + |part|, depth, start)
    decreases |part|
  {
    if part != "" {
      AtIndex(t, i, part, 0);
      PassChar(cut, t, i, depth, start);
      AtConcat(t, i, part[..1], part[1..]);
      assert part == part[..1] + part[1..];
      PassText(cut, t, i + 1, part[1..], depth, start);
    }
  }

  lemma PassOpening(cut: Cut, t: string, i: nat, capturing: bool, depth: int, start: nat)
    requires IsCut(cut, t)
    requires At(t, i, Opening(capturing)) && start <= |t|
    ensures cut(i, depth, start) == cut(i + |Opening(capturing)|, depth + 1, start)
  {
    AtIndex(t, i, Opening(capturing), 0);
    assert Glance(i, depth, start) && Glance(i + 1, depth + 1, start);
    if !capturing {
      AtConcat(t, i, "(", "?:");
      assert "(" + "?:" == Opening(capturing);
      PassText(cut, t, i + 1, "?:", depth + 1, start);
    }
  }

  lemma PassClosing(cut: Cut, t: string, i: nat, depth: int, start: nat)
    requires IsCut(cut, t)
    requires Is(t, i, ')') && start <= |t|
    ensures cut(i, depth + 1, start) == cut(i + 1, depth, start)
  {
    assert Glance(i, depth + 1, start) && Glance(i + 1, depth, start);
  }

  /** Inside a group, or on text without alternation, no branch is cut. */
  lemma {:induction false} PassTree(cut: Cut, t: string, i: nat, r: Re, depth: nat, start: nat)
    requires IsCut(cut, t)
    requires WellFormed(r) && At(t, i, Print(r)) && start <= |t|
    requires depth > 0 || !r.Alt?
    ensures cut(i, depth, start) == cut(i + |Print(r)|, depth, start)
    decreases r, 1
  {
    match r
    case Empty =>
    case Group(_, _) => PassGroup(cut, t, i, r, depth, start);
    case Rep(_, _, _) => PassRep(cut, t, i, r, depth, start);
    case Cat(_, _) => PassCat(cut, t, i, r, depth, start);
    case Alt(_, _) => PassAlt(cut, t, i, r, depth, start);
    case _ =>
      Parts(r);
      PassLeaf(cut, t, i, r, depth, start);
  }

  lemma PassLeaf(cut: Cut, t: string, i: nat, r: Re, depth: nat, start: nat)
    requires IsCut(cut, t)
    requires IsLeaf(r) && At(t, i, Print(r)) && start <= |t|
    ensures cut(i, depth, start) == cut(i + |Print(r)|, depth, start)
  {
    if r.Class? {
      PassClass(cut, t, i, r, depth, start);
    } else if r.Escape? {
      AtIndex(t, i, Print(r), 0);
      assert Glance(i, depth, start) && Glance(i + 2, depth, start);
    } else {
      PassText(cut, t, i, Print(r), depth, start);
    }
  }

  lemma PassClass(cut: Cut, t: string, i: nat, r: Re, depth: nat, start: nat)
    requires IsCut(cut, t)
    requires r.Class? && IsLeaf(r) && At(t, i, Print(r)) && start <= |t|
    ensures cut(i, depth, start) == cut(i + |Print(r)|, depth, start)
  {
    ClassInside(t, i, r);
    BranchesPastClass(t, i + 1, depth, start, i + |Print(r)|);
    assert Glance(i, depth, start) && Glance(i + |Print(r)|, depth, start);
  }

  lemma {:induction false} PassGroup(cut: Cut, t: string, i: nat, r: Re, depth: nat, start: nat)
    requires IsCut(cut, t)
    requires r.Group? && WellFormed(r) && At(t, i, Print(r)) && start <= |t|
    requires depth > 0 || !r.Alt?
    ensures cut(i, depth, start) == cut(i + |Print(r)|, depth, start)
    decreases r, 0
  {
    Parts(r);
    GroupText(t, i, r);
    PassOpening(cut, t, i, r.capturing, depth, start);
    PassTree(cut, t, i + |Opening(r.capturing)|, r.body, depth + 1, start);
    PassClosing(cut, t, CloseIndex(r, i), depth, start);
  }

  lemma {:induction false} PassRep(cut: Cut, t: string, i: nat, r: Re, depth: nat, start: nat)
    requires IsCut(cut, t)
    requires r.Rep? && WellFormed(r) && At(t, i, Print(r)) && start <= |t|
    requires depth > 0 || !r.Alt?
    ensures cut(i, depth, start) == cut(i + |Print(r)|, depth, start)
    decreases r, 0
  {
    Parts(r);
    AtConcat(t, i, Print(r.atom), QuantifierText(r.q, r.isLazy));
    PassTree(cut, t, i, r.atom, depth, start);
    PassText(cut, t, i + |Print(r.atom)|, QuantifierText(r.q, r.isLazy), depth, start);
  }

  lemma {:induction false} PassCat(cut: Cut, t: string, i: nat, r: Re, depth: nat, start: nat)
    requires IsCut(cut, t)
    requires r.Cat? && WellFormed(r) && At(t, i, Print(r)) && start <= |t|
    requires depth > 0 || !r.Alt?
    ensures cut(i, depth, start) == cut(i + |Print(r)|, depth, start)
    decreases r, 0
  {
    CatParts(t, i, r);
    PassTree(cut, t, i, r.first, depth, start);
    PassTree(cut, t, i + |Print(r.first)|, r.rest, depth, start);
  }

  lemma {:induction false} PassAlt(cut: Cut, t: string, i: nat, r: Re, depth: nat, start: nat)
    requires IsCut(cut, t)
    requires r.Alt? && WellFormed(r) && At(t, i, Print(r)) && start <= |t|
    requires depth > 0 || !r.Alt?
    ensures cut(i, depth, start) == cut(i + |Print(r)|, depth, start)
    decreases r, 0
  {
    AltParts(t, i, r);
    PassTree(cut, t, i, r.left, depth, start);
    PassChar(cut, t, i + |Print(r.left)|, depth, start);
    PassTree(cut, t, i + |Print(r.left)| + 1, r.right, depth, start);
  }

  function Last(bs: seq<Re>): Re
    requires bs != []
  {
    bs[|bs| - 1]
  }

  function Init(bs: seq<Re>): seq<Re>
    requires bs != []
  {
    bs[..|bs| - 1]
  }

  lemma {:induction false} TextsConcat(a: seq<Re>, b: seq<Re>)
    ensures Texts(a + b) == Texts(a) + Texts(b)
  {
    if a == [] {
      assert a + b == b;
    } else {
      assert (a + b)[1..] == a[1..] + b;
      TextsConcat(a[1..], b);
    }
  }

  lemma TextsInitLast(bs: seq<Re>)
    requires bs != []
    ensures Texts(Init(bs)) + [Print(Last(bs))] == Texts(bs)
  {
    assert bs == Init(bs) + [Last(bs)];
    TextsConcat(Init(bs), [Last(bs)]);
  }

  /** The last branch of `r` ends the text at `j`, and the split has produced all the others. */
  ghost predicate Splits(cut: Cut, t: string, i: nat, r: Re, j: nat) {
    var last := Print(Last(Branches(r)));
    && i + |last| <= j && At(t, j - |last|, last)
    && cut(i, 0, i) == Texts(Init(Branches(r))) + cut(j, 0, j - |last|)
  }

  lemma {:induction false} SplitTree(cut: Cut, t: string, i: nat, r: Re)
    requires IsCut(cut, t)
    requires WellFormed(r) && At(t, i, Print(r))
    ensures Splits(cut, t, i, r, i + |Print(r)|)
    decreases r, 1
  {
    Parts(r);
    if r.Alt? {
      SplitAlt(cut, t, i, r);
    } else {
      PassTree(cut, t, i, r, 0, i);
      assert Texts([]) + cut(i + |Print(r)|, 0, i) == cut(i + |Print(r)|, 0, i);
    }
  }

  lemma {:induction false} SplitAlt(cut: Cut, t: string, i: nat, r: Re)
    requires IsCut(cut, t)
    requires r.Alt? && WellFormed(r) && At(t, i, Print(r))
    ensures Splits(cut, t, i, r, i + |Print(r)|)
    decreases r, 0
  {
    SplitLeftSide(cut, t, i, r);
    SplitRightSide(cut, t, i, r);
    SplitJoin(cut, t, i, r, i + |Print(r.left)|, i + |Print(r)|);
  }

  lemma {:induction false} SplitLeftSide(cut: Cut, t: string, i: nat, r: Re)
    requires IsCut(cut, t)
    requires r.Alt? && WellFormed(r) && At(t, i, Print(r))
    ensures cut(i, 0, i) ==
            Texts(Branches(r.left)) + cut(i + |Print(r.left)| + 1, 0, i + |Print(r.left)| + 1)
    decreases r.left, 2
  {
    AltParts(t, i, r);
    SplitTree(cut, t, i, r.left);
    SplitLeft(cut, t, i, r, i + |Print(r.left)|);
  }

  lemma {:induction false} SplitRightSide(cut: Cut, t: string, i: nat, r: Re)
    requires IsCut(cut, t)
    requires r.Alt? && WellFormed(r) && At(t, i, Print(r))
    ensures Splits(cut, t, i + |Print(r.left)| + 1, r.right, i + |Print(r)|)
    decreases r.right, 2
  {
    AltParts(t, i, r);
    SplitTree(cut, t, i + |Print(r.left)| + 1, r.right);
  }

  lemma SplitLeft(cut: Cut, t: string, i: nat, r: Re, bar: nat)
    requires IsCut(cut, t)
    requires r.Alt? && Splits(cut, t, i, r.left, bar) && Is(t, bar, '|')
    ensures cut(i, 0, i) == Texts(Branches(r.left)) + cut(bar + 1, 0, bar + 1)
  {
    var bs := Branches(r.left);
    var last := Print(Last(bs));
    CutHere(cut, t, bar, bar - |last|);
    TextsInitLast(bs);
    assert Texts(Init(bs)) + ([last] + cut(bar + 1, 0, bar + 1)) == Texts(bs) + cut(bar + 1, 0, bar + 1);
  }

  lemma SplitJoin(cut: Cut, t: string, i: nat, r: Re, bar: nat, j: nat)
    requires r.Alt? && Splits(cut, t, bar + 1, r.right, j) && i <= bar
    requires cut(i, 0, i) == Texts(Branches(r.left)) + cut(bar + 1, 0, bar + 1)
    ensures Splits(cut, t, i, r, j)
  {
    var bl, br := Branches(r.left), Branches(r.right);
    InitOfConcat(bl, br);
    Associate(Texts(bl), Texts(Init(br)), cut(j, 0, j - |Print(Last(br))|));
    assert Branches(r) == bl + br;
  }

  lemma InitOfConcat(a: seq<Re>, b: seq<Re>)
    requires b != []
    ensures Last(a + b) == Last(b) && Texts(Init(a + b)) == Texts(a) + Texts(Init(b))
  {
    assert Init(a + b) == a + Init(b);
    TextsConcat(a, Init(b));
  }

  lemma Associate(a: seq<string>, b: seq<string>, c: seq<string>)
    ensures a + (b + c) == a + b + c
  {
  }

  /** Splitting the printed body gives the printed branches. */
  lemma BranchTextsOfBody(body: Re)
    requires WellFormed(body)
    ensures BranchTexts(Print(body)) == Texts(Branches(body))
  {
    var t := Print(body);
    var cut := CutOf(t);
    CutOfBody(cut, t, body);
    CutFromStart(cut, t);
  }

  lemma CutOfBody(cut: Cut, t: string, body: Re)
    requires IsCut(cut, t) && WellFormed(body) && t == Print(body)
    ensures cut(0, 0, 0) == Texts(Branches(body))
  {
    assert At(t, 0, t) && 0 + |Print(body)| == |t|;
    SplitTree(cut, t, 0, body);
    assert Splits(cut, t, 0, body, |t|);
    LastBranch(cut, t, body);
  }

  lemma CutFromStart(cut: Cut, t: string)
    requires IsCut(cut, t)
    ensures cut(0, 0, 0) == BranchTexts(t)
  {
    assert Glance(0, 0, 0);
  }

  lemma CutOf(t: string) returns (cut: Cut)
    ensures IsCut(cut, t)
  {
    cut := (i: nat, depth: int, start: nat) => if start <= |t| then BranchesFrom(t, i, depth, false, start) else [];
  }

  lemma WalkOf(p: string) returns (walk: Walk)
    ensures IsWalk(walk, p)
  {
    walk := (close: nat, i: nat, opens: seq<nat>) => BodyFrom(p, close, i, false, opens);
  }

  lemma LastBranch(cut: Cut, t: string, body: Re)
    requires IsCut(cut, t) && Splits(cut, t, 0, body, |t|)
    ensures cut(0, 0, 0) == Texts(Branches(body))
  {
    CutAtEnd(cut, t, Print(Last(Branches(body))));
    TextsInitLast(Branches(body));
  }

  lemma CutAtEnd(cut: Cut, t: string, last: string)
    requires IsCut(cut, t) && |last| <= |t| && At(t, |t| - |last|, last)
    ensures cut(|t|, 0, |t| - |last|) == [last]
  {
    assert Glance(|t|, 0, |t| - |last|);
    assert t[|t| - |last|..] == last;
  }

  lemma {:induction false} BodiesAreWellFormed(r: Re)
    requires WellFormed(r)
    ensures forall k :: 0 <= k < |AlternationBodies(r)| ==> WellFormed(AlternationBodies(r)[k])
    decreases r
  {
    Parts(r);
    match r
    case Group(_, body) => BodiesAreWellFormed(body);
    case Rep(atom, _, _) =>
      BodiesAreWellFormed(atom);
      Parts(atom);
    case Cat(first, rest) => BodiesAreWellFormed(first); BodiesAreWellFormed(rest);
    case Alt(left, right) => BodiesAreWellFormed(left); BodiesAreWellFormed(right);
    case _ =>
  }

  ghost predicate SomeAmbiguous(bodies: seq<Re>) {
    exists k :: 0 <= k < |bodies| && AmbiguousBranches(Texts(Branches(bodies[k])))
  }

  lemma {:induction false} SecondPassOverBodies(p: string, ends: seq<nat>, bodies: seq<Re>)
    requires |ends| == |bodies|
    requires forall k :: 0 <= k < |ends| ==> GroupBody(p, ends[k]) == Some(Print(bodies[k]))
    requires forall k :: 0 <= k < |bodies| ==> WellFormed(bodies[k])
    ensures SecondPass(p, ends) == if SomeAmbiguous(bodies) then Some(AmbiguousAlternation) else None
    decreases |ends|
  {
    if ends != [] {
      BranchTextsOfBody(bodies[0]);
      SecondPassOverBodies(p, ends[1..], bodies[1..]);
      if k :| 0 <= k < |bodies| && AmbiguousBranches(Texts(Branches(bodies[k]))) {
        if k > 0 { assert bodies[1..][k - 1] == bodies[k]; }
      }
    }
  }

  /** What the second pass decides on a printed pattern. */
  lemma SecondPassOnTree(r: Re)
    requires WellFormed(r)
    ensures SecondPass(Print(r), AlternationEnds(r, 0)) ==
            if SomeAmbiguous(AlternationBodies(r)) then Some(AmbiguousAlternation) else None
  {
    var p := Print(r);
    var walk := WalkOf(p);
    assert At(p, 0, p);
    FindBodies(walk, p, 0, r, []);
    BodiesAreWellFormed(r);
    forall k | 0 <= k < |AlternationEnds(r, 0)|
      ensures GroupBody(p, AlternationEnds(r, 0)[k]) == Some(Print(AlternationBodies(r)[k]))
    {
      assert Sight(AlternationEnds(r, 0)[k], 0, []);
    }
    SecondPassOverBodies(p, AlternationEnds(r, 0), AlternationBodies(r));
  }
}
