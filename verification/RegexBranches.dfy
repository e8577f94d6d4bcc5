/** What admission buys a repeated alternation: a text splits into its branches in one way, as long as each
    branch is a row of single characters whose first one the second pass reads right. */
module RegexBranches {
  import opened Text
  import opened RegexScanner
  import opened RegexSyntax
  import opened RegexClasses
  import opened RegexFirstPass
  import opened RegexSecondPass
  import opened RegexTheorems
  import opened RegexFirsts

  // ---------- straight branches ----------

  /** Single characters in a row, in groups or not: no quantifier, no alternation. */
  predicate IsStraight(r: Re) {
    match r
    case Group(_, body) => IsStraight(body)
    case Rep(_, _, _) => false
    case Cat(first, rest) => IsStraight(first) && IsStraight(rest)
    case Alt(_, _) => false
    case _ => true
  }

  function Width(r: Re): nat {
    match r
    case Empty => 0
    case Group(_, body) => Width(body)
    case Cat(first, rest) => Width(first) + Width(rest)
    case _ => 1
  }

  /** The branch starts with a character, not with an empty group, and the second pass reads it right. */
  ghost predicate StartsRead(r: Re) {
    match r
    case Group(_, body) => StartsRead(body)
    case Cat(first, rest) => if Print(first) == "" then StartsRead(rest) else StartsRead(first)
    case _ => IsLeaf(r) && IsReadLeaf(r)
  }

  /** The first character of a branch. */
  function Lead(r: Re): Re {
    match r
    case Group(_, body) => Lead(body)
    case Cat(first, rest) => if Print(first) == "" then Lead(rest) else Lead(first)
    case _ => r
  }

  lemma {:induction false} StraightWidth(r: Re, w: string)
    requires IsStraight(r) && Matches(r, w)
    ensures |w| == Width(r)
  {
    match r
    case Group(_, body) => StraightWidth(body, w);
    case Cat(first, rest) =>
      var k :| 0 <= k <= |w| && Matches(first, w[..k]) && Matches(rest, w[k..]);
      StraightWidth(first, w[..k]);
      StraightWidth(rest, w[k..]);
    case _ =>
  }

  lemma {:induction false} NoTextNoWidth(r: Re)
    requires WellFormed(r) && IsStraight(r) && Print(r) == ""
    ensures Width(r) == 0
  {
    Parts(r);
    match r
    case Cat(first, rest) => NoTextNoWidth(first); NoTextNoWidth(rest);
    case Empty =>
    case Group(_, _) => AtomIsBranch(r);
    case _ => AtomIsBranch(r);
  }

  // ---------- first characters ----------

  /** What a word of the branch starts with, the tokens of its first character stand for. */
  lemma {:induction false} LeadIsRead(r: Re, w: string)
    requires WellFormed(r) && IsStraight(r) && StartsRead(r) && Matches(r, w)
    ensures w != "" && Denotes(LeafTokens(Lead(r)), LowerChar(w[0]))
  {
    Parts(r);
    match r
    case Group(_, body) => LeadIsRead(body, w);
    case Cat(first, rest) =>
      var k :| 0 <= k <= |w| && Matches(first, w[..k]) && Matches(rest, w[k..]);
      if Print(first) == "" {
        NoTextNoWidth(first);
        StraightWidth(first, w[..k]);
        LeadIsRead(rest, w[k..]);
      } else {
        LeadIsRead(first, w[..k]);
      }
    case _ => LeafIsRead(r, w);
  }

  /** The search for the end of a group as a function value. */
  type Close = (nat, int) -> Option<nat>

  predicate Gaze(i: nat, depth: int) {
    true
  }

  ghost predicate IsClose(close: Close, p: string) {
    forall i: nat, depth: int {:trigger Gaze(i, depth)} :: close(i, depth) == GroupClose(p, i, depth, false)
  }

  lemma CloseOf(p: string) returns (close: Close)
    ensures IsClose(close, p)
  {
    close := (i: nat, depth: int) => GroupClose(p, i, depth, false);
  }

  lemma PastLeaf(close: Close, p: string, i: nat, r: Re, depth: int)
    requires IsClose(close, p) && IsLeaf(r) && At(p, i, Print(r))
    ensures close(i, depth) == close(i + |Print(r)|, depth)
  {
    assert Gaze(i, depth) && Gaze(i + |Print(r)|, depth);
    if r.Class? {
      ClassInside(p, i, r);
      GroupPastClass(p, i + 1, depth, i + |Print(r)|);
    } else {
      AtIndex(p, i, Print(r), 0);
    }
  }

  lemma PastOpening(close: Close, p: string, i: nat, g: Re, depth: int)
    requires IsClose(close, p) && g.Group? && At(p, i, Print(g))
    ensures close(i, depth) == close(i + |Opening(g.capturing)|, depth + 1)
  {
    var o := Opening(g.capturing);
    GroupText(p, i, g);
    AtIndex(p, i, o, 0);
    assert Gaze(i, depth) && Gaze(i + 1, depth + 1);
    if !g.capturing {
      AtIndex(p, i, o, 1);
      AtIndex(p, i, o, 2);
      assert Gaze(i + 2, depth + 1) && Gaze(i + 3, depth + 1);
    }
  }

  lemma PastClosing(close: Close, p: string, i: nat, depth: int)
    requires IsClose(close, p) && Is(p, i, ')')
    ensures close(i, depth) == if depth == 1 then Some(i + 1) else close(i + 1, depth - 1)
  {
    assert Gaze(i, depth) && Gaze(i + 1, depth - 1);
  }

  lemma {:induction false} PastTree(close: Close, p: string, i: nat, r: Re, depth: nat)
    requires IsClose(close, p) && WellFormed(r) && IsStraight(r) && At(p, i, Print(r)) && depth > 0
    ensures close(i, depth) == close(i + |Print(r)|, depth)
    decreases r, 1
  {
    match r
    case Empty =>
    case Group(_, _) => PastGroup(close, p, i, r, depth);
    case Cat(_, _) => PastCat(close, p, i, r, depth);
    case _ =>
      Parts(r);
      PastLeaf(close, p, i, r, depth);
  }

  lemma {:induction false} PastGroup(close: Close, p: string, i: nat, g: Re, depth: nat)
    requires g.Group? && IsClose(close, p) && WellFormed(g) && IsStraight(g) && At(p, i, Print(g)) && depth > 0
    ensures close(i, depth) == close(i + |Print(g)|, depth)
    decreases g, 0
  {
    Parts(g);
    GroupText(p, i, g);
    PastOpening(close, p, i, g, depth);
    PastTree(close, p, i + |Opening(g.capturing)|, g.body, depth + 1);
    PastClosing(close, p, CloseIndex(g, i), depth + 1);
  }

  lemma {:induction false} PastCat(close: Close, p: string, i: nat, r: Re, depth: nat)
    requires r.Cat? && IsClose(close, p) && WellFormed(r) && IsStraight(r) && At(p, i, Print(r)) && depth > 0
    ensures close(i, depth) == close(i + |Print(r)|, depth)
    decreases r, 0
  {
    CatParts(p, i, r);
    PastTree(close, p, i, r.first, depth);
    PastTree(close, p, i + |Print(r.first)|, r.rest, depth);
  }

  lemma GroupEndsThere(p: string, i: nat, g: Re)
    requires g.Group? && IsAtom(g) && IsStraight(g) && At(p, i, Print(g))
    ensures GroupClose(p, i, 0, false) == Some(i + |Print(g)|)
  {
    var close := CloseOf(p);
    GroupText(p, i, g);
    PastOpening(close, p, i, g, 0);
    PastTree(close, p, i + |Opening(g.capturing)|, g.body, 1);
    PastClosing(close, p, CloseIndex(g, i), 1);
    assert Gaze(i, 0);
  }

  lemma LeafFirsts(b: string, r: Re)
    requires IsLeaf(r) && At(b, 0, Print(r))
    ensures b != "" && AtomFirsts(b, 0) == Some((|Print(r)|, LeafTokens(r)))
  {
    AtIndex(b, 0, Print(r), 0);
    if r.Class? {
      ClassEndsThere(b, 0, r);
      ClassTokensAre(b, 0, r, |Print(r)|);
    } else if r.Escape? {
      AtIndex(b, 0, Print(r), 1);
    }
  }

  lemma GroupIsNoLookaround(b: string, g: Re)
    requires g.Group? && IsAtom(g) && At(b, 0, Print(g))
    ensures !IsLookaround(b, 0)
  {
    GroupText(b, 0, g);
    if g.capturing {
      OpenGroup(b, 0, g);
    } else {
      AtIndex(b, 0, Opening(false), 2);
    }
  }

  lemma OneBranchUnion(t: string, bound: nat)
    requires |t| < bound
    ensures UnionOfFirsts([t], bound) == FirstSet(t)
  {
    assert [t][1..] == [];
    assert FirstSet(t) + {} == FirstSet(t);
  }

  lemma GroupFirstsAre(b: string, g: Re)
    requires g.Group? && IsAtom(g) && IsStraight(g) && At(b, 0, Print(g))
    ensures b != "" && AtomFirsts(b, 0) == Some((|Print(g)|, FirstSet(Print(g.body))))
  {
    var from := |Opening(g.capturing)|;
    GroupText(b, 0, g);
    OpenGroup(b, 0, g);
    GroupIsNoLookaround(b, g);
    GroupEndsThere(b, 0, g);
    assert b[from..|Print(g)| - 1] == Print(g.body);
    BranchTextsOfBody(g.body);
    assert Texts(Branches(g.body)) == [Print(g.body)];
    OneBranchUnion(Print(g.body), |b|);
  }

  lemma FirstSetOfAtom(b: string, end: nat, tokens: set<Token>)
    requires b != "" && AtomFirsts(b, 0) == Some((end, tokens)) && !IsQuantifierAt(b, end)
    requires b[0] != '^' && b[0] != '$' && b[0] != '|'
    ensures FirstSet(b) == tokens
  {
    assert {} + tokens == tokens;
  }

  /** The second pass reads the first set of a straight branch off its first character. */
  lemma {:induction false} FirstsAreLead(b: string, r: Re)
    requires WellFormed(r) && IsStraight(r) && StartsRead(r) && At(b, 0, Print(r)) && !IsQuantifierAt(b, |Print(r)|)
    ensures FirstSet(b) == LeafTokens(Lead(r))
    decreases r, 1
  {
    match r
    case Group(_, _) => FirstsOfGroup(b, r);
    case Cat(_, _) => FirstsOfCat(b, r);
    case _ => LeafFirstSet(b, r);
  }

  lemma {:induction false} FirstsOfGroup(b: string, g: Re)
    requires g.Group? && WellFormed(g) && IsStraight(g) && StartsRead(g) && At(b, 0, Print(g))
    requires !IsQuantifierAt(b, |Print(g)|)
    ensures FirstSet(b) == LeafTokens(Lead(g))
    decreases g, 0
  {
    var t := Print(g.body);
    Parts(g);
    GroupFirstsAre(b, g);
    OpenGroup(b, 0, g);
    FirstSetOfAtom(b, |Print(g)|, FirstSet(t));
    assert At(t, 0, t);
    FirstsAreLead(t, g.body);
  }

  lemma {:induction false} FirstsOfCat(b: string, r: Re)
    requires r.Cat? && WellFormed(r) && IsStraight(r) && StartsRead(r) && At(b, 0, Print(r))
    requires !IsQuantifierAt(b, |Print(r)|)
    ensures FirstSet(b) == LeafTokens(Lead(r))
    decreases r, 0
  {
    CatParts(b, 0, r);
    if Print(r.first) == "" {
      FirstsAreLead(b, r.rest);
    } else {
      NoQuantifierBefore(b, |Print(r.first)|, r.rest);
      FirstsAreLead(b, r.first);
    }
  }

  lemma LeafFirstSet(b: string, r: Re)
    requires IsLeaf(r) && At(b, 0, Print(r)) && !IsQuantifierAt(b, |Print(r)|)
    ensures FirstSet(b) == LeafTokens(r)
  {
    LeafFirsts(b, r);
    AtIndex(b, 0, Print(r), 0);
    FirstSetOfAtom(b, |Print(r)|, LeafTokens(r));
  }

  // ---------- literal prefixes ----------

  predicate IsLiteral(r: Re) {
    match r
    case Empty => true
    case Char(_) => true
    case Cat(first, rest) => IsLiteral(first) && IsLiteral(rest)
    case _ => false
  }

  /** The literal characters a branch starts with, case-folded. */
  function Literals(r: Re): string {
    match r
    case Char(c) => [LowerChar(c)]
    case Cat(first, rest) => if IsLiteral(first) then Literals(first) + Literals(rest) else Literals(first)
    case _ => ""
  }

  /** The literal prefix of a text from each index, as a function value. */
  type Prefix = nat -> string

  predicate Spot(i: nat) {
    true
  }

  ghost predicate IsPrefix(prefix: Prefix, b: string) {
    forall i: nat {:trigger Spot(i)} :: prefix(i) == PrefixFrom(b, i)
  }

  /** The prefix read from `i` is the literals of a tree there, and goes on behind it when it is all literal. */
  ghost predicate Reads(prefix: Prefix, i: nat, r: Re, j: nat) {
    prefix(i) == if IsLiteral(r) then Literals(r) + prefix(j) else Literals(r)
  }

  lemma ReadsInTwo(prefix: Prefix, i: nat, first: Re, j: nat, rest: Re, k: nat)
    requires Reads(prefix, i, first, j) && Reads(prefix, j, rest, k)
    ensures Reads(prefix, i, Cat(first, rest), k)
  {
    if IsLiteral(first) && IsLiteral(rest) {
      Associated(Literals(first), Literals(rest), prefix(k));
    }
  }

  lemma Associated(x: string, y: string, z: string)
    ensures x + (y + z) == x + y + z
  {
  }

  lemma {:induction false} PrefixAt(prefix: Prefix, b: string, i: nat, r: Re)
    requires IsPrefix(prefix, b) && WellFormed(r) && IsStraight(r) && At(b, i, Print(r))
    ensures Reads(prefix, i, r, i + |Print(r)|)
    decreases r, 1
  {
    match r
    case Empty => assert "" + prefix(i) == prefix(i);
    case Cat(_, _) => PrefixOfCat(prefix, b, i, r);
    case Group(_, _) => GroupPrefix(prefix, b, i, r);
    case _ =>
      Parts(r);
      LeafPrefix(prefix, b, i, r);
  }

  lemma {:induction false} PrefixOfCat(prefix: Prefix, b: string, i: nat, r: Re)
    requires IsPrefix(prefix, b) && r.Cat? && WellFormed(r) && IsStraight(r) && At(b, i, Print(r))
    ensures Reads(prefix, i, r, i + |Print(r)|)
    decreases r, 0
  {
    PrefixOfParts(prefix, b, i, r);
    ReadsInTwo(prefix, i, r.first, i + |Print(r.first)|, r.rest, i + |Print(r.first)| + |Print(r.rest)|);
  }

  lemma {:induction false} PrefixOfParts(prefix: Prefix, b: string, i: nat, r: Re)
    requires IsPrefix(prefix, b) && r.Cat? && WellFormed(r) && IsStraight(r) && At(b, i, Print(r))
    ensures Reads(prefix, i, r.first, i + |Print(r.first)|)
    ensures Reads(prefix, i + |Print(r.first)|, r.rest, i + |Print(r.first)| + |Print(r.rest)|)
    decreases r, -1
  {
    CatParts(b, i, r);
    PrefixAt(prefix, b, i, r.first);
    PrefixAt(prefix, b, i + |Print(r.first)|, r.rest);
  }

  lemma GroupPrefix(prefix: Prefix, b: string, i: nat, r: Re)
    requires IsPrefix(prefix, b) && r.Group? && WellFormed(r) && At(b, i, Print(r))
    ensures prefix(i) == ""
  {
    Parts(r);
    OpenGroup(b, i, r);
    assert Spot(i);
  }

  lemma LeafPrefix(prefix: Prefix, b: string, i: nat, r: Re)
    requires IsPrefix(prefix, b) && IsLeaf(r) && At(b, i, Print(r))
    ensures Reads(prefix, i, r, i + |Print(r)|)
  {
    AtIndex(b, i, Print(r), 0);
    assert Spot(i) && Spot(i + |Print(r)|);
  }

  lemma PrefixIsLiterals(r: Re)
    requires WellFormed(r) && IsStraight(r)
    ensures LiteralPrefix(Print(r)) == Literals(r)
  {
    var b := Print(r);
    var prefix: Prefix := (i: nat) => PrefixFrom(b, i);
    assert At(b, 0, b);
    PrefixAt(prefix, b, 0, r);
    assert Spot(0) && Spot(|b|);
    assert Literals(r) + "" == Literals(r);
  }

  /** A word starts with the literals of a branch, and is no longer when the branch is all literal. */
  ghost predicate StartsSo(r: Re, w: string) {
    Literals(r) <= Lower(w) && (IsLiteral(r) ==> |Literals(r)| == |w|)
  }

  lemma StartsSoInTwo(first: Re, rest: Re, w: string, u: string, v: string)
    requires w == u + v && StartsSo(first, u) && StartsSo(rest, v)
    ensures StartsSo(Cat(first, rest), w)
  {
    LowerOfTwo(w, u, v);
  }

  lemma LowerOfTwo(w: string, u: string, v: string)
    requires w == u + v
    ensures Lower(w) == Lower(u) + Lower(v)
  {
  }

  /** Every word of a branch starts with its literals. */
  lemma {:induction false} WordsStartSo(r: Re, w: string)
    requires IsStraight(r) && Matches(r, w)
    ensures StartsSo(r, w)
  {
    match r
    case Cat(first, rest) =>
      var k :| 0 <= k <= |w| && Matches(first, w[..k]) && Matches(rest, w[k..]);
      WordsStartSo(first, w[..k]);
      WordsStartSo(rest, w[k..]);
      assert w == w[..k] + w[k..];
      StartsSoInTwo(first, rest, w, w[..k], w[k..]);
    case Char(c) => assert Lower(w) == [LowerChar(w[0])];
    case _ =>
  }

  lemma {:induction false} FirstDifference(a: string, b: string) returns (k: nat)
    requires !Nests(a, b)
    ensures k < |a| && k < |b| && a[k] != b[k]
  {
    if a[0] != b[0] { return 0; }
    assert a == [a[0]] + a[1..] && b == [b[0]] + b[1..];
    k := FirstDifference(a[1..], b[1..]);
    k := k + 1;
  }

  // ---------- two branches ----------

  lemma UnnestedWordsDiffer(a: string, b: string, v: string, w: string)
    requires a <= Lower(v) && b <= Lower(w) && !Nests(a, b)
    ensures !(v <= w) && !(w <= v)
  {
    var k := FirstDifference(a, b);
    assert LowerChar(v[k]) == Lower(v)[k] == a[k] && LowerChar(w[k]) == Lower(w)[k] == b[k];
    assert v[k] != w[k];
  }

  /** Of two branches the second pass does not find ambiguous, no word of one starts a word of the other. */
  lemma ApartWordsDiffer(a: Re, b: Re, v: string, w: string)
    requires WellFormed(a) && IsStraight(a) && StartsRead(a) && Matches(a, v)
    requires WellFormed(b) && IsStraight(b) && StartsRead(b) && Matches(b, w)
    requires !PairAmbiguous(Print(a), Print(b))
    ensures !(v <= w) && !(w <= v)
  {
    LeadIsRead(a, v);
    LeadIsRead(b, w);
    BranchFirsts(a);
    BranchFirsts(b);
    if FirstSetsOverlap(FirstSet(Print(a)), FirstSet(Print(b))) {
      PrefixIsLiterals(a);
      PrefixIsLiterals(b);
      WordsStartSo(a, v);
      WordsStartSo(b, w);
      UnnestedWordsDiffer(Literals(a), Literals(b), v, w);
    } else {
      NoOverlapNoCommon(LeafTokens(Lead(a)), LeafTokens(Lead(b)), LowerChar(v[0]));
      assert v[0] != w[0];
    }
  }

  lemma BranchFirsts(r: Re)
    requires WellFormed(r) && IsStraight(r) && StartsRead(r)
    ensures FirstSet(Print(r)) == LeafTokens(Lead(r))
  {
    assert At(Print(r), 0, Print(r));
    FirstsAreLead(Print(r), r);
  }

  // ---------- unique factorisation ----------

  /** Every branch is straight, and in an alternation starts with a character that is read right. */
  ghost predicate HasReadBranches(body: Re) {
    forall k :: 0 <= k < |Branches(body)| ==>
      IsStraight(Branches(body)[k]) && (body.Alt? ==> StartsRead(Branches(body)[k]))
  }

  /** One turn of the loop: the branch taken and the text it consumed. */
  datatype Turn = Turn(branch: nat, word: string)

  ghost predicate IsTurn(body: Re, turn: Turn) {
    turn.branch < |Branches(body)| && Matches(Branches(body)[turn.branch], turn.word)
  }

  function Consumed(turns: seq<Turn>): string {
    if turns == [] then "" else turns[0].word + Consumed(turns[1..])
  }

  lemma BranchParts(body: Re, k: nat)
    requires WellFormed(body) && HasReadBranches(body) && k < |Branches(body)|
    ensures WellFormed(Branches(body)[k]) && IsStraight(Branches(body)[k])
    ensures body.Alt? ==> StartsRead(Branches(body)[k])
  {
    BranchesAreBranches(body);
    BranchIsWellFormed(Branches(body)[k]);
  }

  /** In an admitted body, a comparable pair of turns is one and the same turn. */
  lemma ComparableTurnsEqual(body: Re, x: Turn, y: Turn)
    requires WellFormed(body) && HasReadBranches(body)
    requires body.Alt? ==> !AmbiguousBranches(Texts(Branches(body)))
    requires IsTurn(body, x) && IsTurn(body, y) && (x.word <= y.word || y.word <= x.word)
    ensures x == y
  {
    var bs := Branches(body);
    BranchParts(body, x.branch);
    BranchParts(body, y.branch);
    if x.branch == y.branch {
      StraightWidth(bs[x.branch], x.word);
      StraightWidth(bs[y.branch], y.word);
    } else {
      assert body.Alt?;
      var a, b := if x.branch < y.branch then x else y, if x.branch < y.branch then y else x;
      assert !PairAmbiguous(Texts(bs)[a.branch], Texts(bs)[b.branch]);
      ApartWordsDiffer(bs[a.branch], bs[b.branch], a.word, b.word);
    }
  }

  lemma {:induction false} NonNullableBranch(body: Re, k: nat)
    requires !Nullable(body) && k < |Branches(body)|
    ensures !Nullable(Branches(body)[k])
  {
    match body
    case Alt(left, right) =>
      if k < |Branches(left)| { NonNullableBranch(left, k); } else { NonNullableBranch(right, k - |Branches(left)|); }
    case _ =>
  }

  lemma {:induction false} SameConsumedSameTurns(body: Re, xs: seq<Turn>, ys: seq<Turn>)
    requires WellFormed(body) && HasReadBranches(body) && !Nullable(body)
    requires body.Alt? ==> !AmbiguousBranches(Texts(Branches(body)))
    requires forall k :: 0 <= k < |xs| ==> IsTurn(body, xs[k])
    requires forall k :: 0 <= k < |ys| ==> IsTurn(body, ys[k])
    requires Consumed(xs) == Consumed(ys)
    ensures xs == ys
    decreases |xs|
  {
    if xs == [] || ys == [] {
      if xs != [] { TurnIsNonEmpty(body, xs[0]); }
      if ys != [] { TurnIsNonEmpty(body, ys[0]); }
    } else {
      var x, y := xs[0], ys[0];
      var s := Consumed(xs);
      assert s[..|x.word|] == x.word && s[..|y.word|] == y.word;
      if |x.word| <= |y.word| {
        assert y.word[..|x.word|] == s[..|x.word|];
      } else {
        assert x.word[..|y.word|] == s[..|y.word|];
      }
      ComparableTurnsEqual(body, x, y);
      assert s[|x.word|..] == Consumed(xs[1..]) == Consumed(ys[1..]);
      SameConsumedSameTurns(body, xs[1..], ys[1..]);
      assert xs == [x] + xs[1..] && ys == [y] + ys[1..];
    }
  }

  lemma TurnIsNonEmpty(body: Re, turn: Turn)
    requires !Nullable(body) && IsTurn(body, turn)
    ensures turn.word != ""
  {
    NonNullableBranch(body, turn.branch);
    NullableIsEmptyWord(Branches(body)[turn.branch]);
  }

  /** In an admitted pattern, a loop over a group whose branches are rows of single characters that start with
      one the second pass reads right splits every text in at most one way: the same text means the same
      branches with the same words. */
  lemma UniqueFactorisation(r: Re, n: nat, xs: seq<Turn>, ys: seq<Turn>)
    requires WellFormed(r) && Refusal(Print(r)).None? && n < |RepeatedBodies(r)|
    requires HasReadBranches(RepeatedBodies(r)[n])
    requires forall k :: 0 <= k < |xs| ==> IsTurn(RepeatedBodies(r)[n], xs[k])
    requires forall k :: 0 <= k < |ys| ==> IsTurn(RepeatedBodies(r)[n], ys[k])
    requires Consumed(xs) == Consumed(ys)
    ensures xs == ys
  {
    var body := RepeatedBodies(r)[n];
    ScannerDecidesTree(r);
    FirstRefusalIsBadBody(r);
    assert !BadBody(body);
    SeenIs(body);
    RepeatedBodiesSplit(r, n);
    SameConsumedSameTurns(body, xs, ys);
  }
}
