/** What the scanner decides about every core pattern, and what admission buys. */
module RegexTheorems {
  import opened Text
  import opened RegexScanner
  import opened RegexSyntax
  import opened RegexClasses
  import opened RegexFirstPass
  import opened RegexSecondPass

  // ---------- the flat scan equals the tree definitions ----------

  lemma RunOf(p: string) returns (run: Run)
    ensures IsScan(run, p)
  {
    run := (i: nat, s: Scan) => ScanFrom(p, i, s);
  }

  lemma FirstPassOnTree(r: Re)
    requires WellFormed(r)
    ensures ScanFrom(Print(r), 0, START) ==
            match FirstRefusal(r)
            case Some(reason) => Refused(reason)
            case None => Finished(AlternationEnds(r, 0))
  {
    var p := Print(r);
    var run := RunOf(p);
    assert At(p, 0, p);
    ScanTree(run, p, 0, r, START);
    var s := ScanAfter(START, r, 0);
    assert Look(0, START) && Look(|p|, s);
    assert [] + AlternationEnds(r, 0) == AlternationEnds(r, 0);
  }

  /** The verdict on a printed pattern, without reading its text. */
  function Verdict(r: Re): Option<Reason> {
    if FirstRefusal(r).Some? then FirstRefusal(r)
    else if exists k :: 0 <= k < |AlternationBodies(r)| && AmbiguousBranches(Texts(Branches(AlternationBodies(r)[k])))
    then Some(AmbiguousAlternation)
    else None
  }

  lemma ScannerDecidesTree(r: Re)
    requires WellFormed(r) && |Print(r)| <= MAX_REGEX_PATTERN_LENGTH
    ensures Refusal(Print(r)) == Verdict(r)
  {
    FirstPassOnTree(r);
    SecondPassOnTree(r);
  }

  // ---------- the first pass: nullable and nested repetition ----------

  predicate BadBody(body: Re) {
    SeenNullable(body) || SeenQuantifier(body)
  }

  /** Some class holds an escape before a `*`, `+` or `?`. */
  predicate HasMarkedClass(r: Re) {
    match r
    case Class(_, items) => IsMarked(items)
    case Group(_, body) => HasMarkedClass(body)
    case Rep(atom, _, _) => HasMarkedClass(atom)
    case Cat(first, rest) => HasMarkedClass(first) || HasMarkedClass(rest)
    case Alt(left, right) => HasMarkedClass(left) || HasMarkedClass(right)
    case _ => false
  }

  /** What the scan sees, against what is there. */
  lemma {:induction false} SeenIs(r: Re)
    ensures SeenQuantifier(r) <==> HasQuantifier(r) || HasMarkedClass(r)
    ensures SeenNullable(r) ==> Nullable(r)
    ensures Nullable(r) ==> SeenNullable(r) || HasQuantifier(r)
  {
    match r
    case Group(_, body) => SeenIs(body);
    case Rep(atom, _, _) => SeenIs(atom);
    case Cat(first, rest) => SeenIs(first); SeenIs(rest);
    case Alt(left, right) => SeenIs(left); SeenIs(right);
    case _ =>
  }

  ghost predicate SomeBad(bodies: seq<Re>) {
    exists k :: 0 <= k < |bodies| && BadBody(bodies[k])
  }

  lemma {:induction false} FirstRefusalIsBadBody(r: Re)
    ensures FirstRefusal(r).Some? <==> SomeBad(RepeatedBodies(r))
    ensures FirstRefusal(r).Some? ==>
            FirstRefusal(r).value == NullableGroup || FirstRefusal(r).value == NestedRepetition
  {
    match r
    case Group(_, body) =>
      FirstRefusalIsBadBody(body);
      assert RepeatedBodies(r) == RepeatedBodies(body);
    case Rep(atom, q, _) =>
      FirstRefusalIsBadBody(atom);
      if atom.Group? && Repeats(q) {
        SomeBadConcat(RepeatedBodies(atom), [atom.body]);
        assert BadBody([atom.body][0]) <==> BadBody(atom.body);
      } else {
        assert RepeatedBodies(atom) + [] == RepeatedBodies(atom);
      }
    case Cat(first, rest) =>
      FirstRefusalIsBadBody(first);
      FirstRefusalIsBadBody(rest);
      SomeBadConcat(RepeatedBodies(first), RepeatedBodies(rest));
    case Alt(left, right) =>
      FirstRefusalIsBadBody(left);
      FirstRefusalIsBadBody(right);
      SomeBadConcat(RepeatedBodies(left), RepeatedBodies(right));
    case _ =>
  }

  lemma SomeBadConcat(a: seq<Re>, b: seq<Re>)
    ensures SomeBad(a + b) <==> SomeBad(a) || SomeBad(b)
  {
    if k :| 0 <= k < |a + b| && BadBody((a + b)[k]) {
      if k < |a| { assert BadBody(a[k]); } else { assert BadBody(b[k - |a|]); }
    }
    if k :| 0 <= k < |a| && BadBody(a[k]) { assert BadBody((a + b)[k]); }
    if k :| 0 <= k < |b| && BadBody(b[k]) { assert BadBody((a + b)[|a| + k]); }
  }

  /** A pattern is refused by the one-pass scan exactly when some group under `*` or `+` matches the
      empty word, holds a quantifier at any depth, or holds a class with an escape before a `*`, `+` or `?`. */
  lemma RefusedForNesting(r: Re)
    requires WellFormed(r) && |Print(r)| <= MAX_REGEX_PATTERN_LENGTH
    ensures Refusal(Print(r)) in {Some(NullableGroup), Some(NestedRepetition)} <==>
            exists k :: 0 <= k < |RepeatedBodies(r)| &&
                        (Matches(RepeatedBodies(r)[k], "") || HasQuantifier(RepeatedBodies(r)[k]) ||
                         HasMarkedClass(RepeatedBodies(r)[k]))
  {
    ScannerDecidesTree(r);
    FirstRefusalIsBadBody(r);
    forall k | 0 <= k < |RepeatedBodies(r)|
      ensures BadBody(RepeatedBodies(r)[k]) <==>
              Matches(RepeatedBodies(r)[k], "") || HasQuantifier(RepeatedBodies(r)[k]) ||
              HasMarkedClass(RepeatedBodies(r)[k])
    {
      SeenIs(RepeatedBodies(r)[k]);
      NullableIsEmptyWord(RepeatedBodies(r)[k]);
    }
  }

  lemma {:induction false} FlatHasNoStars(r: Re)
    requires !HasQuantifier(r)
    ensures StarHeight(r) == 0
  {
    match r
    case Group(_, body) => FlatHasNoStars(body);
    case Cat(first, rest) => FlatHasNoStars(first); FlatHasNoStars(rest);
    case Alt(left, right) => FlatHasNoStars(left); FlatHasNoStars(right);
    case _ =>
  }

  lemma {:induction false} UnrefusedStarHeight(r: Re)
    requires WellFormed(r) && FirstRefusal(r).None?
    ensures StarHeight(r) <= 1
  {
    Parts(r);
    match r
    case Group(_, body) => UnrefusedStarHeight(body);
    case Rep(atom, q, _) =>
      UnrefusedStarHeight(atom);
      if atom.Group? && Repeats(q) {
        SeenIs(atom.body);
        FlatHasNoStars(atom.body);
      }
    case Cat(first, rest) => UnrefusedStarHeight(first); UnrefusedStarHeight(rest);
    case Alt(left, right) => UnrefusedStarHeight(left); UnrefusedStarHeight(right);
    case _ =>
  }

  /** Every admitted pattern has star height at most one, and no repeated group matches the empty word. */
  lemma AdmittedStarHeight(r: Re)
    requires WellFormed(r) && Refusal(Print(r)).None?
    ensures StarHeight(r) <= 1
    ensures forall k :: 0 <= k < |RepeatedBodies(r)| ==> !Matches(RepeatedBodies(r)[k], "")
  {
    ScannerDecidesTree(r);
    UnrefusedStarHeight(r);
    RefusedForNesting(r);
  }

  // ---------- the second pass: branches of literals ----------

  /** Literal characters and `.` in a row. */
  predicate FlatText(t: string) {
    forall k :: 0 <= k < |t| ==> IsPlain(t[k]) || t[k] == '.'
  }

  predicate LiteralText(t: string) {
    forall k :: 0 <= k < |t| ==> IsPlain(t[k])
  }

  lemma FlatFirstSet(t: string)
    requires FlatText(t) && t != ""
    ensures FirstSet(t) == {Lit(LowerChar(t[0]))}
  {
    assert IsPlain(t[0]) || t[0] == '.';
    assert AtomFirsts(t, 0) == Some((1, {Lit(LowerChar(t[0]))}));
    if |t| > 1 { assert IsPlain(t[1]) || t[1] == '.'; }
    assert !IsQuantifierAt(t, 1);
    assert {} + {Lit(LowerChar(t[0]))} == {Lit(LowerChar(t[0]))};
  }

  lemma SingletonsOverlap(a: char, b: char)
    ensures FirstSetsOverlap({Lit(a)}, {Lit(b)}) <==> a == '.' || b == '.' || a == b
  {
    assert Expand({Lit(a)}) == {a};
    assert Expand({Lit(b)}) == {b};
    assert a in Expand({Lit(a)}) * Expand({Lit(b)}) <==> a == b;
  }

  lemma {:induction false} PrefixOfFlat(t: string, i: nat)
    requires FlatText(t) && i <= |t|
    ensures i < |t| && t[i] == '.' ==> PrefixFrom(t, i) == ""
    ensures i < |t| && t[i] != '.' ==> PrefixFrom(t, i) != "" && PrefixFrom(t, i)[0] == LowerChar(t[i])
    ensures PrefixFrom(t, i) <= Lower(t)[i..]
    ensures LiteralText(t) ==> PrefixFrom(t, i) == Lower(t)[i..]
    decreases |t| - i
  {
    if i < |t| {
      assert IsPlain(t[i]) || t[i] == '.';
      PrefixOfFlat(t, i + 1);
      assert Lower(t)[i..] == [LowerChar(t[i])] + Lower(t)[i + 1..];
    }
  }

  /** For branches of literals and `.`, the first-set test adds nothing to the prefix test. */
  lemma FlatPairAmbiguous(a: string, b: string)
    requires FlatText(a) && FlatText(b) && a != "" && b != ""
    ensures PairAmbiguous(a, b) <==> Nests(LiteralPrefix(a), LiteralPrefix(b))
  {
    FlatFirstSet(a);
    FlatFirstSet(b);
    SingletonsOverlap(LowerChar(a[0]), LowerChar(b[0]));
    PrefixOfFlat(a, 0);
    PrefixOfFlat(b, 0);
  }

  lemma LiteralPairAmbiguous(a: string, b: string)
    requires LiteralText(a) && LiteralText(b) && a != "" && b != ""
    ensures PairAmbiguous(a, b) <==> Nests(Lower(a), Lower(b))
  {
    FlatPairAmbiguous(a, b);
    PrefixOfFlat(a, 0);
    PrefixOfFlat(b, 0);
    assert Lower(a)[0..] == Lower(a) && Lower(b)[0..] == Lower(b);
  }

  ghost predicate LiteralBranches(body: Re) {
    forall k :: 0 <= k < |Branches(body)| ==> LiteralText(Print(Branches(body)[k])) && Print(Branches(body)[k]) != ""
  }

  /** Two texts, case-folded, of which one starts the other. */
  ghost predicate SomeNest(ts: seq<string>) {
    exists a, b :: 0 <= a < b < |ts| && Nests(Lower(ts[a]), Lower(ts[b]))
  }

  ghost predicate PrefixComparable(body: Re) {
    SomeNest(Texts(Branches(body)))
  }

  lemma LiteralTextsAmbiguous(ts: seq<string>)
    requires forall k :: 0 <= k < |ts| ==> LiteralText(ts[k]) && ts[k] != ""
    ensures AmbiguousBranches(ts) <==> SomeNest(ts)
  {
    forall a, b | 0 <= a < b < |ts|
      ensures PairAmbiguous(ts[a], ts[b]) <==> Nests(Lower(ts[a]), Lower(ts[b]))
    {
      LiteralPairAmbiguous(ts[a], ts[b]);
    }
    if a, b :| 0 <= a < b < |ts| && PairAmbiguous(ts[a], ts[b]) {
      assert Nests(Lower(ts[a]), Lower(ts[b]));
    }
    if a, b :| 0 <= a < b < |ts| && Nests(Lower(ts[a]), Lower(ts[b])) {
      assert PairAmbiguous(ts[a], ts[b]);
    }
  }

  lemma LiteralBodyAmbiguous(body: Re)
    requires LiteralBranches(body)
    ensures AmbiguousBranches(Texts(Branches(body))) <==> PrefixComparable(body)
  {
    LiteralTextsAmbiguous(Texts(Branches(body)));
  }

  /** When every repeated alternation has non-empty literal branches, the pattern is refused as
      ambiguous exactly when one of them has two prefix-comparable branches. */
  lemma RefusedAsAmbiguous(r: Re)
    requires WellFormed(r) && |Print(r)| <= MAX_REGEX_PATTERN_LENGTH && FirstRefusal(r).None?
    requires forall k :: 0 <= k < |AlternationBodies(r)| ==> LiteralBranches(AlternationBodies(r)[k])
    ensures Refusal(Print(r)) == Some(AmbiguousAlternation) <==>
            exists k :: 0 <= k < |AlternationBodies(r)| && PrefixComparable(AlternationBodies(r)[k])
  {
    ScannerDecidesTree(r);
    forall k | 0 <= k < |AlternationBodies(r)|
      ensures AmbiguousBranches(Texts(Branches(AlternationBodies(r)[k]))) <==> PrefixComparable(AlternationBodies(r)[k])
    {
      LiteralBodyAmbiguous(AlternationBodies(r)[k]);
    }
  }

  lemma {:induction false} RepeatedBodiesSplit(r: Re, n: nat)
    requires WellFormed(r) && n < |RepeatedBodies(r)|
    ensures WellFormed(RepeatedBodies(r)[n])
    ensures RepeatedBodies(r)[n].Alt? ==> RepeatedBodies(r)[n] in AlternationBodies(r)
    decreases r, 1
  {
    Parts(r);
    match r
    case Group(_, body) => RepeatedBodiesSplit(body, n);
    case Rep(atom, _, _) =>
      if n < |RepeatedBodies(atom)| {
        RepeatedBodiesSplit(atom, n);
      } else {
        Parts(atom);
      }
    case Cat(first, rest) => RepeatedBodiesOfParts(r, first, rest, n);
    case Alt(left, right) => RepeatedBodiesOfParts(r, left, right, n);
    case _ =>
  }

  lemma {:induction false} RepeatedBodiesOfParts(r: Re, a: Re, b: Re, n: nat)
    requires a < r && b < r && WellFormed(a) && WellFormed(b)
    requires RepeatedBodies(r) == RepeatedBodies(a) + RepeatedBodies(b) && n < |RepeatedBodies(r)|
    requires AlternationBodies(r) == AlternationBodies(a) + AlternationBodies(b)
    ensures WellFormed(RepeatedBodies(r)[n])
    ensures RepeatedBodies(r)[n].Alt? ==> RepeatedBodies(r)[n] in AlternationBodies(r)
    decreases r, 0
  {
    if n < |RepeatedBodies(a)| {
      RepeatedBodiesSplit(a, n);
    } else {
      RepeatedBodiesSplit(b, n - |RepeatedBodies(a)|);
    }
  }

  // ---------- where the check stops ----------

  function Loop(capturing: bool, body: Re, q: Quantifier, isLazy: bool): Re {
    Rep(Group(capturing, body), q, isLazy)
  }

  lemma {:induction false} NoQuantifierNoBodies(r: Re)
    requires !HasQuantifier(r)
    ensures FirstRefusal(r) == None && AlternationBodies(r) == []
  {
    match r
    case Group(_, body) => NoQuantifierNoBodies(body);
    case Cat(first, rest) => NoQuantifierNoBodies(first); NoQuantifierNoBodies(rest);
    case Alt(left, right) => NoQuantifierNoBodies(left); NoQuantifierNoBodies(right);
    case _ =>
  }

  /** What a loop over such a body is refused for: a class read as nested repetition, else a body that is
      itself an alternation with ambiguous branches. */
  ghost function LoopReason(body: Re): Option<Reason> {
    if HasMarkedClass(body) then Some(NestedRepetition)
    else if body.Alt? && AmbiguousBranches(Texts(Branches(body))) then Some(AmbiguousAlternation)
    else None
  }

  lemma LoopVerdict(r: Re, body: Re)
    requires r.Rep? && r.atom.Group? && r.atom.body == body && Repeats(r.q) && !Nullable(body) && !HasQuantifier(body)
    ensures Verdict(r) == LoopReason(body)
  {
    SeenIs(body);
    NoQuantifierNoBodies(body);
    assert FirstRefusal(r.atom) == None && AlternationBodies(r.atom) == [];
    assert AlternationBodies(r) == if body.Alt? then [body] else [];
    assert body.Alt? ==> AlternationBodies(r)[0] == body;
  }

  /** A loop over a body without quantifiers that does not match the empty word is refused exactly when some
      class of it has an escape before a `*`, `+` or `?`, or the body itself is an alternation, and its
      branches are ambiguous. */
  lemma LoopIsRefusedIff(capturing: bool, body: Re, q: Quantifier, isLazy: bool)
    requires WellFormed(body) && !Nullable(body) && !HasQuantifier(body) && Repeats(q)
    requires |Print(Loop(capturing, body, q, isLazy))| <= MAX_REGEX_PATTERN_LENGTH
    ensures Refusal(Print(Loop(capturing, body, q, isLazy))) == LoopReason(body)
  {
    var r := Loop(capturing, body, q, isLazy);
    assert IsAtom(r.atom);
    ScannerDecidesTree(r);
    LoopVerdict(r, body);
  }

  /** One more group around the body and the branches are not compared, however ambiguous they are. */
  lemma WrappedLoopIsAdmitted(capturing: bool, inner: bool, body: Re, q: Quantifier, isLazy: bool)
    requires WellFormed(body) && !Nullable(body) && !HasQuantifier(body) && Repeats(q)
    requires |Print(Loop(capturing, Group(inner, body), q, isLazy))| <= MAX_REGEX_PATTERN_LENGTH
    ensures Refusal(Print(Loop(capturing, Group(inner, body), q, isLazy))) ==
            if HasMarkedClass(body) then Some(NestedRepetition) else None
  {
    var wrapped := Group(inner, body);
    assert IsAtom(wrapped) && WellFormed(wrapped);
    LoopIsRefusedIff(capturing, wrapped, q, isLazy);
  }

  /** `([\d+])+` is refused as nested repetition although its only quantifier is the last character. */
  lemma MarkedClassIsRefused()
    ensures Refusal(Print(Loop(true, Class(false, [Escaped('d'), One('+')]), Plus, false))) == Some(NestedRepetition)
  {
    var items := [Escaped('d'), One('+')];
    var body := Class(false, items);
    assert IsMarked(items);
    assert ItemsText(items)[0] == '\\';
    assert IsLeaf(body) && IsAtom(body) && IsBranch(body);
    assert items[1..] == [One('+')] && [One('+')][1..] == [];
    LoopIsRefusedIff(true, body, Plus, false);
  }

  /** `a|aa` */
  function Prefixes(): Re {
    Alt(Char('a'), Cat(Char('a'), Char('a')))
  }

  lemma PrefixesFacts()
    ensures WellFormed(Prefixes()) && !Nullable(Prefixes()) && !HasQuantifier(Prefixes()) && Print(Prefixes()) == "a|aa"
  {
    var r := Prefixes();
    assert IsBranch(r.left) && IsBranch(r.right);
  }

  /** So `(a|aa)+` is refused, while `((a|aa))+` is admitted although its loop reads "aa" in one turn or in two. */
  lemma WrappedAlternationIsAdmitted()
    ensures Refusal(Print(Loop(true, Prefixes(), Plus, false))) == Some(AmbiguousAlternation)
    ensures Refusal(Print(Loop(true, Group(true, Prefixes()), Plus, false))) == None
    ensures MatchesTimes(Group(true, Prefixes()), 1, "aa") && MatchesTimes(Group(true, Prefixes()), 2, "aa")
  {
    PrefixesFacts();
    LoopIsRefusedIff(true, Prefixes(), Plus, false);
    NestedLiterals(Prefixes());
    WrappedLoopIsAdmitted(true, true, Prefixes(), Plus, false);
    TwoReadings(Group(true, Prefixes()));
  }

  lemma NestedLiterals(inner: Re)
    requires inner == Alt(Char('a'), Cat(Char('a'), Char('a')))
    ensures AmbiguousBranches(Texts(Branches(inner)))
  {
    var bs := Branches(inner);
    assert bs == [inner.left, inner.right];
    var ts := Texts(bs);
    assert ts[0] == "a" && ts[1] == "aa";
    LiteralPairAmbiguous("a", "aa");
    assert Lower("a") == "a" && Lower("aa") == "aa";
    assert PairAmbiguous(ts[0], ts[1]);
  }

  lemma TwoReadings(body: Re)
    requires body == Group(true, Alt(Char('a'), Cat(Char('a'), Char('a'))))
    ensures MatchesTimes(body, 1, "aa") && MatchesTimes(body, 2, "aa")
  {
    assert "aa"[..1] == "a" && "aa"[1..] == "a" && "aa"[..2] == "aa" &&
           "aa"[2..] == "" && "a"[..1] == "a" && "a"[1..] == "";
    assert Matches(Cat(Char('a'), Char('a')), "aa");
    assert Matches(body, "aa") && Matches(body, "a");
    assert MatchesTimes(body, 0, "");
    assert MatchesTimes(body, 1, "a");
  }
}
