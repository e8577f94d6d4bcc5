/** Each condition of the unique splitting is needed: loops that are admitted although two of their branches
    match the same text. */
module RegexGaps {
  import opened Text
  import opened RegexScanner
  import opened RegexSyntax
  import opened RegexClasses
  import opened RegexFirstPass
  import opened RegexSecondPass
  import opened RegexTheorems
  import opened RegexFirsts
  import opened RegexBranches

  /** `(a|b)+` */
  function LoopOf(a: Re, b: Re): Re {
    Loop(true, Alt(a, b), Plus, false)
  }

  /** Without quantifiers, empty words or marked classes. */
  predicate IsTame(r: Re) {
    IsBranch(r) && !Nullable(r) && !HasQuantifier(r) && !HasMarkedClass(r)
  }

  lemma LoopOfLength(a: Re, b: Re)
    ensures |Print(LoopOf(a, b))| == |Print(a)| + |Print(b)| + 4
  {
    var body, group := Alt(a, b), Group(true, Alt(a, b));
    assert Print(body) == Print(a) + "|" + Print(b);
    assert Print(group) == "(" + Print(body) + ")";
    assert Print(LoopOf(a, b)) == Print(group) + "+";
  }

  /** A loop over two tame branches is admitted exactly when the second pass does not find them ambiguous. */
  lemma LoopOfTwo(a: Re, b: Re)
    requires IsTame(a) && IsTame(b) && |Print(a)| + |Print(b)| <= 100
    ensures Refusal(Print(LoopOf(a, b))).None? <==> !PairAmbiguous(Print(a), Print(b))
  {
    var body := Alt(a, b);
    BranchIsWellFormed(a);
    BranchIsWellFormed(b);
    LoopOfLength(a, b);
    LoopIsRefusedIff(true, body, Plus, false);
    var ts := Texts(Branches(body));
    assert Branches(a) == [a] && Branches(b) == [b] && ts[0] == Print(a) && ts[1] == Print(b);
    assert PairAmbiguous(ts[0], ts[1]) ==> AmbiguousBranches(ts);
  }

  // ---------- misread escapes ----------

  lemma LeafIsTame(r: Re)
    requires IsLeaf(r) && !r.Class?
    ensures IsTame(r) && |Print(r)| <= 2
  {
    assert IsAtom(r);
  }

  lemma LeafFirstTokens(r: Re)
    requires IsLeaf(r)
    ensures FirstSet(Print(r)) == LeafTokens(r)
  {
    assert At(Print(r), 0, Print(r));
    LeafFirstSet(Print(r), r);
  }

  lemma MissedIsNoOverlap(c: char, x: char)
    requires IsEscapable(c) && IsMisread(c) && EscapeMatches(c, x) && LowerChar(x) == x && IsPlain(x)
    requires !Stands(EscapeTokenOf(c), x)
    ensures !FirstSetsOverlap({EscapeTokenOf(c)}, {Lit(x)})
  {
    assert EscapeTokenOf(c) == Esc(c);
    if y :| y in Expand({Esc(c)}) * Expand({Lit(x)}) { assert y == x; }
  }

  /** Some literal matches what the escape matches, and the loop over the two is admitted, exactly when the
      escape is `\s` or stands for a control character. */
  lemma EscapeLoopIsAdmittedIff(c: char)
    requires IsEscapable(c)
    ensures (exists x :: IsPlain(x) && EscapeMatches(c, x) && Refusal(Print(LoopOf(Escape(c), Char(x)))).None?) <==>
            IsMisread(c)
  {
    LeafIsTame(Escape(c));
    LeafFirstTokens(Escape(c));
    if IsMisread(c) {
      var x := MisreadMisses(c);
      LeafIsTame(Char(x));
      LeafFirstTokens(Char(x));
      MissedIsNoOverlap(c, x);
      LoopOfTwo(Escape(c), Char(x));
    } else {
      forall x | IsPlain(x) && EscapeMatches(c, x) ensures Refusal(Print(LoopOf(Escape(c), Char(x)))).Some? {
        ReadEscapeIsCompared(c, x);
      }
    }
  }

  lemma ReadEscapeIsCompared(c: char, x: char)
    requires IsEscapable(c) && !IsMisread(c) && IsPlain(x) && EscapeMatches(c, x)
    ensures Refusal(Print(LoopOf(Escape(c), Char(x)))).Some?
  {
    var a, b := Escape(c), Char(x);
    LeafIsTame(a);
    LeafIsTame(b);
    BranchIsWellFormed(a);
    BranchIsWellFormed(b);
    LoopOfTwo(a, b);
    assert Matches(a, [x]) && Matches(b, [x]);
    if !PairAmbiguous(Print(a), Print(b)) { ApartWordsDiffer(a, b, [x], [x]); }
  }

  // ---------- branches that start with an empty group ----------

  lemma EmptyGroupHasNoFirsts(t: string)
    requires |t| == 3 && t[0] == '(' && t[1] == ')' && IsPlain(t[2])
    ensures FirstSet(t) == {}
  {
    assert GroupClose(t, 1, 1, false) == Some(2);
    assert GroupClose(t, 0, 0, false) == Some(2);
    assert Slice(t, 1, 1) == "";
    assert BranchTexts("") == [""] && FirstSet("") == {};
    OneBranchUnion("", 3);
    assert AtomFirsts(t, 0) == Some((2, {}));
    FirstSetOfAtom(t, 2, {});
  }

  /** `(()a|a)+` is admitted for every literal, though both branches match it. */
  lemma EmptyGroupLoopIsAdmitted(c: char)
    requires IsPlain(c)
    ensures Refusal(Print(LoopOf(Cat(Group(true, Empty), Char(c)), Char(c)))) == None
    ensures Matches(Cat(Group(true, Empty), Char(c)), [c]) && Matches(Char(c), [c])
  {
    var g := Group(true, Empty);
    var a := Cat(g, Char(c));
    assert IsAtom(g) && IsAtom(Char(c)) && IsBranch(g) && IsBranch(Char(c));
    assert Print(a) == "()" + [c];
    EmptyGroupHasNoFirsts(Print(a));
    LoopOfTwo(a, Char(c));
    assert [c][..0] == "" && [c][0..] == [c] && Matches(g, [c][..0]) && Matches(Char(c), [c][0..]);
  }

  // ---------- negated classes with a wide range ----------

  /** `[^b-\uFFFF]` */
  function Below(): Re {
    Class(true, [Range('b', '\U{FFFF}')])
  }

  lemma BelowFacts()
    ensures IsLeaf(Below()) && IsTame(Below()) && |Print(Below())| == 6 && LeafTokens(Below()) == {}
  {
    var items := [Range('b', '\U{FFFF}')];
    assert items[1..] == [];
    assert IsItem(items[0]) && ItemsText(items) == ItemText(items[0]) + "";
    assert IsAtom(Below());
    assert Collect(items, true, NOTHING) == CollectItem(items[0], true, NOTHING);
    assert !IsBounded('b', '\U{FFFF}');
  }

  lemma BelowMatches()
    ensures Matches(Below(), "a")
  {
    assert LowerChar('a') == 'a';
    forall m: char | 'b' <= m <= '\U{FFFF}' ensures LowerChar(m) != 'a' { }
  }

  /** `([^b-\uFFFF]|a)+` is admitted though both branches match `a`. */
  lemma WideRangeLoopIsAdmitted()
    ensures Refusal(Print(LoopOf(Below(), Char('a')))) == None
    ensures Matches(Below(), "a") && Matches(Char('a'), "a")
  {
    BelowFacts();
    BelowMatches();
    LeafIsTame(Char('a'));
    LeafFirstTokens(Below());
    LoopOfTwo(Below(), Char('a'));
  }

  // ---------- branches with an alternation inside ----------

  /** `a(b|bc)` */
  function Forked(): Re {
    Cat(Char('a'), Group(true, Alt(Char('b'), Cat(Char('b'), Char('c')))))
  }

  lemma ForkedFacts()
    ensures IsTame(Forked()) && Print(Forked()) == "a(b|bc)"
  {
    var inner := Alt(Char('b'), Cat(Char('b'), Char('c')));
    assert IsAtom(Char('a')) && IsAtom(Char('b')) && IsAtom(Char('c'));
    assert IsBranch(Char('b')) && IsBranch(Char('c')) && IsBranch(inner.right);
    assert WellFormed(inner) && IsAtom(Group(true, inner)) && IsBranch(Group(true, inner));
    assert IsBranch(Char('a'));
  }

  lemma ConcatMatches(a: Re, b: Re, v: string, w: string)
    requires Matches(a, v) && Matches(b, w)
    ensures Matches(Cat(a, b), v + w)
  {
    assert (v + w)[..|v|] == v && (v + w)[|v|..] == w;
  }

  lemma ForkMatches()
    ensures Matches(Forked().rest, "b") && Matches(Forked().rest, "bc")
  {
    ConcatMatches(Char('b'), Char('c'), "b", "c");
    assert "b" + "c" == "bc";
  }

  lemma ForkedMatches()
    ensures Matches(Forked(), "ab") && Matches(Forked(), "abc")
  {
    ForkMatches();
    ConcatMatches(Char('a'), Forked().rest, "a", "b");
    ConcatMatches(Char('a'), Forked().rest, "a", "bc");
    assert "a" + "b" == "ab" && "a" + "bc" == "abc";
  }

  lemma ForkedFirsts(t: string)
    requires t == "a(b|bc)"
    ensures FirstSet(t) == {Lit('a')}
  {
    assert t[0] == 'a' && t[1] == '(';
    assert AtomFirsts(t, 0) == Some((1, {Lit('a')}));
    FirstSetOfAtom(t, 1, {Lit('a')});
  }

  /** `(a(b|bc)|c)+` is admitted though it reads `abc` in one turn or in two. */
  lemma ForkedLoopIsAdmitted()
    ensures Refusal(Print(LoopOf(Forked(), Char('c')))) == None
    ensures Matches(Forked(), "ab") && Matches(Char('c'), "c") && Matches(Forked(), "abc")
  {
    ForkedFacts();
    ForkedMatches();
    LeafIsTame(Char('c'));
    LeafFirstTokens(Char('c'));
    ForkedFirsts(Print(Forked()));
    SingletonsOverlap('a', 'c');
    LoopOfTwo(Forked(), Char('c'));
  }
}
