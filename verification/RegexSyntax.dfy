/** The core regular expressions of filter lists as trees: their text, their language, and the
    structural facts the scanner is meant to decide. */
module RegexSyntax {
  import opened Text
  import opened RegexScanner

  datatype Quantifier = Star | Plus | Opt

  /** One entry of a character class: a character, a range, or an escape. */
  datatype Item = One(c: char) | Range(lo: char, hi: char) | Escaped(c: char)

  datatype Re =
    | Empty
    | Char(c: char)
    | Dot
    | Escape(c: char)
    | Class(negated: bool, items: seq<Item>)
    | Group(capturing: bool, body: Re)
    | Rep(atom: Re, q: Quantifier, isLazy: bool)
    | Cat(first: Re, rest: Re)
    | Alt(left: Re, right: Re)

  /** A character that stands for itself in a pattern. */
  predicate IsPlain(c: char) {
    c != '\\' && c != '[' && c != '(' && c != ')' && c != '|' && c != '*' && c != '+' && c != '?' &&
    c != '{' && c != '^' && c != '$' && c != '.'
  }

  /** Letters whose escape stands for a control character. */
  const CONTROLS: set<char> := {'f', 'n', 'r', 't', 'v'}

  /** A character whose escape stands for one character of a set: a shorthand, a control, or itself. */
  predicate IsEscapable(c: char) {
    IsShorthand(LowerChar(c)) || c in CONTROLS || !('a' <= LowerChar(c) <= 'z' || IsDigit(c))
  }

  /** A character that can stand in a class, other than as a dash. */
  predicate IsMember(c: char) {
    c != ']' && c != '\\' && c != '{' && c != '-'
  }

  predicate IsItem(it: Item) {
    match it
    case One(c) => IsMember(c)
    case Range(lo, hi) => IsMember(lo) && IsMember(hi) && lo <= hi
    case Escaped(c) => IsEscapable(c)
  }

  /** Entries in which a dash that stands for itself comes first or last. */
  predicate AreItems(items: seq<Item>) {
    && items != []
    && (forall k :: 0 < k < |items| - 1 ==> IsItem(items[k]))
    && (items[0] == One('-') || IsItem(items[0]))
    && (items[|items| - 1] == One('-') || IsItem(items[|items| - 1]))
  }

  /** One character of the text: a literal, `.`, an escape or a class. */
  predicate IsLeaf(r: Re) {
    match r
    case Char(c) => IsPlain(c)
    case Dot => true
    case Escape(c) => IsEscapable(c)
    case Class(negated, items) => AreItems(items) && (negated || ItemsText(items)[0] != '^')
    case _ => false
  }

  predicate IsAtom(r: Re)
    decreases r, 0
  {
    IsLeaf(r) || (r.Group? && WellFormed(r.body))
  }

  /** One branch: no alternation outside a group. */
  predicate IsBranch(r: Re)
    decreases r, 1
  {
    match r
    case Empty => true
    case Rep(atom, _, _) => IsAtom(atom)
    case Cat(first, rest) => IsBranch(first) && IsBranch(rest)
    case Alt(_, _) => false
    case _ => IsAtom(r)
  }

  predicate WellFormed(r: Re)
    decreases r, 2
  {
    match r
    case Alt(left, right) => WellFormed(left) && WellFormed(right)
    case _ => IsBranch(r)
  }

  // ---------- text ----------

  function Opening(capturing: bool): string {
    if capturing then "(" else "(?:"
  }

  function QuantifierText(q: Quantifier, isLazy: bool): string {
    (match q case Star => "*" case Plus => "+" case Opt => "?") + (if isLazy then "?" else "")
  }

  function ItemText(it: Item): (t: string)
    ensures t != ""
  {
    match it
    case One(c) => [c]
    case Range(lo, hi) => [lo, '-', hi]
    case Escaped(c) => ['\\', c]
  }

  function ItemsText(items: seq<Item>): (t: string)
    ensures |t| >= |items|
  {
    if items == [] then "" else ItemText(items[0]) + ItemsText(items[1..])
  }

  function ClassOpening(negated: bool): string {
    if negated then "[^" else "["
  }

  function Print(r: Re): string {
    match r
    case Empty => ""
    case Char(c) => [c]
    case Dot => "."
    case Escape(c) => ['\\', c]
    case Class(negated, items) => ClassOpening(negated) + ItemsText(items) + "]"
    case Group(capturing, body) => Opening(capturing) + Print(body) + ")"
    case Rep(atom, q, isLazy) => Print(atom) + QuantifierText(q, isLazy)
    case Cat(first, rest) => Print(first) + Print(rest)
    case Alt(left, right) => Print(left) + "|" + Print(right)
  }

  // ---------- language, with the case folding of the `i` flag ----------

  /** The white space `\s` stands for. */
  predicate IsRegexSpace(c: char) {
    IsSpace(c) || c == '\U{00A0}' || c == '\U{1680}' || '\U{2000}' <= c <= '\U{200A}' || c == '\U{2028}' ||
    c == '\U{2029}' || c == '\U{202F}' || c == '\U{205F}' || c == '\U{3000}' || c == '\U{FEFF}'
  }

  /** The characters an escape stands for. */
  predicate EscapeMatches(c: char, x: char) {
    match c
    case 'd' => IsDigit(x)
    case 'D' => !IsDigit(x)
    case 'w' => IsWordChar(x)
    case 'W' => !IsWordChar(x)
    case 's' => IsRegexSpace(x)
    case 'S' => !IsRegexSpace(x)
    case 'f' => x == '\U{000C}'
    case 'n' => x == '\n'
    case 'r' => x == '\r'
    case 't' => x == '\t'
    case 'v' => x == '\U{000B}'
    case _ => x == c
  }

  ghost predicate ItemMatches(it: Item, x: char) {
    match it
    case One(c) => LowerChar(c) == LowerChar(x)
    case Range(lo, hi) => exists m: char :: lo <= m <= hi && LowerChar(m) == LowerChar(x)
    case Escaped(c) => EscapeMatches(c, x)
  }

  ghost predicate SomeItemMatches(items: seq<Item>, x: char) {
    exists it :: it in items && ItemMatches(it, x)
  }

  ghost predicate Matches(r: Re, w: string)
    decreases r, 0
  {
    match r
    case Empty => w == ""
    case Char(c) => |w| == 1 && LowerChar(w[0]) == LowerChar(c)
    case Dot => |w| == 1 && !IsLineEnd(w[0])
    case Escape(c) => |w| == 1 && EscapeMatches(c, w[0])
    case Class(negated, items) => |w| == 1 && SomeItemMatches(items, w[0]) != negated
    case Group(_, body) => Matches(body, w)
    case Rep(atom, Opt, _) => w == "" || Matches(atom, w)
    case Rep(atom, Star, _) => exists n: nat :: MatchesTimes(atom, n, w)
    case Rep(atom, Plus, _) => exists n: nat :: n > 0 && MatchesTimes(atom, n, w)
    case Cat(first, rest) => exists k :: 0 <= k <= |w| && Matches(first, w[..k]) && Matches(rest, w[k..])
    case Alt(left, right) => Matches(left, w) || Matches(right, w)
  }

  ghost predicate MatchesTimes(r: Re, n: nat, w: string)
    decreases r, n + 1
  {
    if n == 0 then w == ""
    else exists k :: 0 <= k <= |w| && Matches(r, w[..k]) && MatchesTimes(r, n - 1, w[k..])
  }

  // ---------- structure ----------

  predicate Repeats(q: Quantifier) {
    q != Opt
  }

  predicate Nullable(r: Re) {
    match r
    case Empty => true
    case Group(_, body) => Nullable(body)
    case Rep(atom, q, _) => q != Plus || Nullable(atom)
    case Cat(first, rest) => Nullable(first) && Nullable(rest)
    case Alt(left, right) => Nullable(left) || Nullable(right)
    case _ => false
  }

  predicate HasQuantifier(r: Re) {
    match r
    case Group(_, body) => HasQuantifier(body)
    case Rep(_, _, _) => true
    case Cat(first, rest) => HasQuantifier(first) || HasQuantifier(rest)
    case Alt(left, right) => HasQuantifier(left) || HasQuantifier(right)
    case _ => false
  }

  function Max(a: nat, b: nat): nat {
    if a > b then a else b
  }

  /** How deeply `*` and `+` are nested. */
  function StarHeight(r: Re): nat {
    match r
    case Group(_, body) => StarHeight(body)
    case Rep(atom, q, _) => StarHeight(atom) + if Repeats(q) then 1 else 0
    case Cat(first, rest) => Max(StarHeight(first), StarHeight(rest))
    case Alt(left, right) => Max(StarHeight(left), StarHeight(right))
    case _ => 0
  }

  /** The bodies of the groups under `*` or `+`, in the order their `)` appears in the text. */
  function RepeatedBodies(r: Re): seq<Re> {
    match r
    case Group(_, body) => RepeatedBodies(body)
    case Rep(atom, q, _) =>
      RepeatedBodies(atom) + (if atom.Group? && Repeats(q) then [atom.body] else [])
    case Cat(first, rest) => RepeatedBodies(first) + RepeatedBodies(rest)
    case Alt(left, right) => RepeatedBodies(left) + RepeatedBodies(right)
    case _ => []
  }

  /** The branches of an alternation, left to right. */
  function Branches(r: Re): (bs: seq<Re>)
    ensures |bs| >= 1
  {
    match r
    case Alt(left, right) => Branches(left) + Branches(right)
    case _ => [r]
  }

  function Texts(rs: seq<Re>): (ts: seq<string>)
    ensures |ts| == |rs|
    ensures forall k :: 0 <= k < |rs| ==> ts[k] == Print(rs[k])
  {
    if rs == [] then [] else [Print(rs[0])] + Texts(rs[1..])
  }

  // ---------- facts about the text ----------

  predicate QuantifierChar(c: char) {
    c == '*' || c == '+' || c == '?' || c == '{'
  }

  lemma AtomIsBranch(r: Re)
    requires IsAtom(r)
    ensures IsBranch(r) && WellFormed(r) && Print(r) != ""
  {
    match r
    case Group(capturing, body) => assert Print(r) == Opening(capturing) + Print(body) + ")";
    case _ =>
  }

  /** The parts of a well-formed tree are well-formed. */
  lemma Parts(r: Re)
    requires WellFormed(r)
    ensures match r
      case Group(_, body) => IsAtom(r) && WellFormed(body)
      case Rep(atom, _, _) => IsAtom(atom) && WellFormed(atom)
      case Cat(first, rest) =>
        IsBranch(first) && IsBranch(rest) && WellFormed(first) && WellFormed(rest) && !first.Alt? && !rest.Alt?
      case Alt(left, right) => WellFormed(left) && WellFormed(right)
      case Empty => true
      case _ => IsLeaf(r)
  {
    if !r.Alt? {
      assert IsBranch(r);
      if r.Group? {
        assert IsAtom(r);
      } else if r.Rep? {
        AtomIsBranch(r.atom);
      } else if r.Cat? {
        assert IsBranch(r.first) && IsBranch(r.rest);
        BranchIsWellFormed(r.first);
        BranchIsWellFormed(r.rest);
      } else if !r.Empty? {
        assert IsAtom(r);
      }
    }
  }

  lemma BranchIsWellFormed(r: Re)
    requires IsBranch(r)
    ensures WellFormed(r)
  {
  }

  lemma {:induction false} PrintStartsPlainly(r: Re)
    requires WellFormed(r) && Print(r) != ""
    ensures !QuantifierChar(Print(r)[0])
  {
    match r
    case Group(_, _) =>
    case Rep(atom, _, _) =>
      AtomIsBranch(atom);
      PrintStartsPlainly(atom);
    case Cat(first, rest) => if Print(first) == "" { PrintStartsPlainly(rest); } else { PrintStartsPlainly(first); }
    case Alt(left, _) => if Print(left) != "" { PrintStartsPlainly(left); }
    case _ =>
  }

  /** After a well-formed tree, what follows is a quantifier only if it was one already. */
  lemma NoQuantifierBefore(p: string, i: nat, r: Re)
    requires WellFormed(r) && At(p, i, Print(r))
    requires !IsQuantifierAt(p, i + |Print(r)|)
    ensures !IsQuantifierAt(p, i)
  {
    if Print(r) != "" {
      PrintStartsPlainly(r);
      AtIndex(p, i, Print(r), 0);
    }
  }

  lemma {:induction false} NullableIsEmptyWord(r: Re)
    ensures Nullable(r) <==> Matches(r, "")
  {
    match r
    case Group(_, body) => NullableIsEmptyWord(body);
    case Rep(atom, q, _) =>
      NullableIsEmptyWord(atom);
      if q == Star { assert MatchesTimes(atom, 0, ""); }
      if q == Plus {
        if Nullable(atom) { assert MatchesTimes(atom, 0, ""[0..]); assert MatchesTimes(atom, 1, ""); }
        if n: nat :| n > 0 && MatchesTimes(atom, n, "") {
          assert ""[..0] == "";
        }
      }
    case Cat(first, rest) =>
      NullableIsEmptyWord(first);
      NullableIsEmptyWord(rest);
      assert ""[..0] == "" && ""[0..] == "";
    case Alt(left, right) => NullableIsEmptyWord(left); NullableIsEmptyWord(right);
    case _ =>
  }

  lemma {:induction false} BranchesAreBranches(r: Re)
    requires WellFormed(r)
    ensures forall k :: 0 <= k < |Branches(r)| ==> IsBranch(Branches(r)[k])
  {
    match r
    case Alt(left, right) => BranchesAreBranches(left); BranchesAreBranches(right);
    case _ =>
  }
}
