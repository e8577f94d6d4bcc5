/** The structural precheck for downloaded regular expressions: each index loop of the scanner as
    a method, proved equal to a recursive reading of the same text. */
module RegexScanner {
  import opened Text

  const MAX_REGEX_PATTERN_LENGTH := 2000

  datatype Reason = TooLong | NullableGroup | NestedRepetition | AmbiguousAlternation

  // ---------- quantifiers ----------

  function DigitsEnd(p: string, j: nat): (r: nat)
    ensures r >= j
    decreases |p| - j
  {
    if j < |p| && IsDigit(p[j]) then DigitsEnd(p, j + 1) else j
  }

  /** The index of the `}` of an interval `{m}`, `{m,}` or `{m,n}` opening at `i`, or -1. */
  function IntervalEnd(p: string, i: nat): (r: int)
    ensures r == -1 || i + 1 < r < |p|
  {
    var j := DigitsEnd(p, i + 1);
    var k := if Is(p, j, ',') then DigitsEnd(p, j + 1) else j;
    if k > i + 1 && Is(p, k, '}') then k else -1
  }

  method ScanInterval(p: string, i: nat) returns (r: int)
    ensures r == IntervalEnd(p, i)
  {
    var j := i + 1;
    while j < |p| && IsDigit(p[j])
      invariant i + 1 <= j
      invariant DigitsEnd(p, j) == DigitsEnd(p, i + 1)
    {
      j := j + 1;
    }
    if Is(p, j, ',') {
      ghost var comma := j;
      j := j + 1;
      while j < |p| && IsDigit(p[j])
        invariant comma < j
        invariant DigitsEnd(p, j) == DigitsEnd(p, comma + 1)
      {
        j := j + 1;
      }
    }
    r := if j > i + 1 && Is(p, j, '}') then j else -1;
  }

  function DigitsValue(s: string): int {
    if s == "" || !IsDigit(s[|s| - 1]) then 0
    else 10 * DigitsValue(s[..|s| - 1]) + (s[|s| - 1] as int - '0' as int)
  }

  predicate IsOptionalQuantifier(p: string, i: nat) {
    Is(p, i, '*') || Is(p, i, '?') || (Is(p, i, '{') && IntervalEnd(p, i) > i && Is(p, i + 1, '0'))
  }

  /** The quantifier at `i` can apply its atom more than once. */
  predicate IsRepeatingQuantifier(p: string, i: nat) {
    Is(p, i, '*') || Is(p, i, '+') ||
    (Is(p, i, '{') && IntervalEnd(p, i) > i &&
     var spec := p[i + 1..IntervalEnd(p, i)];
     var comma := IndexOf(spec, ',', 0);
     if comma < 0 then DigitsValue(spec) > 1
     else comma == |spec| - 1 || DigitsValue(spec[comma + 1..]) > 1)
  }

  predicate IsQuantifierAt(p: string, i: nat) {
    Is(p, i, '*') || Is(p, i, '+') || Is(p, i, '?') || (Is(p, i, '{') && IntervalEnd(p, i) > i)
  }

  function SkipQuantifier(p: string, i: nat): (r: nat)
    ensures IsQuantifierAt(p, i) ==> i < r <= |p|
    ensures !IsQuantifierAt(p, i) ==> r == i
  {
    if Is(p, i, '*') || Is(p, i, '+') || Is(p, i, '?') then i + 1
    else if Is(p, i, '{') && IntervalEnd(p, i) > i then IntervalEnd(p, i) + 1
    else i
  }

  // ---------- groups and atoms ----------

  /** The index just past a group's `(` or `(?…` opening, or -1 when the prefix is malformed. */
  function SkipGroupPrefix(p: string, open: nat): (r: int)
    ensures r == -1 || r > open
  {
    if !Is(p, open + 1, '?') then open + 1
    else if Is(p, open + 2, ':') || Is(p, open + 2, '=') || Is(p, open + 2, '!') then open + 3
    else if Is(p, open + 2, '<') && (Is(p, open + 3, '=') || Is(p, open + 3, '!')) then open + 4
    else if Is(p, open + 2, '<') || Is(p, open + 2, 'P') then
      var close := IndexOf(p, '>', if Is(p, open + 2, 'P') then open + 4 else open + 2);
      if close > 0 then close + 1 else -1
    else -1
  }

  function ClassClose(p: string, j: nat): (r: Option<nat>)
    ensures r.Some? ==> j < r.value <= |p|
    decreases |p| - j
  {
    if j >= |p| then None
    else if p[j] == ']' then Some(j + 1)
    else ClassClose(p, j + if p[j] == '\\' then 2 else 1)
  }

  /** The end of the character class opening at `i`: `^` and a first `]` belong to the class. */
  function ClassEnd(p: string, i: nat): (r: Option<nat>)
    ensures r.Some? ==> i + 1 < r.value <= |p|
  {
    var j := if Is(p, i + 1, '^') then i + 2 else i + 1;
    ClassClose(p, if Is(p, j, ']') then j + 1 else j)
  }

  method ScanClass(p: string, i: nat) returns (r: Option<nat>)
    ensures r == ClassEnd(p, i)
  {
    var j := i + 1;
    if Is(p, j, '^') { j := j + 1; }
    if Is(p, j, ']') { j := j + 1; }
    while j < |p| && p[j] != ']'
      invariant ClassClose(p, j) == ClassEnd(p, i)
      decreases |p| - j
    {
      j := j + if p[j] == '\\' then 2 else 1;
    }
    r := if j < |p| then Some(j + 1) else None;
  }

  function GroupClose(p: string, j: nat, depth: int, inClass: bool): (r: Option<nat>)
    ensures r.Some? ==> j < r.value <= |p|
    decreases |p| - j
  {
    if j >= |p| then None
    else if p[j] == '\\' then GroupClose(p, j + 2, depth, inClass)
    else if inClass then GroupClose(p, j + 1, depth, p[j] != ']')
    else if p[j] == '[' then GroupClose(p, j + 1, depth, true)
    else if p[j] == '(' then GroupClose(p, j + 1, depth + 1, false)
    else if p[j] == ')' then
      if depth == 1 then Some(j + 1) else GroupClose(p, j + 1, depth - 1, false)
    else GroupClose(p, j + 1, depth, false)
  }

  method ScanGroup(p: string, i: nat) returns (r: Option<nat>)
    ensures r == GroupClose(p, i, 0, false)
  {
    var j, depth, inClass := i, 0, false;
    while j < |p|
      invariant GroupClose(p, j, depth, inClass) == GroupClose(p, i, 0, false)
      decreases |p| - j
    {
      var c := p[j];
      if c == '\\' {
        j := j + 1;
      } else if inClass {
        if c == ']' { inClass := false; }
      } else if c == '[' {
        inClass := true;
      } else if c == '(' {
        depth := depth + 1;
      } else if c == ')' {
        depth := depth - 1;
        if depth == 0 { return Some(j + 1); }
      }
      j := j + 1;
    }
    r := None;
  }

  /** The index past the atom that starts at `i`, or None where the text cannot be read. */
  function AtomEnd(p: string, i: nat, openParenIsGroup: bool): (r: Option<nat>)
    requires i < |p|
    ensures r.Some? ==> i < r.value <= |p|
  {
    if p[i] == '\\' then (if i + 2 <= |p| then Some(i + 2) else None)
    else if p[i] == '[' then ClassEnd(p, i)
    else if p[i] == '(' && openParenIsGroup then GroupClose(p, i, 0, false)
    else Some(i + 1)
  }

  // ---------- the branches of an alternation ----------

  function BranchesFrom(body: string, i: nat, depth: int, inClass: bool, start: nat): (r: seq<string>)
    requires start <= |body|
    ensures |r| >= 1
    ensures forall k :: 0 <= k < |r| ==> |r[k]| <= |body|
    decreases |body| - i
  {
    if i >= |body| then [body[start..]]
    else if body[i] == '\\' then BranchesFrom(body, i + 2, depth, inClass, start)
    else if inClass then BranchesFrom(body, i + 1, depth, body[i] != ']', start)
    else if body[i] == '[' then BranchesFrom(body, i + 1, depth, true, start)
    else if body[i] == '(' then BranchesFrom(body, i + 1, depth + 1, false, start)
    else if body[i] == ')' then BranchesFrom(body, i + 1, depth - 1, false, start)
    else if body[i] == '|' && depth == 0 then
      [Slice(body, start, i)] + BranchesFrom(body, i + 1, depth, false, i + 1)
    else BranchesFrom(body, i + 1, depth, false, start)
  }

  function BranchTexts(body: string): (r: seq<string>)
    ensures |r| >= 1
    ensures forall k :: 0 <= k < |r| ==> |r[k]| <= |body|
  {
    BranchesFrom(body, 0, 0, false, 0)
  }

  method TopLevelBranches(body: string) returns (branches: seq<string>)
    ensures branches == BranchTexts(body)
  {
    branches := [];
    var depth, inClass, start, i := 0, false, 0, 0;
    while i < |body|
      invariant start <= |body|
      invariant branches + BranchesFrom(body, i, depth, inClass, start) == BranchTexts(body)
      decreases |body| - i
    {
      var ch := body[i];
      if ch == '\\' {
        i := i + 1;
      } else if inClass {
        if ch == ']' { inClass := false; }
      } else if ch == '[' {
        inClass := true;
      } else if ch == '(' {
        depth := depth + 1;
      } else if ch == ')' {
        depth := depth - 1;
      } else if ch == '|' && depth == 0 {
        branches := branches + [Slice(body, start, i)];
        start := i + 1;
      }
      i := i + 1;
    }
    branches := branches + [body[start..]];
  }

  function BodyFrom(p: string, close: nat, i: nat, inClass: bool, opens: seq<nat>): Option<string>
    decreases |p| - i
  {
    if i > close || i >= |p| then None
    else if p[i] == '\\' then BodyFrom(p, close, i + 2, inClass, opens)
    else if inClass then BodyFrom(p, close, i + 1, p[i] != ']', opens)
    else if p[i] == '[' then BodyFrom(p, close, i + 1, true, opens)
    else if p[i] == '(' then BodyFrom(p, close, i + 1, false, opens + [i])
    else if p[i] == ')' then
      if i == close then
        if opens == [] then None
        else
          var from := SkipGroupPrefix(p, opens[|opens| - 1]);
          Some(if from < 0 then "" else Slice(p, from, i))
      else BodyFrom(p, close, i + 1, false, if opens == [] then [] else opens[..|opens| - 1])
    else BodyFrom(p, close, i + 1, false, opens)
  }

  /** The text inside the group whose `)` sits at `close`. */
  function GroupBody(p: string, close: nat): Option<string> {
    BodyFrom(p, close, 0, false, [])
  }

  method GroupBodyAt(p: string, close: nat) returns (r: Option<string>)
    requires close < |p|
    ensures r == GroupBody(p, close)
  {
    var inClass := false;
    var opens: seq<nat> := [];
    var i := 0;
    while i <= close
      invariant BodyFrom(p, close, i, inClass, opens) == GroupBody(p, close)
      decreases close + 1 - i
    {
      var ch := p[i];
      if ch == '\\' {
        i := i + 1;
      } else if inClass {
        if ch == ']' { inClass := false; }
      } else if ch == '[' {
        inClass := true;
      } else if ch == '(' {
        opens := opens + [i];
      } else if ch == ')' {
        var open: Option<nat> := if opens == [] then None else Some(opens[|opens| - 1]);
        opens := if opens == [] then [] else opens[..|opens| - 1];
        if i == close {
          if open.None? { return None; }
          var from := SkipGroupPrefix(p, open.value);
          return Some(if from < 0 then "" else Slice(p, from, i));
        }
      }
      i := i + 1;
    }
    r := None;
  }

  // ---------- first sets ----------

  /** What a branch can begin on: `Lit('.')` doubles as the wildcard, `Esc` is an escape kept by its
      letter, `Not` is every character except the listed ones. */
  datatype Token = Lit(c: char) | Esc(c: char) | Not(excluded: set<char>)

  const DIGITS := {'0', '1', '2', '3', '4', '5', '6', '7', '8', '9'}
  const LETTERS := {'a', 'b', 'c', 'd', 'e', 'f', 'g', 'h', 'i', 'j', 'k', 'l', 'm',
                    'n', 'o', 'p', 'q', 'r', 's', 't', 'u', 'v', 'w', 'x', 'y', 'z'}

  predicate IsShorthand(c: char) {
    c == 'd' || c == 'w' || c == 's'
  }

  function ShorthandChars(c: char): set<char> {
    if c == 'd' then DIGITS
    else if c == 'w' then LETTERS + DIGITS + {'_'}
    else {' ', '\t', '\n', '\r', '\U{000C}', '\U{000B}'}
  }

  /** The class scan's two collections, and whether a negated class excludes an unbounded range. */
  datatype ClassScan = ClassScan(firsts: set<Token>, excluded: set<char>, unbounded: bool)

  function CharRange(lo: int, hi: int): set<char>
    requires 0 <= lo && hi < 0xD800
    decreases hi - lo
  {
    if lo > hi then {} else {LowerChar(lo as char)} + CharRange(lo + 1, hi)
  }

  function ClassEscape(esc: Option<char>, negated: bool, acc: ClassScan): ClassScan {
    if esc.None? then
      if negated then acc else acc.(firsts := acc.firsts + {Lit('\\')})
    else
      var lower := LowerChar(esc.value);
      if !IsShorthand(lower) then
        if negated then acc.(excluded := acc.excluded + {lower})
        else acc.(firsts := acc.firsts + {Esc(lower)})
      else if esc.value == lower then
        if negated then acc.(excluded := acc.excluded + ShorthandChars(lower))
        else acc.(firsts := acc.firsts + {Esc(lower)})
      else if negated then
        acc.(firsts := acc.firsts + (set c | c in ShorthandChars(lower) :: Lit(c)))
      else acc.(firsts := acc.firsts + {Not(ShorthandChars(lower))})
  }

  /** A bounded range is expanded; a wider one stands for every character. Code points from the
      surrogate range up are treated as a wide range. */
  function ClassRange(lo: char, hi: char, negated: bool, acc: ClassScan): ClassScan {
    if (hi as int) - (lo as int) <= 256 && (hi as int) < 0xD800 then
      var range := CharRange(lo as int, hi as int);
      if negated then acc.(excluded := acc.excluded + range)
      else acc.(firsts := acc.firsts + (set c | c in range :: Lit(c)))
    else if negated then acc.(unbounded := true)
    else acc.(firsts := acc.firsts + {Lit('.')})
  }

  function ClassFrom(b: string, j: nat, lead: nat, end: nat, negated: bool, acc: ClassScan): ClassScan
    requires 0 < lead <= j && end <= |b|
    decreases end - j
  {
    if j >= end - 1 then acc
    else if b[j] == '\\' then
      ClassFrom(b, j + 2, lead, end, negated, ClassEscape(if j + 1 < |b| then Some(b[j + 1]) else None, negated, acc))
    else if b[j] == '-' && j > lead && j < end - 2 && b[j + 1] != '\\' then
      ClassFrom(b, j + 1, lead, end, negated, ClassRange(b[j - 1], b[j + 1], negated, acc))
    else if negated then
      ClassFrom(b, j + 1, lead, end, negated, acc.(excluded := acc.excluded + {LowerChar(b[j])}))
    else
      ClassFrom(b, j + 1, lead, end, negated, acc.(firsts := acc.firsts + {Lit(LowerChar(b[j]))}))
  }

  function ClassTokens(b: string, i: nat, end: nat): set<Token>
    requires i < end <= |b|
  {
    var negated := Is(b, i + 1, '^');
    var lead := i + 1 + if negated then 1 else 0;
    var scan := ClassFrom(b, lead, lead, end, negated, ClassScan({}, {}, false));
    if negated && !scan.unbounded then
      scan.firsts + {if scan.excluded == {} then Lit('.') else Not(scan.excluded)}
    else scan.firsts
  }

  predicate IsLookaround(b: string, i: nat) {
    Is(b, i + 1, '?') &&
    (Is(b, i + 2, '=') || Is(b, i + 2, '!') ||
     (Is(b, i + 2, '<') && (Is(b, i + 3, '=') || Is(b, i + 3, '!'))))
  }

  function EscapeToken(b: string, i: nat): Token {
    if i + 1 >= |b| then Lit('\\')
    else
      var lower := LowerChar(b[i + 1]);
      if b[i + 1] != lower && IsShorthand(lower) then Not(ShorthandChars(lower)) else Esc(lower)
  }

  function UnionOfFirsts(branches: seq<string>, bound: nat): set<Token>
    requires forall k :: 0 <= k < |branches| ==> |branches[k]| < bound
    decreases bound, 0, |branches|
  {
    if branches == [] then {}
    else FirstsFrom(branches[0], 0, {}) + UnionOfFirsts(branches[1..], bound)
  }

  /** One step of the walk: the index past the atom at `i` and the tokens it adds, or None when the
      walk stops there. */
  function AtomFirsts(b: string, i: nat): (r: Option<(nat, set<Token>)>)
    requires i < |b|
    ensures r.Some? ==> r.value.0 > i
    decreases |b|, 1, 0
  {
    if b[i] == '\\' then Some((i + 2, {EscapeToken(b, i)}))
    else if b[i] == '[' then
      match AtomEnd(b, i, false)
      case None => None
      case Some(end) => Some((end, ClassTokens(b, i, end)))
    else if b[i] == '(' then
      match AtomEnd(b, i, true)
      case None => None
      case Some(end) =>
        var from := SkipGroupPrefix(b, i);
        if from < 0 then None
        else if IsLookaround(b, i) then Some((end, {}))
        else
          var inner := Slice(b, from, end - 1);
          Some((end, UnionOfFirsts(BranchTexts(inner), |b|)))
    else Some((i + 1, {Lit(LowerChar(b[i]))}))
  }

  function FirstsFrom(b: string, i: nat, firsts: set<Token>): set<Token>
    decreases |b|, 2, |b| - i
  {
    if i >= |b| then firsts
    else if b[i] == '^' || b[i] == '$' || b[i] == '|' then FirstsFrom(b, i + 1, firsts)
    else
      match AtomFirsts(b, i)
      case None => firsts
      case Some((end, tokens)) =>
        if end < |b| && IsQuantifierAt(b, end) && IsOptionalQuantifier(b, end) then
          FirstsFrom(b, SkipQuantifier(b, end), firsts + tokens)
        else firsts + tokens
  }

  /** The characters one branch can begin matching on. */
  function FirstSet(b: string): set<Token> {
    FirstsFrom(b, 0, {})
  }

  method FirstSetOf(b: string) returns (firsts: set<Token>)
    ensures firsts == FirstSet(b)
    decreases |b|, 2
  {
    firsts := {};
    var i := 0;
    while i < |b|
      invariant FirstsFrom(b, i, firsts) == FirstSet(b)
      decreases |b| - i
    {
      var ch := b[i];
      if ch == '^' || ch == '$' || ch == '|' {
        i := i + 1;
        continue;
      }
      var atom := AtomFirstsAt(b, i);
      if atom.None? { return; }
      i, firsts := atom.value.0, firsts + atom.value.1;
      if i < |b| && IsQuantifierAt(b, i) && IsOptionalQuantifier(b, i) {
        i := SkipQuantifier(b, i);
        continue;
      }
      return;
    }
  }

  /** The atom at `i`: its end, and the tokens it can begin with. */
  method AtomFirstsAt(b: string, i: nat) returns (r: Option<(nat, set<Token>)>)
    requires i < |b|
    ensures r == AtomFirsts(b, i)
    decreases |b|, 2, 0
  {
    var ch := b[i];
    if ch == '\\' { return Some((i + 2, {EscapeToken(b, i)})); }
    if ch == '[' {
      var end := ScanClass(b, i);
      return if end.None? then None else Some((end.value, ClassTokens(b, i, end.value)));
    }
    if ch == '(' {
      var end := ScanGroup(b, i);
      if end.None? { return None; }
      var from := SkipGroupPrefix(b, i);
      if from < 0 { return None; }
      if IsLookaround(b, i) { return Some((end.value, {})); }
      var tokens := GroupFirsts(b, from, end.value);
      return Some((end.value, tokens));
    }
    return Some((i + 1, {Lit(LowerChar(ch))}));
  }

  method GroupFirsts(b: string, from: nat, end: nat) returns (tokens: set<Token>)
    requires 0 < end <= |b|
    ensures tokens == UnionOfFirsts(BranchTexts(Slice(b, from, end - 1)), |b|)
    decreases |b|, 1
  {
    var inner := Slice(b, from, end - 1);
    var branches := TopLevelBranches(inner);
    tokens := FirstSetsUnion(branches, |b|);
  }

  method FirstSetsUnion(branches: seq<string>, ghost bound: nat) returns (tokens: set<Token>)
    requires forall k :: 0 <= k < |branches| ==> |branches[k]| < bound
    ensures tokens == UnionOfFirsts(branches, bound)
    decreases bound, 0
  {
    tokens := {};
    var k := 0;
    while k < |branches|
      invariant k <= |branches|
      invariant tokens + UnionOfFirsts(branches[k..], bound) == UnionOfFirsts(branches, bound)
    {
      var one := FirstSetOf(branches[k]);
      assert branches[k..][0] == branches[k] && branches[k..][1..] == branches[k + 1..];
      tokens := tokens + one;
      k := k + 1;
    }
  }

  function Expand(tokens: set<Token>): set<char> {
    (set t, c | t in tokens && t.Esc? && IsShorthand(t.c) && c in ShorthandChars(t.c) :: c) +
    (set t | t in tokens && t.Esc? && !IsShorthand(t.c) :: t.c) +
    (set t | t in tokens && t.Lit? :: t.c)
  }

  predicate FirstSetsOverlap(a: set<Token>, b: set<Token>) {
    a != {} && b != {} &&
    (Lit('.') in a || Lit('.') in b ||
     ((exists t :: t in a && t.Not?) && (exists t :: t in b && t.Not?)) ||
     (exists t, c :: t in a && t.Not? && c in Expand(b) && c !in t.excluded) ||
     (exists t, c :: t in b && t.Not? && c in Expand(a) && c !in t.excluded) ||
     Expand(a) * Expand(b) != {})
  }

  // ---------- literal prefixes ----------

  predicate EndsPrefix(c: char) {
    c == '\\' || c == '[' || c == '(' || c == '.' || c == '*' || c == '+' || c == '?' || c == '{'
  }

  function PrefixFrom(b: string, i: nat): string
    decreases |b| - i
  {
    if i >= |b| || EndsPrefix(b[i]) then ""
    else if b[i] == '^' || b[i] == '$' then PrefixFrom(b, i + 1)
    else [LowerChar(b[i])] + PrefixFrom(b, i + 1)
  }

  /** The leading literal characters of a branch, case-folded. */
  function LiteralPrefix(b: string): string {
    PrefixFrom(b, 0)
  }

  method LiteralPrefixOf(b: string) returns (prefix: string)
    ensures prefix == LiteralPrefix(b)
  {
    prefix := "";
    var i := 0;
    while i < |b|
      invariant prefix + PrefixFrom(b, i) == LiteralPrefix(b)
      decreases |b| - i
    {
      var ch := b[i];
      if ch == '^' || ch == '$' {
        i := i + 1;
        continue;
      }
      if EndsPrefix(ch) { return; }
      prefix := prefix + [LowerChar(ch)];
      i := i + 1;
    }
  }

  predicate Nests(a: string, b: string) {
    a <= b || b <= a
  }

  predicate PairAmbiguous(a: string, b: string) {
    FirstSetsOverlap(FirstSet(a), FirstSet(b)) && Nests(LiteralPrefix(a), LiteralPrefix(b))
  }

  predicate AmbiguousBranches(branches: seq<string>) {
    exists a, b :: 0 <= a < b < |branches| && PairAmbiguous(branches[a], branches[b])
  }

  // ---------- the one-pass scan ----------

  datatype Frame = Frame(hasRepeat: bool, hasAlternation: bool, anyBranchNullable: bool, branchNullable: bool)

  datatype Scan = Scan(stack: seq<Frame>, inClass: bool, ends: seq<nat>)

  datatype Step = Continue(next: nat, scan: Scan) | Refuse(reason: Reason) | GiveUp

  datatype Outcome = Finished(ends: seq<nat>) | Refused(reason: Reason) | Admitted

  function Top(stack: seq<Frame>): Frame
    requires stack != []
  {
    stack[|stack| - 1]
  }

  function SetTop(stack: seq<Frame>, f: Frame): (r: seq<Frame>)
    requires stack != []
  {
    stack[..|stack| - 1] + [f]
  }

  /** An atom was read and `next` is the index after it: it is nullable only if the quantifier there
      makes it optional. */
  function AtomRead(p: string, next: nat, stack: seq<Frame>): seq<Frame> {
    if stack == [] then stack
    else if IsQuantifierAt(p, next) then
      var f := Top(stack).(hasRepeat := true);
      SetTop(stack, if IsOptionalQuantifier(p, next) then f else f.(branchNullable := false))
    else SetTop(stack, Top(stack).(branchNullable := false))
  }

  function CloseGroup(p: string, i: nat, s: Scan): Step {
    if s.stack == [] then GiveUp
    else
      var f := Top(s.stack);
      var frame := f.(anyBranchNullable := f.anyBranchNullable || f.branchNullable);
      var rest := s.stack[..|s.stack| - 1];
      var quantified := IsQuantifierAt(p, i + 1);
      var repeating := quantified && IsRepeatingQuantifier(p, i + 1);
      if repeating && frame.anyBranchNullable then Refuse(NullableGroup)
      else if repeating && frame.hasRepeat then Refuse(NestedRepetition)
      else
        var ends := if repeating && frame.hasAlternation then s.ends + [i] else s.ends;
        if rest == [] then Continue(i + 1, s.(stack := rest, ends := ends))
        else
          var parent := Top(rest);
          var marked := parent.(hasRepeat := parent.hasRepeat || frame.hasRepeat || repeating);
          var optional := quantified && IsOptionalQuantifier(p, i + 1);
          var settled := if !optional && !frame.anyBranchNullable then marked.(branchNullable := false) else marked;
          Continue(i + 1, s.(stack := SetTop(rest, settled), ends := ends))
  }

  function StepAt(p: string, i: nat, s: Scan): (r: Step)
    requires i < |p|
    ensures r.Continue? ==> r.next > i
  {
    var ch := p[i];
    if ch == '\\' then Continue(i + 2, s.(stack := AtomRead(p, i + 2, s.stack)))
    else if s.inClass then Continue(i + 1, s.(inClass := ch != ']'))
    else if ch == '[' then
      var next := match ClassEnd(p, i) case None => i + 1 case Some(end) => end;
      Continue(i + 1, s.(inClass := true, stack := AtomRead(p, next, s.stack)))
    else if ch == '(' then
      var from := SkipGroupPrefix(p, i);
      if from < 0 then GiveUp
      else Continue(from, s.(stack := s.stack + [Frame(false, false, false, true)]))
    else if ch == '|' then
      if s.stack == [] then Continue(i + 1, s)
      else
        var f := Top(s.stack);
        Continue(i + 1, s.(stack := SetTop(s.stack, f.(hasAlternation := true,
                                                        anyBranchNullable := f.anyBranchNullable || f.branchNullable,
                                                        branchNullable := true))))
    else if ch == ')' then CloseGroup(p, i, s)
    else if IsQuantifierAt(p, i) then
      Continue(SkipQuantifier(p, i),
               if s.stack == [] then s else s.(stack := SetTop(s.stack, Top(s.stack).(hasRepeat := true))))
    else if ch == '^' || ch == '$' then Continue(i + 1, s)
    else Continue(i + 1, s.(stack := AtomRead(p, i + 1, s.stack)))
  }

  function ScanFrom(p: string, i: nat, s: Scan): Outcome
    decreases |p| - i
  {
    if i >= |p| then Finished(s.ends)
    else
      match StepAt(p, i, s)
      case Continue(next, s') => ScanFrom(p, next, s')
      case Refuse(reason) => Refused(reason)
      case GiveUp => Admitted
  }

  function SecondPass(p: string, ends: seq<nat>): Option<Reason> {
    if ends == [] then None
    else
      match GroupBody(p, ends[0])
      case None => None
      case Some(body) =>
        if AmbiguousBranches(BranchTexts(body)) then Some(AmbiguousAlternation)
        else SecondPass(p, ends[1..])
  }

  const START := Scan([], false, [])

  /** Why a pattern is refused, or None when it is admitted. */
  function Refusal(p: string): Option<Reason> {
    if |p| > MAX_REGEX_PATTERN_LENGTH then Some(TooLong)
    else
      match ScanFrom(p, 0, START)
      case Refused(reason) => Some(reason)
      case Admitted => None
      case Finished(ends) => SecondPass(p, ends)
  }

  method ClosingParen(p: string, i: nat, open: seq<Frame>, found: seq<nat>) returns (r: Step)
    ensures r == CloseGroup(p, i, Scan(open, false, found))
  {
    var stack, ends := open, found;
    if stack == [] { return GiveUp; }
    var frame := Top(stack);
    stack := stack[..|stack| - 1];
    if frame.branchNullable { frame := frame.(anyBranchNullable := true); }
    var quantified := IsQuantifierAt(p, i + 1);
    var repeating := quantified && IsRepeatingQuantifier(p, i + 1);
    if repeating {
      if frame.anyBranchNullable { return Refuse(NullableGroup); }
      if frame.hasRepeat { return Refuse(NestedRepetition); }
      if frame.hasAlternation { ends := ends + [i]; }
    }
    if stack != [] {
      var parent := Top(stack);
      parent := parent.(hasRepeat := parent.hasRepeat || frame.hasRepeat || repeating);
      var optional := quantified && IsOptionalQuantifier(p, i + 1);
      if !optional && !frame.anyBranchNullable { parent := parent.(branchNullable := false); }
      stack := SetTop(stack, parent);
    }
    r := Continue(i + 1, Scan(stack, false, ends));
  }

  method RefusedRegexReason(p: string) returns (r: Option<Reason>)
    ensures r == Refusal(p)
  {
    if |p| > MAX_REGEX_PATTERN_LENGTH { return Some(TooLong); }

    var stack: seq<Frame> := [];
    var ends: seq<nat> := [];
    var inClass := false;
    var i := 0;
    while i < |p|
      invariant ScanFrom(p, i, Scan(stack, inClass, ends)) == ScanFrom(p, 0, START)
      invariant forall k :: 0 <= k < |ends| ==> ends[k] < |p|
      decreases |p| - i
    {
      var ch := p[i];
      ghost var step := StepAt(p, i, Scan(stack, inClass, ends));
      if ch == '\\' {
        i := i + 1;
        stack := AtomRead(p, i + 1, stack);
      } else if inClass {
        if ch == ']' { inClass := false; }
      } else if ch == '[' {
        inClass := true;
        var end := ScanClass(p, i);
        stack := AtomRead(p, if end.None? then i + 1 else end.value, stack);
      } else if ch == '(' {
        stack := stack + [Frame(false, false, false, true)];
        var from := SkipGroupPrefix(p, i);
        if from < 0 { return None; }
        i := from - 1;
      } else if ch == '|' {
        if stack != [] {
          var f := Top(stack);
          stack := SetTop(stack, f.(hasAlternation := true,
                                    anyBranchNullable := f.anyBranchNullable || f.branchNullable,
                                    branchNullable := true));
        }
      } else if ch == ')' {
        var closed := ClosingParen(p, i, stack, ends);
        match closed {
          case Refuse(reason) => return Some(reason);
          case GiveUp => return None;
          case Continue(_, scan) => stack, ends := scan.stack, scan.ends;
        }
      } else if IsQuantifierAt(p, i) {
        if stack != [] { stack := SetTop(stack, Top(stack).(hasRepeat := true)); }
        i := SkipQuantifier(p, i) - 1;
      } else if ch != '^' && ch != '$' {
        stack := AtomRead(p, i + 1, stack);
      }
      i := i + 1;
      assert step == Continue(i, Scan(stack, inClass, ends));
    }
    r := ComparePass(p, ends);
  }

  /** The second pass, over the closing index of every repeated alternation the scan recorded. */
  method ComparePass(p: string, ends: seq<nat>) returns (r: Option<Reason>)
    requires forall k :: 0 <= k < |ends| ==> ends[k] < |p|
    ensures r == SecondPass(p, ends)
  {
    var k := 0;
    while k < |ends|
      invariant k <= |ends|
      invariant SecondPass(p, ends[k..]) == SecondPass(p, ends)
    {
      assert ends[k..][0] == ends[k] && ends[k..][1..] == ends[k + 1..];
      var body := GroupBodyAt(p, ends[k]);
      if body.None? { return None; }
      var branches := TopLevelBranches(body.value);
      var ambiguous := HasAmbiguousPair(branches);
      if ambiguous { return Some(AmbiguousAlternation); }
      k := k + 1;
    }
    r := None;
  }

  method HasAmbiguousPair(branches: seq<string>) returns (r: bool)
    ensures r == AmbiguousBranches(branches)
  {
    var sets: seq<set<Token>> := [];
    var prefixes: seq<string> := [];
    for k := 0 to |branches|
      invariant |sets| == |prefixes| == k
      invariant forall j :: 0 <= j < k ==> sets[j] == FirstSet(branches[j]) && prefixes[j] == LiteralPrefix(branches[j])
    {
      var firsts := FirstSetOf(branches[k]);
      var prefix := LiteralPrefixOf(branches[k]);
      sets, prefixes := sets + [firsts], prefixes + [prefix];
    }
    for a := 0 to |branches|
      invariant forall x, y :: 0 <= x < a && x < y < |branches| ==> !PairAmbiguous(branches[x], branches[y])
    {
      for b := a + 1 to |branches|
        invariant forall y :: a < y < b ==> !PairAmbiguous(branches[a], branches[y])
      {
        if !FirstSetsOverlap(sets[a], sets[b]) { continue; }
        if Nests(prefixes[a], prefixes[b]) {
          assert PairAmbiguous(branches[a], branches[b]);
          return true;
        }
      }
    }
    r := false;
  }
}
