/** String helpers shared by the models: the JavaScript and Python string operations the
    programs use, on sequences of characters. Case folding is ASCII only. */
module Text {
  datatype Option<+T> = None | Some(value: T)

  predicate StartsWith(s: string, prefix: string) {
    prefix <= s
  }

  predicate EndsWith(s: string, suffix: string) {
    |suffix| <= |s| && s[|s| - |suffix|..] == suffix
  }

  /** `t` occurs in `s` at position `i`. */
  predicate At(s: string, i: int, t: string) {
    0 <= i <= |s| - |t| && s[i..i + |t|] == t
  }

  predicate Contains(s: string, t: string) {
    exists i :: 0 <= i <= |s| && At(s, i, t)
  }

  /** The character at `i` is `c`; false past either end, as an out-of-range read is `undefined`. */
  predicate Is(s: string, i: int, c: char) {
    0 <= i < |s| && s[i] == c
  }

  ghost predicate AreDistinct<T>(xs: seq<T>) {
    forall i, j :: 0 <= i < j < |xs| ==> xs[i] != xs[j]
  }

  /** A line terminator, which `.` of a pattern does not match. */
  predicate IsLineEnd(c: char) {
    c == '\n' || c == '\r' || c == '\U{2028}' || c == '\U{2029}'
  }

  predicate IsDigit(c: char) {
    '0' <= c <= '9'
  }

  /** The ASCII part of the whitespace that `trim` and `\s` recognise. */
  predicate IsSpace(c: char) {
    c == ' ' || c == '\t' || c == '\n' || c == '\r' || c == '\U{000B}' || c == '\U{000C}'
  }

  function LowerChar(c: char): char {
    if 'A' <= c <= 'Z' then ((c as int) + 32) as char else c
  }

  function Lower(s: string): (r: string)
    ensures |r| == |s|
    ensures forall i :: 0 <= i < |s| ==> r[i] == LowerChar(s[i])
  {
    seq(|s|, i requires 0 <= i < |s| => LowerChar(s[i]))
  }

  /** First index of `c` at or after `from`, or -1. */
  function IndexOf(s: string, c: char, from: nat): (r: int)
    ensures r == -1 || (from <= r < |s| && s[r] == c)
    decreases |s| - from
  {
    if from >= |s| then -1
    else if s[from] == c then from
    else IndexOf(s, c, from + 1)
  }

  lemma {:induction false} NoneBeforeIndexOf(s: string, c: char, from: nat)
    ensures var r := IndexOf(s, c, from); forall k :: from <= k < (if r < 0 then |s| else r) ==> s[k] != c
    decreases |s| - from
  {
    if from < |s| && s[from] != c { NoneBeforeIndexOf(s, c, from + 1); }
  }

  lemma {:induction false} IndexOfIs(s: string, c: char, from: nat, at: nat)
    requires from <= at < |s| && s[at] == c && forall k :: from <= k < at ==> s[k] != c
    ensures IndexOf(s, c, from) == at
    decreases at - from
  {
    if from < at { IndexOfIs(s, c, from + 1, at); }
  }

  lemma {:induction false} IndexOfAbsent(s: string, c: char, from: nat)
    requires c !in s
    ensures IndexOf(s, c, from) == -1
    decreases |s| - from
  {
    if from < |s| { IndexOfAbsent(s, c, from + 1); }
  }

  /** `s.slice(from, to)` for non-negative bounds. */
  function Slice(s: string, from: nat, to: nat): (r: string)
    ensures |r| <= |s|
    ensures from <= to <= |s| ==> r == s[from..to]
  {
    if from <= to <= |s| then s[from..to]
    else if from <= |s| < to then s[from..]
    else ""
  }

  lemma AtConcat(s: string, i: nat, a: string, b: string)
    ensures At(s, i, a + b) <==> At(s, i, a) && At(s, i + |a|, b)
  {
    if At(s, i, a + b) {
      assert s[i..i + |a|] == (s[i..i + |a + b|])[..|a|] == a;
      assert s[i + |a|..i + |a| + |b|] == (s[i..i + |a + b|])[|a|..] == b;
    }
    if At(s, i, a) && At(s, i + |a|, b) {
      assert s[i..i + |a + b|] == s[i..i + |a|] + s[i + |a|..i + |a| + |b|];
    }
  }

  lemma AtIndex(s: string, i: nat, t: string, k: nat)
    requires At(s, i, t) && k < |t|
    ensures s[i + k] == t[k]
  {
    assert s[i..i + |t|][k] == t[k];
  }

  // ---------- trimming, cutting and splitting ----------

  function UpperChar(c: char): char {
    if 'a' <= c <= 'z' then ((c as int) - 32) as char else c
  }

  function Upper(s: string): string {
    seq(|s|, i requires 0 <= i < |s| => UpperChar(s[i]))
  }

  function TrimStart(s: string): (r: string)
    ensures |r| <= |s| && r == s[|s| - |r|..]
    ensures r == "" || !IsSpace(r[0])
  {
    if s != "" && IsSpace(s[0]) then
      var rest := TrimStart(s[1..]);
      assert s[1..][|s| - 1 - |rest|..] == s[|s| - |rest|..];
      rest
    else s
  }

  function TrimEnd(s: string): (r: string)
    ensures r <= s
    ensures r == "" || !IsSpace(r[|r| - 1])
  {
    if s != "" && IsSpace(s[|s| - 1]) then TrimEnd(s[..|s| - 1]) else s
  }

  function Trim(s: string): string {
    TrimEnd(TrimStart(s))
  }

  /** A letter, a digit or `_`: what `\w` stands for. */
  predicate IsWordChar(c: char) {
    'a' <= LowerChar(c) <= 'z' || IsDigit(c) || c == '_'
  }

  /** Nothing to trim at either edge. */
  predicate IsTrimmed(s: string) {
    s == "" || (!IsSpace(s[0]) && !IsSpace(s[|s| - 1]))
  }

  lemma TrimIsTrimmed(s: string)
    ensures IsTrimmed(Trim(s))
    ensures IsTrimmed(s) ==> Trim(s) == s
  {
  }

  /** The trailing run of characters of `chars` removed. */
  function StripTrailing(s: string, chars: set<char>): (r: string)
    ensures r <= s
    ensures r == "" || r[|r| - 1] !in chars
  {
    if s != "" && s[|s| - 1] in chars then StripTrailing(s[..|s| - 1], chars) else s
  }

  lemma {:induction false} StrippedAreInSet(s: string, chars: set<char>)
    ensures forall k :: |StripTrailing(s, chars)| <= k < |s| ==> s[k] in chars
  {
    if s != "" && s[|s| - 1] in chars {
      var t := s[..|s| - 1];
      StrippedAreInSet(t, chars);
      assert forall k :: 0 <= k < |t| ==> t[k] == s[k];
    }
  }

  function LastIndexOf(s: string, c: char): (r: int)
    ensures r == -1 || (0 <= r < |s| && s[r] == c)
  {
    if s == "" then -1
    else if s[|s| - 1] == c then |s| - 1
    else LastIndexOf(s[..|s| - 1], c)
  }

  lemma {:induction false} NoneAfterLastIndexOf(s: string, c: char)
    ensures forall k :: LastIndexOf(s, c) < k < |s| && 0 <= k ==> s[k] != c
  {
    if s != "" && s[|s| - 1] != c {
      var t := s[..|s| - 1];
      NoneAfterLastIndexOf(t, c);
      assert forall k :: 0 <= k < |t| ==> t[k] == s[k];
    }
  }

  /** First index of any character of `chars`, or -1. */
  function IndexOfAny(s: string, chars: set<char>, from: nat): (r: int)
    ensures r == -1 || (from <= r < |s| && s[r] in chars)
    decreases |s| - from
  {
    if from >= |s| then -1
    else if s[from] in chars then from
    else IndexOfAny(s, chars, from + 1)
  }

  lemma {:induction false} NoneBeforeIndexOfAny(s: string, chars: set<char>, from: nat)
    ensures var r := IndexOfAny(s, chars, from); forall k :: from <= k < (if r < 0 then |s| else r) ==> s[k] !in chars
    decreases |s| - from
  {
    if from < |s| && s[from] !in chars { NoneBeforeIndexOfAny(s, chars, from + 1); }
  }

  lemma {:induction false} IndexOfAnyIs(s: string, chars: set<char>, from: nat, at: nat)
    requires from <= at <= |s| && (forall k :: from <= k < at ==> s[k] !in chars) && (at < |s| ==> s[at] in chars)
    ensures IndexOfAny(s, chars, from) == if at < |s| then at else -1
    decreases at - from
  {
    if from < at { IndexOfAnyIs(s, chars, from + 1, at); }
  }

  // ---------- runs of characters ----------

  /** The index past the whitespace at `i`. */
  function SpacesFrom(s: string, i: nat): (r: nat)
    requires i <= |s|
    ensures i <= r <= |s|
    decreases |s| - i
  {
    if i < |s| && IsSpace(s[i]) then SpacesFrom(s, i + 1) else i
  }

  /** The index past the word at `i`. */
  function WordEnd(s: string, i: nat): (r: nat)
    requires i <= |s|
    ensures i <= r <= |s|
    decreases |s| - i
  {
    if i < |s| && !IsSpace(s[i]) then WordEnd(s, i + 1) else i
  }

  /** The index past the digits at `i`. */
  function DigitsFrom(s: string, i: nat): (r: nat)
    requires i <= |s|
    ensures i <= r <= |s|
    decreases |s| - i
  {
    if i < |s| && IsDigit(s[i]) then DigitsFrom(s, i + 1) else i
  }

  lemma {:induction false} SpacesRead(s: string, i: nat, j: nat)
    requires i <= j <= |s| && (forall k :: i <= k < j ==> IsSpace(s[k])) && (j < |s| ==> !IsSpace(s[j]))
    ensures SpacesFrom(s, i) == j
    decreases j - i
  {
    if i < j { SpacesRead(s, i + 1, j); }
  }

  lemma {:induction false} WordRead(s: string, i: nat, j: nat)
    requires i <= j <= |s| && (forall k :: i <= k < j ==> !IsSpace(s[k])) && (j < |s| ==> IsSpace(s[j]))
    ensures WordEnd(s, i) == j
    decreases j - i
  {
    if i < j { WordRead(s, i + 1, j); }
  }

  lemma {:induction false} DigitsRead(s: string, i: nat, j: nat)
    requires i <= j <= |s| && (forall k :: i <= k < j ==> IsDigit(s[k])) && (j < |s| ==> !IsDigit(s[j]))
    ensures DigitsFrom(s, i) == j
    decreases j - i
  {
    if i < j { DigitsRead(s, i + 1, j); }
  }

  lemma {:induction false} SpacesAreSpaces(s: string, i: nat)
    requires i <= |s|
    ensures forall k :: i <= k < SpacesFrom(s, i) ==> IsSpace(s[k])
    ensures SpacesFrom(s, i) < |s| ==> !IsSpace(s[SpacesFrom(s, i)])
    decreases |s| - i
  {
    if i < |s| && IsSpace(s[i]) { SpacesAreSpaces(s, i + 1); }
  }

  function Split(s: string, c: char): (parts: seq<string>)
    ensures |parts| >= 1
    decreases |s|
  {
    var i := IndexOf(s, c, 0);
    if i < 0 then [s] else [s[..i]] + Split(s[i + 1..], c)
  }

  function NonEmpty(parts: seq<string>): seq<string> {
    if parts == [] then []
    else (if parts[0] == "" then [] else [parts[0]]) + NonEmpty(parts[1..])
  }

  function TrimAll(parts: seq<string>): seq<string> {
    if parts == [] then [] else [Trim(parts[0])] + TrimAll(parts[1..])
  }

  // ---------- substrings ----------

  lemma ContainsSlice(s: string, i: nat, j: nat)
    requires i <= j <= |s|
    ensures Contains(s, s[i..j])
  {
    assert At(s, i, s[i..j]);
  }

  lemma ContainsTrans(a: string, b: string, c: string)
    requires Contains(a, b) && Contains(b, c)
    ensures Contains(a, c)
  {
    var i :| 0 <= i <= |a| && At(a, i, b);
    var j :| 0 <= j <= |b| && At(b, j, c);
    forall k | 0 <= k < |c| ensures a[i + j + k] == c[k] {
      AtIndex(a, i, b, j + k);
      AtIndex(b, j, c, k);
    }
    assert a[i + j..i + j + |c|] == c;
    assert At(a, i + j, c);
  }

  lemma ContainsLower(a: string, b: string)
    requires Contains(a, b)
    ensures Contains(Lower(a), Lower(b))
  {
    var i :| 0 <= i <= |a| && At(a, i, b);
    forall k | 0 <= k < |b| ensures Lower(a)[i..i + |b|][k] == Lower(b)[k] {
      assert a[i..i + |b|][k] == b[k];
    }
    assert At(Lower(a), i, Lower(b));
  }

  lemma LacksChar(s: string, t: string, k: nat)
    requires k < |t| && t[k] !in s
    ensures !Contains(s, t)
  {
    if Contains(s, t) {
      var i :| 0 <= i <= |s| && At(s, i, t);
      AtIndex(s, i, t, k);
    }
  }

  lemma SliceOfSlice<T>(s: seq<T>, from: nat, to: nat, i: nat, n: nat)
    requires from <= to <= |s| && i + n <= to - from
    ensures s[from..to][i..i + n] == s[from + i..from + i + n]
  {
    var a, b := s[from..to][i..i + n], s[from + i..from + i + n];
    forall k | 0 <= k < n ensures a[k] == b[k] { assert a[k] == s[from..to][i + k]; }
    assert a == b;
  }

  lemma LowerIsIdempotent(s: string)
    ensures Lower(Lower(s)) == Lower(s)
  {
  }

  lemma LowerOfConcat(a: string, b: string)
    ensures Lower(a + b) == Lower(a) + Lower(b)
  {
  }

  // ---------- hosts and their parents ----------

  /** `host` is `d` or lies under it. */
  predicate Covers(d: string, host: string) {
    host == d || EndsWith(host, "." + d)
  }

  lemma CoversDown(d: string, c: string, dot: nat)
    requires dot < |c| && c[dot] == '.' && Covers(d, c[dot + 1..])
    ensures EndsWith(c, "." + d)
  {
    var rest := c[dot + 1..];
    if rest == d {
      assert c[dot..] == "." + d;
    } else {
      assert c[|c| - |d| - 1..] == rest[|rest| - |d| - 1..];
    }
  }

  lemma CoversUp(d: string, c: string, dot: nat)
    requires dot < |c| && (forall k :: 0 <= k < dot ==> c[k] != '.') && EndsWith(c, "." + d)
    ensures Covers(d, c[dot + 1..])
  {
    var p := |c| - |d| - 1;
    var rest := c[dot + 1..];
    assert c[p..][0] == '.' && c[p] == '.';
    assert c[p + 1..] == c[p..][1..] == d;
    if dot < p {
      assert rest[p - dot - 1..] == c[p..];
    }
  }

  lemma EndingHasDot(d: string, c: string)
    ensures EndsWith(c, "." + d) ==> |d| < |c| && c[|c| - |d| - 1] == '.'
  {
    if EndsWith(c, "." + d) { assert c[|c| - |d| - 1..][0] == '.'; }
  }

  /** Above a host are the host itself and what is above its first dot. */
  lemma CoversStep(d: string, c: string, dot: int)
    requires dot == IndexOf(c, '.', 0)
    ensures Covers(d, c) <==> d == c || (dot >= 0 && Covers(d, c[dot + 1..]))
  {
    NoneBeforeIndexOf(c, '.', 0);
    EndingHasDot(d, c);
    if dot >= 0 {
      if EndsWith(c, "." + d) { CoversUp(d, c, dot); }
      if Covers(d, c[dot + 1..]) { CoversDown(d, c, dot); }
    }
  }
}
