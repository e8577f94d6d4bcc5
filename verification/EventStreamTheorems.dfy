/** Framing does not depend on how the stream is cut, and frames carry the events its lines carry. */
module EventStreamTheorems {
  import opened Text
  import opened Sorting
  import opened EventStream

  // ---------- splitting in two ----------

  /** What is taken off the front, up to the leftover. */
  function Taken(s: string): string
    decreases |s|
  {
    var i := BlankFrom(s, 0);
    if i < 0 then "" else s[..i + 2] + Taken(s[i + 2..])
  }

  /** A text that has a blank line: the frame before it, and the rest behind it. */
  lemma FirstFrame(s: string) returns (head: string, rest: string)
    requires BlankFrom(s, 0) >= 0
    ensures s == head + rest && |head| == BlankFrom(s, 0) + 2 && |rest| < |s| && IsBlankAt(head, |head| - 2)
    ensures Frames(s) == [head[..|head| - 2]] + Frames(rest)
    ensures Leftover(s) == Leftover(rest) && Taken(s) == head + Taken(rest)
  {
    var i := BlankFrom(s, 0);
    head, rest := s[..i + 2], s[i + 2..];
    assert head[..|head| - 2] == s[..i];
  }

  lemma FirstFrameIs(s: string, head: string, rest: string)
    requires s == head + rest && |head| == BlankFrom(s, 0) + 2 >= 2
    ensures Frames(s) == [head[..|head| - 2]] + Frames(rest) && Leftover(s) == Leftover(rest)
  {
    var i := BlankFrom(s, 0);
    assert head[..|head| - 2] == s[..i] && s[i + 2..] == rest;
  }

  lemma SameBlank(a: string, b: string)
    requires BlankFrom(a, 0) >= 0
    ensures BlankFrom(a + b, 0) == BlankFrom(a, 0)
  {
    var i := BlankFrom(a, 0);
    assert IsBlankAt(a + b, i);
    forall k | 0 <= k < i ensures !IsBlankAt(a + b, k) { assert IsBlankAt(a + b, k) <==> IsBlankAt(a, k); }
  }

  lemma NoFrames(s: string)
    requires BlankFrom(s, 0) < 0
    ensures Frames(s) == [] && Leftover(s) == s && Taken(s) == ""
  {
  }

  lemma Regrouped<T>(a: seq<T>, b: seq<T>, c: seq<T>)
    ensures (a + b) + c == a + (b + c)
  {
  }

  /** Splitting a text is splitting its head, and then what that leaves with the rest. */
  lemma {:induction false} FramesInTwo(a: string, b: string)
    ensures Frames(a + b) == Frames(a) + Frames(Leftover(a) + b)
    ensures Leftover(a + b) == Leftover(Leftover(a) + b)
    decreases |a|
  {
    if BlankFrom(a, 0) >= 0 {
      var head, rest := FirstFrame(a);
      SameBlank(a, b);
      FramesInTwo(rest, b);
      Regrouped(head, rest, b);
      FirstFrameIs(a + b, head, rest + b);
      Regrouped([head[..|head| - 2]], Frames(rest), Frames(Leftover(rest) + b));
    } else {
      NoFrames(a);
    }
  }

  lemma {:induction false} TakenAndLeftover(s: string)
    ensures Taken(s) + Leftover(s) == s
    ensures Taken(s) != "" ==> Taken(s)[|Taken(s)| - 1] == '\n'
    decreases |s|
  {
    if BlankFrom(s, 0) >= 0 {
      var head, rest := FirstFrame(s);
      TakenAndLeftover(rest);
      LastOfConcat(head, Taken(rest));
      Regrouped(head, Taken(rest), Leftover(rest));
    } else {
      NoFrames(s);
    }
  }

  lemma LastOfConcat(a: string, b: string)
    ensures b == "" ==> a + b == a
    ensures b != "" ==> (a + b)[|a + b| - 1] == b[|b| - 1]
  {
  }

  lemma {:induction false} TakenFrames(s: string)
    ensures Frames(Taken(s)) == Frames(s) && Leftover(Taken(s)) == ""
    decreases |s|
  {
    if BlankFrom(s, 0) >= 0 {
      var head, rest := FirstFrame(s);
      TakenFrames(rest);
      BlankInHead(s, head, rest, Taken(rest));
      FirstFrameIs(Taken(s), head, Taken(rest));
    } else {
      NoFrames(s);
      NoFrames("");
    }
  }

  lemma BlankInHead(s: string, head: string, rest: string, other: string)
    requires s == head + rest && |head| == BlankFrom(s, 0) + 2 >= 2
    ensures BlankFrom(head + other, 0) == BlankFrom(s, 0)
  {
    var i := BlankFrom(s, 0);
    assert IsBlankAt(head + other, i);
    forall k | 0 <= k < i ensures !IsBlankAt(head + other, k) {
      assert IsBlankAt(head + other, k) <==> IsBlankAt(s, k);
    }
  }

  // ---------- normalising in two ----------

  predicate HasPairAt(s: string, i: int) {
    0 <= i && i + 1 < |s| && s[i] == '\r' && s[i + 1] == '\n'
  }

  ghost predicate HasPair(s: string) {
    exists i :: HasPairAt(s, i)
  }

  predicate Splits(a: string, b: string) {
    a != "" && b != "" && a[|a| - 1] == '\r' && b[0] == '\n'
  }

  lemma LastNormalised(s: string, front: string, k: nat)
    requires s != "" && k == (if HasPairAt(s, |s| - 2) then 2 else 1) && front == s[..|s| - k]
    ensures Normalised(s) == Normalised(front) + [s[|s| - 1]]
  {
  }

  /** Unless a pair straddles the cut, both sides are normalised apart. */
  lemma {:induction false} NormalisedInTwo(a: string, b: string)
    requires !Splits(a, b)
    ensures Normalised(a + b) == Normalised(a) + Normalised(b)
    decreases |b|
  {
    var s := a + b;
    if b == "" {
      assert s == a;
    } else {
      var k := if |b| >= 2 && HasPairAt(b, |b| - 2) then 2 else 1;
      var front, last := b[..|b| - k], b[|b| - 1];
      assert s[..|s| - k] == a + front && s[|s| - 1] == last;
      NormalisedInTwo(a, front);
      LastNormalised(b, front, k);
      LastNormalised(s, a + front, k);
      Regrouped(Normalised(a), Normalised(front), [last]);
    }
  }

  lemma {:induction false} WithoutPairs(s: string)
    requires !HasPair(s)
    ensures Normalised(s) == s
  {
    if s != "" {
      assert !HasPairAt(s, |s| - 2);
      var front := s[..|s| - 1];
      forall i ensures !HasPairAt(front, i) { assert !HasPairAt(s, i); }
      WithoutPairs(front);
    }
  }

  lemma NormalisedLast(s: string)
    requires s != ""
    ensures Normalised(s) != "" && Normalised(s)[|Normalised(s)| - 1] == s[|s| - 1]
  {
  }

  // ---------- streams that can be cut anywhere ----------

  predicate IsTripleAt(s: string, i: int) {
    0 <= i && i + 2 < |s| && s[i] == '\r' && s[i + 1] == '\r' && s[i + 2] == '\n'
  }

  /** No CR CR LF but at the very end. */
  ghost predicate IsEven(s: string) {
    forall i :: IsTripleAt(s, i) ==> i + 3 == |s|
  }

  ghost predicate HasNoTriple(s: string) {
    forall i :: !IsTripleAt(s, i)
  }

  /** One pass leaves a pair only where there was a CR before it. */
  lemma {:induction false} NormalisedOnce(s: string)
    requires HasNoTriple(s)
    ensures !HasPair(Normalised(s))
  {
    if s != "" {
      var k := if |s| >= 2 && s[|s| - 1] == '\n' && s[|s| - 2] == '\r' then 2 else 1;
      var front := s[..|s| - k];
      forall i ensures !IsTripleAt(front, i) { assert !IsTripleAt(s, i); }
      NormalisedOnce(front);
      var n := Normalised(front);
      assert Normalised(s) == n + [s[|s| - 1]];
      if front != "" { NormalisedLast(front); }
      if k == 2 { assert !IsTripleAt(s, |s| - 3); }
      var more := n + [s[|s| - 1]];
      forall i ensures !HasPairAt(more, i) { assert !HasPairAt(n, i); }
    }
  }

  lemma NormalisedPair(a: string, b: string)
    requires Splits(a, b)
    ensures Normalised(a) == Normalised(a[..|a| - 1]) + "\r"
    ensures Normalised(a + b) == Normalised(a[..|a| - 1]) + Normalised("\n" + b[1..])
  {
    var front := a[..|a| - 1];
    assert a + b == front + ("\r" + b);
    NormalisedInTwo(front, "\r" + b);
    assert "\r" + b == "\r\n" + b[1..] && "\n" + b[1..] == b;
    NormalisedInTwo("\r\n", b[1..]);
    NormalisedInTwo("\n", b[1..]);
    assert "\r\n"[..0] == "" && "\n"[..0] == "";
    assert Normalised("\r\n") == "\n" == Normalised("\n");
  }

  /** Normalising what is normalised already, with more behind it, normalises the whole. */
  lemma NormalisedAgain(a: string, b: string)
    requires HasNoTriple(a)
    ensures Normalised(Normalised(a) + b) == Normalised(a + b)
  {
    var n := Normalised(a);
    NormalisedOnce(a);
    WithoutPairs(n);
    if a != "" { NormalisedLast(a); }
    if Splits(a, b) {
      NormalisedPair(a, b);
      NormalisedPair(n, b);
      var f, g := Normalised(a[..|a| - 1]), Normalised(n[..|n| - 1]);
      assert n == f + "\r" && n == g + "\r";
      assert f == n[..|n| - 1] == g;
    } else {
      NormalisedInTwo(a, b);
      NormalisedInTwo(n, b);
    }
  }

  /** The text taken off already does not matter to what comes next. */
  lemma NormalisedTail(n: string, b: string)
    requires !HasPair(n)
    ensures Normalised(n + b) == Taken(n) + Normalised(Leftover(n) + b)
  {
    var t, rest := Taken(n), Leftover(n);
    TakenAndLeftover(n);
    forall i ensures !HasPairAt(t, i) { assert !HasPairAt(n, i); }
    WithoutPairs(t);
    assert n + b == t + (rest + b);
    NormalisedInTwo(t, rest + b);
  }

  /** One more chunk, after a stream that can be cut anywhere. */
  lemma ConsumeNext(stream: string, chunk: string)
    requires HasNoTriple(stream)
    ensures var n := Normalised(stream);
      var (more, rest) := Consume(Leftover(n), chunk);
      Frames(Normalised(stream + chunk)) == Frames(n) + more && Leftover(Normalised(stream + chunk)) == rest
  {
    var n := Normalised(stream);
    NormalisedOnce(stream);
    NormalisedAgain(stream, chunk);
    NormalisedTail(n, chunk);
    var text := Normalised(Leftover(n) + chunk);
    TakenFrames(n);
    FramesInTwo(Taken(n), text);
    assert "" + text == text;
  }

  // ---------- chunks ----------

  function Joined(chunks: seq<string>): string {
    if chunks == [] then "" else Joined(chunks[..|chunks| - 1]) + chunks[|chunks| - 1]
  }

  /** The whole stream in one chunk. */
  function Whole(stream: string): (seq<string>, string) {
    (Frames(Normalised(stream)), Leftover(Normalised(stream)))
  }

  lemma EvenHead(a: string, b: string)
    requires IsEven(a + b) && b != ""
    ensures HasNoTriple(a)
  {
    forall i ensures !IsTripleAt(a, i) { assert IsTripleAt(a, i) ==> IsTripleAt(a + b, i); }
  }

  /** A stream with no CR CR LF before its end gives the same frames and leftover however it is cut. */
  lemma {:induction false} CutsDoNotMatter(chunks: seq<string>)
    requires IsEven(Joined(chunks)) && forall k :: 0 <= k < |chunks| ==> chunks[k] != ""
    ensures ConsumeAll(chunks) == Whole(Joined(chunks))
  {
    if chunks == [] {
      assert BlankFrom("", 0) == -1;
    } else {
      var front, last := chunks[..|chunks| - 1], chunks[|chunks| - 1];
      EvenHead(Joined(front), last);
      CutsDoNotMatter(front);
      ConsumeNext(Joined(front), last);
    }
  }

  // ---------- streams that cannot ----------

  function TotalLength(frames: seq<string>): nat {
    if frames == [] then 0 else |frames[0]| + 2 + TotalLength(frames[1..])
  }

  /** Framing keeps every character but counts each blank line as part of its frame. */
  lemma {:induction false} FramingKeepsLength(s: string)
    ensures TotalLength(Frames(s)) + |Leftover(s)| == |s|
    decreases |s|
  {
    var i := BlankFrom(s, 0);
    if i >= 0 {
      FramingKeepsLength(s[i + 2..]);
      assert Frames(s)[1..] == Frames(s[i + 2..]);
    }
  }

  lemma {:induction false} TotalLengthConcat(a: seq<string>, b: seq<string>)
    ensures TotalLength(a + b) == TotalLength(a) + TotalLength(b)
  {
    if a == [] {
      assert a + b == b;
    } else {
      assert (a + b)[1..] == a[1..] + b;
      TotalLengthConcat(a[1..], b);
    }
  }

  lemma {:induction false} NormalisedShrinks(s: string)
    ensures |Normalised(s)| <= |s|
    ensures HasPair(s) ==> |Normalised(s)| < |s|
  {
    if s != "" {
      if !HasPairAt(s, |s| - 2) {
        var front := s[..|s| - 1];
        NormalisedShrinks(front);
        if HasPair(s) {
          var i :| HasPairAt(s, i);
          assert HasPairAt(front, i);
        }
      } else {
        NormalisedShrinks(s[..|s| - 2]);
      }
    }
  }

  /** The characters a result holds, blank lines included. */
  function Size(result: (seq<string>, string)): nat {
    TotalLength(result.0) + |result.1|
  }

  lemma SizeOfWhole(stream: string)
    ensures Size(Whole(stream)) == |Normalised(stream)|
  {
    FramingKeepsLength(Normalised(stream));
  }

  lemma SizeOfTwo(a: string, b: string)
    ensures Size(ConsumeAll([a, b])) == |Taken(Normalised(a))| + |Normalised(Leftover(Normalised(a)) + b)|
  {
    TwoChunks(a, b);
    var n := Normalised(a);
    var text := Normalised(Leftover(n) + b);
    FramingKeepsLength(n);
    FramingKeepsLength(text);
    TotalLengthConcat(Frames(n), Frames(text));
    TakenAndLeftover(n);
  }

  lemma LeftoverShrinks(n: string, b: string)
    requires |n| >= 2 && HasPairAt(n, |n| - 2)
    ensures |Taken(n)| + |Normalised(Leftover(n) + b)| < |n| + |Normalised(b)|
  {
    var rest := Leftover(n);
    PairIsLeft(n);
    NormalisedInTwo(rest, b);
    NormalisedShrinks(rest);
    assert |Taken(n)| + |rest| == |n| by { TakenAndLeftover(n); }
  }

  /** Cut in two after a CR CR LF, a stream is normalised twice there, and fewer characters are left. */
  lemma CutAfterTriple(a: string, b: string)
    requires |a| >= 3 && IsTripleAt(a, |a| - 3)
    ensures ConsumeAll([a, b]) != Whole(a + b)
  {
    TripleLeavesPair(a);
    LeftoverShrinks(Normalised(a), b);
    SizeOfTwo(a, b);
    assert |Normalised(a + b)| == |Normalised(a)| + |Normalised(b)| by { NormalisedInTwo(a, b); }
    assert Size(Whole(a + b)) == |Normalised(a + b)| by { SizeOfWhole(a + b); }
  }

  lemma TwoChunks(a: string, b: string)
    ensures ConsumeAll([a, b]) ==
      (Frames(Normalised(a)) + Frames(Normalised(Leftover(Normalised(a)) + b)),
       Leftover(Normalised(Leftover(Normalised(a)) + b)))
  {
    assert [a, b][..1] == [a] && [a][..0] == [];
    assert ConsumeAll([]) == ([], "");
    assert "" + a == a && [] + Frames(Normalised(a)) == Frames(Normalised(a));
    assert ConsumeAll([a]) == (Frames(Normalised(a)), Leftover(Normalised(a)));
  }

  lemma TripleLeavesPair(a: string)
    requires |a| >= 3 && IsTripleAt(a, |a| - 3)
    ensures |Normalised(a)| >= 2 && HasPairAt(Normalised(a), |Normalised(a)| - 2)
  {
    var front := a[..|a| - 2];
    NormalisedLast(front);
    assert Normalised(a) == Normalised(front) + "\n";
  }

  /** A pair at the end of a text stays in what is left over. */
  lemma PairIsLeft(n: string)
    requires |n| >= 2 && HasPairAt(n, |n| - 2)
    ensures HasPair(Leftover(n)) && Leftover(n)[|Leftover(n)| - 1] == '\n'
  {
    TakenAndLeftover(n);
    var t, rest := Taken(n), Leftover(n);
    EndOf(n, t, rest);
    if t != "" { TakenEndsBlank(n); }
    assert |rest| >= 2;
    assert HasPairAt(rest, |rest| - 2);
  }

  lemma EndOf(n: string, t: string, rest: string)
    requires n == t + rest && |n| >= 2
    ensures |rest| == 0 ==> t == n
    ensures |rest| == 1 ==> |t| >= 1 && n[|n| - 2] == t[|t| - 1]
  {
  }

  lemma {:induction false} TakenEndsBlank(s: string)
    requires Taken(s) != ""
    ensures |Taken(s)| >= 2 && IsBlankAt(Taken(s), |Taken(s)| - 2)
    decreases |s|
  {
    var head, rest := FirstFrame(s);
    var more := Taken(rest);
    if more != "" {
      TakenEndsBlank(rest);
      assert IsBlankAt(head + more, |head| + |more| - 2);
    } else {
      assert head + more == head;
    }
  }

  /** Every way of cutting the stream into chunks that are not empty. */
  ghost predicate AnyCutAgrees(stream: string) {
    forall chunks :: Joined(chunks) == stream && NoneEmpty(chunks) ==> ConsumeAll(chunks) == Whole(stream)
  }

  ghost predicate NoneEmpty(chunks: seq<string>) {
    forall k :: 0 <= k < |chunks| ==> chunks[k] != ""
  }

  lemma EvenAgrees(stream: string)
    requires IsEven(stream)
    ensures AnyCutAgrees(stream)
  {
    forall chunks | Joined(chunks) == stream && NoneEmpty(chunks) ensures ConsumeAll(chunks) == Whole(stream) {
      CutsDoNotMatter(chunks);
    }
  }

  lemma TripleParts(a: string, b: string)
    requires |a| >= 3 && IsTripleAt(a, |a| - 3) && b != ""
    ensures !AnyCutAgrees(a + b)
  {
    CutAfterTriple(a, b);
    TwoJoined(a, b);
  }

  /** The frames and the leftover do not depend on the cuts exactly when no CR CR LF comes before the last
      character of the stream. */
  lemma AnyCutAgreesIffEven(stream: string)
    ensures AnyCutAgrees(stream) <==> IsEven(stream)
  {
    if IsEven(stream) {
      EvenAgrees(stream);
    } else {
      var i :| IsTripleAt(stream, i) && i + 3 != |stream|;
      var a, b := stream[..i + 3], stream[i + 3..];
      assert stream == a + b && IsTripleAt(a, i);
      TripleParts(a, b);
    }
  }

  lemma TwoJoined(a: string, b: string)
    ensures Joined([a, b]) == a + b && (a != "" && b != "" ==> NoneEmpty([a, b]))
  {
    assert [a, b][..1] == [a] && [a][..0] == [];
    assert Joined([a]) == "" + a;
  }
}
