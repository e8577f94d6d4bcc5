/** The same framing over bytes: each chunk is decoded on its own, so a cut inside a character shows. */
module EventBytes {
  import opened Utf8
  import opened EventStream
  import opened EventStreamTheorems

  function BytesOf(chunks: seq<seq<Byte>>): seq<Byte> {
    if chunks == [] then [] else BytesOf(chunks[..|chunks| - 1]) + chunks[|chunks| - 1]
  }

  ghost predicate NoneIsEmpty(chunks: seq<seq<Byte>>) {
    forall k :: 0 <= k < |chunks| ==> chunks[k] != []
  }

  /** Every way of cutting the bytes into chunks that are not empty gives what one chunk gives. */
  ghost predicate AnyByteCutAgrees(bs: seq<Byte>, read: seq<Byte> -> Unit) {
    forall chunks :: BytesOf(chunks) == bs && NoneIsEmpty(chunks) ==>
      ConsumeAll(DecodedEach(chunks, read)) == Whole(Decode(bs, read))
  }

  // ---------- bytes that decode one by one ----------

  lemma DecodedFront(chunks: seq<seq<Byte>>, read: seq<Byte> -> Unit)
    requires chunks != []
    ensures DecodedEach(chunks, read)[..|chunks| - 1] == DecodedEach(chunks[..|chunks| - 1], read)
  {
  }

  lemma {:induction false} DecodedJoined(chunks: seq<seq<Byte>>, read: seq<Byte> -> Unit)
    requires IsUnitReader(read) && AllSingle(BytesOf(chunks), read)
    ensures Joined(DecodedEach(chunks, read)) == Decode(BytesOf(chunks), read)
  {
    if chunks != [] {
      var front, last := chunks[..|chunks| - 1], chunks[|chunks| - 1];
      var bs, before := BytesOf(chunks), BytesOf(front);
      SinglePrefix(bs, |before|, read);
      assert bs[..|before|] == before && bs[|before|..] == last;
      DecodedJoined(front, read);
      DecodedFront(chunks, read);
    }
  }

  lemma SingleAgrees(bs: seq<Byte>, read: seq<Byte> -> Unit)
    requires IsUnitReader(read) && AllSingle(bs, read) && IsEven(Decode(bs, read))
    ensures AnyByteCutAgrees(bs, read)
  {
    forall chunks | BytesOf(chunks) == bs && NoneIsEmpty(chunks)
      ensures ConsumeAll(DecodedEach(chunks, read)) == Whole(Decode(bs, read))
    {
      DecodedJoined(chunks, read);
      CutsDoNotMatter(DecodedEach(chunks, read));
    }
  }

  // ---------- cuts that show ----------

  lemma BytesOfTwo(a: seq<Byte>, b: seq<Byte>)
    ensures BytesOf([a, b]) == a + b
  {
    assert [a, b][..1] == [a] && [a][..0] == [];
    assert BytesOf([a]) == [] + a;
  }

  lemma TwoByteChunks(a: seq<Byte>, b: seq<Byte>, texts: seq<string>, read: seq<Byte> -> Unit)
      returns (chunks: seq<seq<Byte>>)
    requires a != [] && b != []
    requires |texts| == 2 && texts[0] == Decode(a, read) && texts[1] == Decode(b, read)
    ensures BytesOf(chunks) == a + b && NoneIsEmpty(chunks) && DecodedEach(chunks, read) == texts
  {
    chunks := [a, b];
    BytesOfTwo(a, b);
    var each := DecodedEach(chunks, read);
    assert |each| == 2 && each[0] == texts[0] && each[1] == texts[1];
  }

  lemma ChunksShow(chunks: seq<seq<Byte>>, texts: seq<string>, bs: seq<Byte>, read: seq<Byte> -> Unit)
    requires BytesOf(chunks) == bs && NoneIsEmpty(chunks) && DecodedEach(chunks, read) == texts
    requires ConsumeAll(texts) != Whole(Decode(bs, read))
    ensures !AnyByteCutAgrees(bs, read)
  {
  }

  /** A cut whose two texts do not give what the whole gives. */
  ghost predicate Shows(texts: seq<string>, text: string) {
    ConsumeAll(texts) != Whole(text)
  }

  lemma CutShows(bs: seq<Byte>, i: nat, texts: seq<string>, read: seq<Byte> -> Unit)
    requires 0 < i < |bs| && texts == [Decode(bs[..i], read), Decode(bs[i..], read)] && Shows(texts, Decode(bs, read))
    ensures !AnyByteCutAgrees(bs, read)
  {
    assert bs[..i] + bs[i..] == bs;
    var chunks := TwoByteChunks(bs[..i], bs[i..], texts, read);
    ChunksShow(chunks, texts, bs, read);
  }

  lemma UnevenShows(bs: seq<Byte>, read: seq<Byte> -> Unit)
    requires IsUnitReader(read) && !IsEven(Decode(bs, read))
    ensures !AnyByteCutAgrees(bs, read)
  {
    var text := Decode(bs, read);
    var t :| IsTripleAt(text, t) && t + 3 != |text|;
    var a, b := text[..t + 3], text[t + 3..];
    assert IsTripleAt(a, t) && a + b == text;
    var i := CutAtChar(bs, t + 3, read);
    assert bs[..0] == [] && bs[|bs|..] == [];
    assert 0 < i < |bs|;
    CutAfterTriple(a, b);
    CutShows(bs, i, [a, b], read);
  }

  ghost predicate IsForeign(s: string) {
    s != "" && forall k :: 0 <= k < |s| ==> s[k] as int >= 0x80
  }

  lemma {:induction false} ForeignKept(s: string)
    requires s == "" || IsForeign(s)
    ensures Normalised(s) == s
  {
    if s != "" {
      assert s[|s| - 1] as int >= 0x80;
      var front := s[..|s| - 1];
      LastNormalised(s, front, 1);
      ForeignKept(front);
    }
  }

  lemma MiddleKept(head: string, mid: string, tail: string)
    requires IsForeign(mid)
    ensures |Normalised(head + mid + tail)| == |Normalised(head)| + |mid| + |Normalised(tail)|
  {
    assert mid[0] as int >= 0x80 && (head + mid)[|head + mid| - 1] == mid[|mid| - 1];
    ForeignKept(mid);
    NormalisedInTwo(head, mid);
    NormalisedInTwo(head + mid, tail);
  }

  lemma EvenAround(head: string, mid: string, other: string, tail: string)
    requires IsForeign(mid) && IsForeign(other) && IsEven(head + mid + tail)
    ensures IsEven(head + other + tail)
  {
    var s, t := head + mid + tail, head + other + tail;
    forall i | IsTripleAt(t, i) ensures i + 3 == |t| {
      forall k | |head| <= k < |head| + |other| ensures t[k] as int >= 0x80 { assert t[k] == other[k - |head|]; }
      if i + 2 < |head| {
        assert IsTripleAt(s, i);
      } else {
        assert t[|head|] as int >= 0x80 && t[|head| + |other| - 1] as int >= 0x80;
        InForeign(t, i, |head|, |head| + |other|);
        var j := i - |other| + |mid|;
        var m := i - |head| - |other|;
        assert t[i] == tail[m] == s[j] && t[i + 1] == tail[m + 1] == s[j + 1] && t[i + 2] == tail[m + 2] == s[j + 2];
        assert IsTripleAt(s, j);
      }
    }
  }

  lemma InForeign(t: string, i: int, from: nat, to: nat)
    requires IsTripleAt(t, i) && from < to <= |t| && i + 2 >= from && forall k :: from <= k < to ==> t[k] as int >= 0x80
    ensures i >= to
  {
    assert t[i] as int < 0x80 && t[i + 1] as int < 0x80 && t[i + 2] as int < 0x80;
  }

  lemma ReplacementsAreForeign(more: nat)
    ensures IsForeign([REPLACEMENT] + Replacements(more)) && |[REPLACEMENT] + Replacements(more)| == more + 1
  {
  }

  lemma MiddleShows(a: string, b: string, text: string, head: string, c: char, more: nat, tail: string)
    requires text == head + [c] + tail && a == head + [REPLACEMENT] && b == Replacements(more) + tail
    requires more >= 1 && c as int >= 0x80 && IsEven(text)
    ensures Shows([a, b], text)
  {
    var mid := [REPLACEMENT] + Replacements(more);
    ReplacementsAreForeign(more);
    assert a + b == head + mid + tail;
    TextsShow(a, b, head, mid, [c], tail);
  }

  lemma WideShows(bs: seq<Byte>, read: seq<Byte> -> Unit)
    requires IsUnitReader(read) && !AllSingle(bs, read) && IsEven(Decode(bs, read))
    ensures !AnyByteCutAgrees(bs, read)
  {
    var i, head, c, more, tail := CutInside(bs, read);
    ReadCutInside(bs, i, head, c, more, tail, read);
  }

  lemma ReadCutInside(bs: seq<Byte>, i: nat, head: string, c: char, more: nat, tail: string, read: seq<Byte> -> Unit)
    requires IsCutInside(bs, i, head, c, more, tail, read) && IsEven(Decode(bs, read))
    ensures !AnyByteCutAgrees(bs, read)
  {
    var a, b, text := Decode(bs[..i], read), Decode(bs[i..], read), Decode(bs, read);
    MiddleShows(a, b, text, head, c, more, tail);
    CutShows(bs, i, [a, b], read);
  }

  lemma TextsShow(a: string, b: string, head: string, mid: string, other: string, tail: string)
    requires a != "" && b != "" && a + b == head + mid + tail && IsForeign(mid) && IsForeign(other) && |mid| != |other|
    requires IsEven(head + other + tail)
    ensures Shows([a, b], head + other + tail)
  {
    EvenAround(head, other, mid, tail);
    TwoJoined(a, b);
    CutsDoNotMatter([a, b]);
    SizesDiffer(head, mid, other, tail);
  }

  lemma SizesDiffer(head: string, mid: string, other: string, tail: string)
    requires IsForeign(mid) && IsForeign(other) && |mid| != |other|
    ensures Whole(head + mid + tail) != Whole(head + other + tail)
  {
    SizeOfWhole(head + mid + tail);
    SizeOfWhole(head + other + tail);
    MiddleKept(head, mid, tail);
    MiddleKept(head, other, tail);
  }

  /** Over bytes, the frames and the leftover do not depend on the cuts exactly when every character, and every
      broken start of one, is a single byte, and no CR CR LF comes before the last character. */
  lemma AnyByteCutAgreesIff(bs: seq<Byte>, read: seq<Byte> -> Unit)
    requires IsUnitReader(read)
    ensures AnyByteCutAgrees(bs, read) <==> AllSingle(bs, read) && IsEven(Decode(bs, read))
  {
    if !IsEven(Decode(bs, read)) {
      UnevenShows(bs, read);
    } else if !AllSingle(bs, read) {
      WideShows(bs, read);
    } else {
      SingleAgrees(bs, read);
    }
  }

  /** The same of the UTF-8 decoder. */
  lemma Utf8CutsAgreeIff(bs: seq<Byte>)
    ensures AnyByteCutAgrees(bs, FirstUnit) <==> AllSingle(bs, FirstUnit) && IsEven(Decode(bs, FirstUnit))
  {
    FirstUnitIsReader();
    AnyByteCutAgreesIff(bs, FirstUnit);
  }
}
