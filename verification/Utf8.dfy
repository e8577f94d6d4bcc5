/** UTF-8 with replacement, as `bytes.decode("utf-8", errors="replace")` reads it: each character, and each
    longest start of one that breaks off, is one unit. */
module Utf8 {
  type Byte = b: int | 0 <= b < 256

  const REPLACEMENT: char := '\U{FFFD}'

  predicate IsContinuation(b: Byte) {
    0x80 <= b < 0xC0
  }

  /** How many bytes the character starting with this one has. */
  function Wanted(lead: Byte): nat {
    if 0xC2 <= lead < 0xE0 then 2 else if 0xE0 <= lead < 0xF0 then 3 else if 0xF0 <= lead < 0xF5 then 4 else 1
  }

  /** The second bytes that make no overlong form, no surrogate and nothing above the last code point. */
  predicate IsSecond(lead: Byte, b: Byte) {
    if lead == 0xE0 then 0xA0 <= b < 0xC0
    else if lead == 0xED then 0x80 <= b < 0xA0
    else if lead == 0xF0 then 0x90 <= b < 0xC0
    else if lead == 0xF4 then 0x80 <= b < 0x90
    else IsContinuation(b)
  }

  function UnitLength(bs: seq<Byte>): (n: nat)
    requires bs != []
    ensures 1 <= n <= |bs| && n <= Wanted(bs[0])
    ensures n > 1 ==> IsSecond(bs[0], bs[1])
    ensures forall k :: 1 <= k < n ==> IsContinuation(bs[k])
  {
    var wanted := Wanted(bs[0]);
    if wanted == 1 || |bs| == 1 || !IsSecond(bs[0], bs[1]) then 1
    else if wanted == 2 || |bs| == 2 || !IsContinuation(bs[2]) then 2
    else if wanted == 3 || |bs| == 3 || !IsContinuation(bs[3]) then 3
    else 4
  }

  function CodePoint(bs: seq<Byte>): int
    requires |bs| in {2, 3, 4}
  {
    var a, b := bs[0] as int, bs[1] as int - 0x80;
    if |bs| == 2 then (a - 0xC0) * 0x40 + b
    else if |bs| == 3 then (a - 0xE0) * 0x1000 + b * 0x40 + (bs[2] as int - 0x80)
    else (a - 0xF0) * 0x40000 + b * 0x1000 + (bs[2] as int - 0x80) * 0x40 + (bs[3] as int - 0x80)
  }

  function UnitChar(bs: seq<Byte>): (c: char)
    requires bs != []
    ensures bs[0] >= 0x80 ==> c as int >= 0x80
  {
    var n := UnitLength(bs);
    if bs[0] < 0x80 then (bs[0] as int) as char
    else if n == 1 || n != Wanted(bs[0]) then REPLACEMENT
    else
      var point := CodePoint(bs[..n]);
      assert 0x80 <= point < 0xD800 || 0xE000 <= point < 0x11_0000;
      point as char
  }

  /** The first unit of some bytes: its length and its character. */
  datatype Unit = Unit(length: nat, c: char)

  function FirstUnit(bs: seq<Byte>): Unit {
    if bs == [] then Unit(0, REPLACEMENT) else Unit(UnitLength(bs), UnitChar(bs))
  }

  // ---------- what cutting bytes does to units ----------

  predicate Look(bs: seq<Byte>) {
    true
  }

  /** Units as a function value with the facts that matter to cuts: a unit is not changed by what follows it, and a
      unit of several bytes, cut behind its first byte, leaves bytes that are replaced one by one. */
  ghost predicate IsUnitReader(read: seq<Byte> -> Unit) {
    forall bs {:trigger Look(bs)} :: bs != [] ==> ReadsUnit(read, bs)
  }

  ghost predicate ReadsUnit(read: seq<Byte> -> Unit, bs: seq<Byte>)
    requires bs != []
  {
    && 1 <= read(bs).length <= |bs|
    && (forall i {:trigger Look(bs[..i])} :: read(bs).length <= i <= |bs| ==> read(bs[..i]) == read(bs))
    && (IsContinuation(bs[0]) ==> read(bs) == Unit(1, REPLACEMENT))
    && (read(bs).length > 1 ==> read(bs).c as int >= 0x80 && read([bs[0]]) == Unit(1, REPLACEMENT))
    && (forall k :: 1 <= k < read(bs).length ==> IsContinuation(bs[k]))
  }

  lemma UnitStays(bs: seq<Byte>, i: nat)
    requires bs != [] && UnitLength(bs) <= i <= |bs|
    ensures FirstUnit(bs[..i]) == FirstUnit(bs)
  {
    var n := UnitLength(bs);
    assert bs[..i][..n] == bs[..n];
  }

  lemma FirstUnitReads(bs: seq<Byte>)
    requires bs != []
    ensures ReadsUnit(FirstUnit, bs)
  {
    forall i | FirstUnit(bs).length <= i <= |bs| ensures FirstUnit(bs[..i]) == FirstUnit(bs) { UnitStays(bs, i); }
  }

  lemma FirstUnitIsReader()
    ensures IsUnitReader(FirstUnit)
  {
    forall bs: seq<Byte> | bs != [] ensures ReadsUnit(FirstUnit, bs) { FirstUnitReads(bs); }
  }

  function Decode(bs: seq<Byte>, read: seq<Byte> -> Unit): string
    decreases |bs|
  {
    if bs == [] then ""
    else
      var unit := read(bs);
      [unit.c] + if 1 <= unit.length <= |bs| then Decode(bs[unit.length..], read) else ""
  }

  lemma DecodeStep(bs: seq<Byte>, read: seq<Byte> -> Unit)
    requires bs != [] && ReadsUnit(read, bs)
    ensures Decode(bs, read) == [read(bs).c] + Decode(bs[read(bs).length..], read)
  {
  }

  /** A prefix that holds the first unit decodes as that unit and the prefix of what follows. */
  lemma DecodePrefix(bs: seq<Byte>, i: nat, n: nat, c: char, rest: seq<Byte>, pre: seq<Byte>, read: seq<Byte> -> Unit)
    requires bs != [] && IsUnitReader(read) && read(bs) == Unit(n, c) && n <= i <= |bs| && pre == bs[..i]
    requires n <= |bs| && rest == bs[n..]
    ensures 1 <= n && Decode(bs, read) == [c] + Decode(rest, read)
    ensures pre != [] && read(pre) == read(bs) && Decode(pre, read) == [c] + Decode(rest[..i - n], read)
    ensures bs[i..] == rest[i - n..]
  {
    assert Look(bs) && Look(bs[..i]) && Look(pre);
    DecodeStep(bs, read);
    DecodeStep(pre, read);
    assert pre[n..] == rest[..i - n];
  }

  lemma FirstFits(bs: seq<Byte>, read: seq<Byte> -> Unit)
    requires bs != [] && IsUnitReader(read)
    ensures 1 <= read(bs).length <= |bs|
  {
    assert Look(bs);
  }

  /** A cut between two characters of the text cuts the bytes between two units. */
  lemma {:induction false} CutAtChar(bs: seq<Byte>, j: nat, read: seq<Byte> -> Unit) returns (i: nat)
    requires IsUnitReader(read) && j <= |Decode(bs, read)|
    ensures i <= |bs| && Decode(bs[..i], read) == Decode(bs, read)[..j]
    ensures Decode(bs[i..], read) == Decode(bs, read)[j..]
    decreases |bs|
  {
    if j == 0 {
      i := 0;
      assert bs[0..] == bs && bs[..0] == [];
    } else {
      FirstFits(bs, read);
      var n, c := read(bs).length, read(bs).c;
      var rest := bs[n..];
      DecodePrefix(bs, n, n, c, rest, bs[..n], read);
      var k := CutAtChar(rest, j - 1, read);
      i := n + k;
      DecodePrefix(bs, i, n, c, rest, bs[..i], read);
      Consed(c, Decode(rest, read), Decode(bs, read), j);
    }
  }

  lemma Consed(c: char, rest: string, all: string, j: nat)
    requires all == [c] + rest && 0 < j <= |all|
    ensures all[..j] == [c] + rest[..j - 1] && all[j..] == rest[j - 1..]
  {
  }

  // ---------- bytes that decode one by one ----------

  /** Every unit is one byte. */
  predicate AllSingle(bs: seq<Byte>, read: seq<Byte> -> Unit)
    decreases |bs|
  {
    bs == [] || (read(bs).length == 1 && AllSingle(bs[1..], read))
  }

  lemma {:induction false} SinglePrefix(bs: seq<Byte>, i: nat, read: seq<Byte> -> Unit)
    requires IsUnitReader(read) && AllSingle(bs, read) && i <= |bs|
    ensures AllSingle(bs[..i], read) && AllSingle(bs[i..], read)
    ensures Decode(bs, read) == Decode(bs[..i], read) + Decode(bs[i..], read)
    decreases |bs|
  {
    if i == 0 {
      assert bs[..0] == [] && bs[0..] == bs;
      assert Decode([], read) + Decode(bs, read) == Decode(bs, read);
    } else {
      var rest := bs[1..];
      SinglePrefix(rest, i - 1, read);
      DecodePrefix(bs, i, 1, read(bs).c, rest, bs[..i], read);
      SingleStep(bs[..i], rest[..i - 1], read);
      ConsAssociates([read(bs).c], Decode(rest[..i - 1], read), Decode(rest[i - 1..], read));
    }
  }

  lemma ConsAssociates(a: string, b: string, c: string)
    ensures a + (b + c) == (a + b) + c
  {
  }

  lemma SingleStep(pre: seq<Byte>, rest: seq<Byte>, read: seq<Byte> -> Unit)
    requires pre != [] && read(pre).length == 1 && rest == pre[1..] && AllSingle(rest, read)
    ensures AllSingle(pre, read)
  {
  }

  function Replacements(n: nat): (s: string)
    ensures |s| == n && forall k :: 0 <= k < n ==> s[k] == REPLACEMENT
  {
    seq(n, k => REPLACEMENT)
  }

  lemma OneMoreReplacement(n: nat, tail: string)
    ensures [REPLACEMENT] + (Replacements(n) + tail) == Replacements(n + 1) + tail
  {
    assert [REPLACEMENT] + Replacements(n) == Replacements(n + 1);
  }

  lemma {:induction false} ContinuationsAlone(bs: seq<Byte>, n: nat, read: seq<Byte> -> Unit)
    requires IsUnitReader(read) && n <= |bs| && forall k :: 0 <= k < n ==> IsContinuation(bs[k])
    ensures Decode(bs, read) == Replacements(n) + Decode(bs[n..], read)
    decreases n
  {
    if n == 0 {
      assert bs[0..] == bs && Replacements(0) + Decode(bs, read) == Decode(bs, read);
    } else {
      assert Look(bs);
      DecodeStep(bs, read);
      var rest := bs[1..];
      ContinuationsAlone(rest, n - 1, read);
      assert rest[n - 1..] == bs[n..];
      OneMoreReplacement(n - 1, Decode(bs[n..], read));
    }
  }

  /** The text around a unit of several bytes, and what a cut behind its first byte makes of it. */
  ghost predicate IsCutInside(bs: seq<Byte>, i: nat, head: string, c: char, more: nat, tail: string,
                              read: seq<Byte> -> Unit) {
    && 0 < i < |bs| && more >= 1 && c as int >= 0x80
    && Decode(bs, read) == head + [c] + tail
    && Decode(bs[..i], read) == head + [REPLACEMENT]
    && Decode(bs[i..], read) == Replacements(more) + tail
  }

  lemma WideUnit(bs: seq<Byte>, read: seq<Byte> -> Unit) returns (c: char, more: nat, tail: string)
    requires IsUnitReader(read) && bs != [] && read(bs).length > 1
    ensures IsCutInside(bs, 1, "", c, more, tail, read)
  {
    assert Look(bs);
    var n := read(bs).length;
    c, more, tail := read(bs).c, n - 1, Decode(bs[n..], read);
    DecodeStep(bs, read);
    assert "" + [c] + tail == [c] + tail;
    assert bs[..1] == [bs[0]] && [bs[0]][1..] == [];
    assert Decode([bs[0]], read) == [REPLACEMENT] + Decode([], read);
    assert bs[1..][n - 1..] == bs[n..];
    ContinuationsAlone(bs[1..], n - 1, read);
  }

  lemma LaterCut(bs: seq<Byte>, i: nat, head: string, c: char, more: nat, tail: string, read: seq<Byte> -> Unit)
    requires IsUnitReader(read) && bs != [] && read(bs).length == 1
    requires IsCutInside(bs[1..], i, head, c, more, tail, read)
    ensures IsCutInside(bs, i + 1, [read(bs).c] + head, c, more, tail, read)
  {
    DecodePrefix(bs, i + 1, 1, read(bs).c, bs[1..], bs[..i + 1], read);
    assert [read(bs).c] + (head + [c] + tail) == [read(bs).c] + head + [c] + tail;
    assert [read(bs).c] + (head + [REPLACEMENT]) == [read(bs).c] + head + [REPLACEMENT];
  }

  /** Where some unit has several bytes, it can be cut behind its first byte. */
  lemma {:induction false} CutInside(bs: seq<Byte>, read: seq<Byte> -> Unit)
      returns (i: nat, head: string, c: char, more: nat, tail: string)
    requires IsUnitReader(read) && !AllSingle(bs, read)
    ensures IsCutInside(bs, i, head, c, more, tail, read)
    decreases |bs|
  {
    assert Look(bs);
    if read(bs).length == 1 {
      i, head, c, more, tail := CutInside(bs[1..], read);
      LaterCut(bs, i, head, c, more, tail, read);
      i, head := i + 1, [read(bs).c] + head;
    } else {
      i, head := 1, "";
      c, more, tail := WideUnit(bs, read);
    }
  }
}
