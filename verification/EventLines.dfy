/** The frames carry the events that the lines of the stream carry, as section 9.2.6 of the WHATWG HTML Living
    Standard reads them: fields are collected until a blank line, which dispatches the event. */
module EventLines {
  import opened Text
  import opened EventStream
  import opened EventStreamTheorems

  /** Line by line: a blank line emits what is pending and starts afresh; an unfinished line is not read. */
  function LineEvents(p: Pending, text: string, read: (Pending, string) -> Pending): seq<Event>
    decreases |text|
  {
    var i := IndexOf(text, '\n', 0);
    if i < 0 then []
    else if i == 0 then Emitted(p) + LineEvents(START, text[1..], read)
    else LineEvents(read(p, text[..i]), text[i + 1..], read)
  }

  function StreamEvents(frames: seq<string>, read: (Pending, string) -> Pending): seq<Event> {
    if frames == [] then [] else FrameEvents(frames[0], read) + StreamEvents(frames[1..], read)
  }

  ghost predicate SkipsBlank(read: (Pending, string) -> Pending) {
    forall p :: read(p, "") == p
  }

  /** No blank line inside, nor at the end. */
  ghost predicate IsTight(f: string) {
    forall k :: !IsBlankAt(f + "\n", k)
  }

  predicate StartsBlank(f: string) {
    f == "" || f[0] == '\n'
  }

  lemma TightRest(f: string, i: nat)
    requires IsTight(f) && i < |f| && f[i] == '\n'
    ensures IsTight(f[i + 1..]) && !StartsBlank(f[i + 1..])
  {
    var rest := f[i + 1..];
    assert !IsBlankAt(f + "\n", i);
    forall k ensures !IsBlankAt(rest + "\n", k) {
      assert (f + "\n")[i + 1..] == rest + "\n";
      assert IsBlankAt(rest + "\n", k) ==> IsBlankAt(f + "\n", k + i + 1);
    }
  }

  lemma FirstLine(f: string, i: nat, tail: string, read: (Pending, string) -> Pending, p: Pending)
    requires i < |f| && IndexOf(f, '\n', 0) == i
    ensures LineEvents(p, f + tail, read) ==
      if i == 0 then Emitted(p) + LineEvents(START, f[1..] + tail, read)
      else LineEvents(read(p, f[..i]), f[i + 1..] + tail, read)
  {
    var text := f + tail;
    NoneBeforeIndexOf(f, '\n', 0);
    IndexOfIs(text, '\n', 0, i);
    assert text[..i] == f[..i] && text[i + 1..] == f[i + 1..] + tail;
  }

  /** The same, with the frame's own line end and what follows it. */
  lemma FirstLineOfFrame(f: string, i: nat, tail: string, read: (Pending, string) -> Pending, p: Pending)
    requires i < |f| && IndexOf(f, '\n', 0) == i
    ensures LineEvents(p, f + "\n" + tail, read) ==
      if i == 0 then Emitted(p) + LineEvents(START, f[1..] + "\n" + tail, read)
      else LineEvents(read(p, f[..i]), f[i + 1..] + "\n" + tail, read)
  {
    FirstLine(f, i, "\n" + tail, read, p);
    Regrouped(f, "\n", tail);
    Regrouped(f[i + 1..], "\n", tail);
  }

  lemma ReadSplit(p: Pending, f: string, i: nat, read: (Pending, string) -> Pending)
    requires i < |f| && IndexOf(f, '\n', 0) == i
    ensures ReadLines(p, Split(f, '\n'), read) == ReadLines(read(p, f[..i]), Split(f[i + 1..], '\n'), read)
  {
    assert Split(f, '\n') == [f[..i]] + Split(f[i + 1..], '\n');
    assert ([f[..i]] + Split(f[i + 1..], '\n'))[1..] == Split(f[i + 1..], '\n');
  }

  lemma ReadOne(p: Pending, f: string, read: (Pending, string) -> Pending)
    requires IndexOf(f, '\n', 0) < 0
    ensures ReadLines(p, Split(f, '\n'), read) == read(p, f)
  {
    assert [f][1..] == [];
    assert ReadLines(read(p, f), [], read) == read(p, f);
  }

  lemma LastLine(p: Pending, f: string, tail: string, read: (Pending, string) -> Pending)
    requires IndexOf(f, '\n', 0) < 0
    ensures LineEvents(p, f + "\n" + tail, read) ==
      if f == "" then Emitted(p) + LineEvents(START, tail, read) else LineEvents(read(p, f), tail, read)
  {
    var text := f + "\n" + tail;
    NoneBeforeIndexOf(f, '\n', 0);
    IndexOfIs(text, '\n', 0, |f|);
    assert text[..|f|] == f && text[|f| + 1..] == tail;
  }

  /** Reading the lines of a frame one by one leaves what reading the frame leaves. */
  lemma {:induction false} FrameLines(p: Pending, f: string, tail: string, read: (Pending, string) -> Pending)
    requires SkipsBlank(read) && IsTight(f) && (StartsBlank(f) ==> p == START)
    ensures LineEvents(p, f + "\n" + tail, read) == LineEvents(ReadLines(p, Split(f, '\n'), read), tail, read)
    decreases |f|
  {
    var i := IndexOf(f, '\n', 0);
    if i < 0 {
      LastLine(p, f, tail, read);
      ReadOne(p, f, read);
    } else {
      var rest := f[i + 1..];
      TightRest(f, i);
      FirstLineOfFrame(f, i, tail, read, p);
      ReadSplit(p, f, i, read);
      FrameLines(read(p, f[..i]), rest, tail, read);
    }
  }

  /** Without a blank line nothing is dispatched. */
  lemma {:induction false} NothingDispatched(p: Pending, s: string, read: (Pending, string) -> Pending)
    requires (forall k :: !IsBlankAt(s, k)) && (s != "" && s[0] == '\n' ==> p == START)
    ensures LineEvents(p, s, read) == []
    decreases |s|
  {
    var i := IndexOf(s, '\n', 0);
    if i >= 0 {
      var rest := s[i + 1..];
      assert !IsBlankAt(s, i);
      forall k ensures !IsBlankAt(rest, k) { assert IsBlankAt(rest, k) ==> IsBlankAt(s, k + i + 1); }
      if i == 0 { NothingDispatched(START, rest, read); } else { NothingDispatched(read(p, s[..i]), rest, read); }
    }
  }

  lemma FrameIsTight(s: string, f: string, rest: string)
    requires BlankFrom(s, 0) == |f| && s == f + "\n\n" + rest
    ensures IsTight(f)
  {
    forall k ensures !IsBlankAt(f + "\n", k) { assert IsBlankAt(f + "\n", k) ==> IsBlankAt(s, k) && k < |f|; }
  }

  /** The text before a blank line, as a frame and two line ends. */
  lemma SplitAtBlank(s: string) returns (f: string, rest: string)
    requires BlankFrom(s, 0) >= 0
    ensures s == f + "\n\n" + rest && s == f + "\n" + ("\n" + rest) && BlankFrom(s, 0) == |f|
    ensures Frames(s) == [f] + Frames(rest)
  {
    var i := BlankFrom(s, 0);
    f, rest := s[..i], s[i + 2..];
  }

  lemma BlankLine(p: Pending, rest: string, read: (Pending, string) -> Pending)
    ensures LineEvents(p, "\n" + rest, read) == Emitted(p) + LineEvents(START, rest, read)
  {
    LastLine(p, "", rest, read);
    assert "" + "\n" + rest == "\n" + rest;
  }

  lemma OneFrame(f: string, more: seq<string>, read: (Pending, string) -> Pending)
    ensures StreamEvents([f] + more, read) == FrameEvents(f, read) + StreamEvents(more, read)
  {
    assert ([f] + more)[1..] == more;
  }

  /** Over any text, the events of its frames are the events of its lines. */
  lemma {:induction false} FramesCarryTheLines(s: string, read: (Pending, string) -> Pending)
    requires SkipsBlank(read)
    ensures StreamEvents(Frames(s), read) == LineEvents(START, s, read)
    decreases |s|
  {
    if BlankFrom(s, 0) < 0 {
      NothingDispatched(START, s, read);
    } else {
      var f, rest := SplitAtBlank(s);
      FrameIsTight(s, f, rest);
      FrameLines(START, f, "\n" + rest, read);
      BlankLine(ReadLines(START, Split(f, '\n'), read), rest, read);
      OneFrame(f, Frames(rest), read);
      FramesCarryTheLines(rest, read);
    }
  }

  lemma ReadFieldSkipsBlank()
    ensures SkipsBlank(ReadField)
  {
    forall p: Pending ensures ReadField(p, "") == p { }
  }

  /** However an even stream is cut, the subscriber dispatches the events of its normalised lines. */
  lemma SubscriberReadsLines(chunks: seq<string>, read: (Pending, string) -> Pending)
    requires IsEven(Joined(chunks)) && NoneEmpty(chunks) && SkipsBlank(read)
    ensures StreamEvents(ConsumeAll(chunks).0, read) == LineEvents(START, Normalised(Joined(chunks)), read)
  {
    CutsDoNotMatter(chunks);
    FramesCarryTheLines(Normalised(Joined(chunks)), read);
  }

  /** The standard takes one space off a value. */
  function WithoutOneSpace(s: string): string {
    if s != "" && s[0] == ' ' then s[1..] else s
  }

  lemma {:induction false} SpacesOff(s: string)
    ensures |WithoutSpaces(s)| <= |s|
    ensures WithoutSpaces(s) == s <==> !(s != "" && s[0] == ' ')
  {
    if s != "" && s[0] == ' ' { SpacesOff(s[1..]); }
  }

  /** Data is read as the standard reads it exactly when it does not start with two spaces. */
  lemma DataReadsAsStandard(value: string)
    ensures WithoutSpaces(value) == WithoutOneSpace(value) <==> !(|value| >= 2 && value[0] == ' ' && value[1] == ' ')
  {
    SpacesOff(value);
    if value != "" { SpacesOff(value[1..]); }
  }
}
