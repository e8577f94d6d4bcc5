/** The event-stream subscriber: chunks of characters in, frames out, one event for each frame with data. */
module EventStream {
  import opened Text
  import opened Sorting
  import opened Utf8

  // ---------- framing ----------

  /** Every CR LF becomes LF, in one pass. */
  function Normalised(s: string): string {
    if s == "" then ""
    else if |s| >= 2 && s[|s| - 1] == '\n' && s[|s| - 2] == '\r' then Normalised(s[..|s| - 2]) + "\n"
    else Normalised(s[..|s| - 1]) + [s[|s| - 1]]
  }

  predicate IsBlankAt(s: string, i: int) {
    0 <= i && i + 1 < |s| && s[i] == '\n' && s[i + 1] == '\n'
  }

  /** Where the first blank line starts, or -1. */
  function BlankFrom(s: string, from: nat): (r: int)
    ensures r == -1 || (from <= r && IsBlankAt(s, r))
    ensures forall k :: from <= k && (r < 0 || k < r) ==> !IsBlankAt(s, k)
    decreases |s| - from
  {
    if from + 1 >= |s| then -1 else if IsBlankAt(s, from) then from else BlankFrom(s, from + 1)
  }

  /** The text split at each blank line, leftmost first, without what is left over. */
  function Frames(s: string): seq<string>
    decreases |s|
  {
    var i := BlankFrom(s, 0);
    if i < 0 then [] else [s[..i]] + Frames(s[i + 2..])
  }

  function Leftover(s: string): string
    decreases |s|
  {
    var i := BlankFrom(s, 0);
    if i < 0 then s else Leftover(s[i + 2..])
  }

  /** What one chunk adds to the frames, and the buffer after it. */
  function Consume(buffer: string, chunk: string): (seq<string>, string) {
    var text := Normalised(buffer + chunk);
    (Frames(text), Leftover(text))
  }

  function ConsumeAll(chunks: seq<string>): (seq<string>, string) {
    if chunks == [] then ([], "")
    else
      var (frames, buffer) := ConsumeAll(chunks[..|chunks| - 1]);
      var (more, rest) := Consume(buffer, chunks[|chunks| - 1]);
      (frames + more, rest)
  }

  /** The text of each chunk, decoded on its own. */
  function DecodedEach(chunks: seq<seq<Byte>>, read: seq<Byte> -> Unit): (texts: seq<string>)
    ensures |texts| == |chunks| && forall k :: 0 <= k < |chunks| ==> texts[k] == Decode(chunks[k], read)
  {
    seq(|chunks|, k requires 0 <= k < |chunks| => Decode(chunks[k], read))
  }

  method Replace(s: string) returns (out: string)
    ensures out == Normalised(s)
  {
    var i := 0;
    out := "";
    while i < |s|
      invariant i <= |s| && out == Normalised(s[..i])
      invariant 0 < i < |s| && s[i - 1] == '\r' ==> s[i] != '\n'
    {
      if s[i] == '\r' && i + 1 < |s| && s[i + 1] == '\n' {
        assert s[..i + 2][..i] == s[..i];
        out := out + "\n";
        i := i + 2;
      } else {
        assert s[..i + 1][..i] == s[..i];
        out := out + [s[i]];
        i := i + 1;
      }
    }
    assert s[..|s|] == s;
  }

  /** The framing loop: decode, append, normalise, and take whole frames off the front. */
  method ConsumeOnce(chunks: seq<seq<Byte>>) returns (frames: seq<string>, buffer: string)
    ensures (frames, buffer) == ConsumeAll(DecodedEach(chunks, FirstUnit))
  {
    frames, buffer := [], "";
    ghost var texts := DecodedEach(chunks, FirstUnit);
    for k := 0 to |chunks|
      invariant (frames, buffer) == ConsumeAll(texts[..k])
    {
      assert texts[..k + 1][..k] == texts[..k];
      buffer := buffer + Decode(chunks[k], FirstUnit);
      buffer := Replace(buffer);
      frames, buffer := TakeFrames(frames, buffer);
    }
    assert texts[..|texts|] == texts;
  }

  method TakeFrames(taken: seq<string>, text: string) returns (frames: seq<string>, buffer: string)
    ensures frames == taken + Frames(text) && buffer == Leftover(text)
  {
    frames, buffer := taken, text;
    while BlankFrom(buffer, 0) >= 0
      invariant frames + Frames(buffer) == taken + Frames(text) && Leftover(buffer) == Leftover(text)
      decreases |buffer|
    {
      var i := BlankFrom(buffer, 0);
      assert frames + ([buffer[..i]] + Frames(buffer[i + 2..])) == (frames + [buffer[..i]]) + Frames(buffer[i + 2..]);
      frames, buffer := frames + [buffer[..i]], buffer[i + 2..];
    }
    assert frames + [] == frames;
  }

  // ---------- one frame ----------

  /** The event being read: its name, and its data lines so far. */
  datatype Pending = Pending(name: string, data: seq<string>)

  const START := Pending("message", [])

  datatype Event = Event(name: string, raw: string)

  function WithoutSpaces(s: string): string {
    if s != "" && s[0] == ' ' then WithoutSpaces(s[1..]) else s
  }

  function FieldOf(line: string): string {
    var i := IndexOf(line, ':', 0);
    if i < 0 then line else line[..i]
  }

  function ValueOf(line: string): string {
    var i := IndexOf(line, ':', 0);
    if i < 0 then "" else line[i + 1..]
  }

  /** A line that starts with a colon is a comment; other fields are ignored. */
  function ReadField(p: Pending, line: string): Pending {
    if StartsWith(line, ":") then p
    else if FieldOf(line) == "event" then p.(name := Trim(ValueOf(line)))
    else if FieldOf(line) == "data" then p.(data := p.data + [WithoutSpaces(ValueOf(line))])
    else p
  }

  function ReadLines(p: Pending, lines: seq<string>, read: (Pending, string) -> Pending): Pending
    decreases |lines|
  {
    if lines == [] then p else ReadLines(read(p, lines[0]), lines[1..], read)
  }

  /** An event without data lines is dropped. */
  function Emitted(p: Pending): seq<Event> {
    if p.data == [] then [] else [Event(p.name, Join(p.data, "\n"))]
  }

  function FrameEvents(frame: string, read: (Pending, string) -> Pending): seq<Event> {
    Emitted(ReadLines(START, Split(frame, '\n'), read))
  }

  method DispatchFrame(frame: string) returns (events: seq<Event>)
    ensures events == FrameEvents(frame, ReadField)
  {
    var lines := Split(frame, '\n');
    var name, data := "message", [];
    for k := 0 to |lines|
      invariant ReadLines(Pending(name, data), lines[k..], ReadField) == ReadLines(START, lines, ReadField)
    {
      assert lines[k..][0] == lines[k] && lines[k..][1..] == lines[k + 1..];
      if !StartsWith(lines[k], ":") {
        var field, value := FieldOf(lines[k]), ValueOf(lines[k]);
        if field == "event" {
          name := Trim(value);
        } else if field == "data" {
          data := data + [WithoutSpaces(value)];
        }
      }
    }
    if data == [] { return []; }
    return [Event(name, Join(data, "\n"))];
  }
}
