/** From the server's frames through the wire to what the client shows. */
module StreamDelivery {
  import opened Options
  import opened Decimal
  import opened TextLines
  import opened EventFrames
  import opened FrameParser

  // ---- A printed frame parses back ----

  predicate NoBreak(s: string) {
    forall i | 0 <= i < |s| :: s[i] != '\n'
  }

  lemma {:induction false} SplitNoBreak(s: string, rest: string)
    requires NoBreak(s)
    ensures SplitLines(s) == [s]
    ensures SplitLines(s + "\n" + rest) == [s] + SplitLines(rest)
  {
    if s == "" {
      assert (s + "\n" + rest)[1..] == rest;
    } else {
      SplitNoBreak(s[1..], rest);
      assert (s + "\n" + rest)[1..] == s[1..] + "\n" + rest;
      assert [s[0]] + s[1..] == s;
      var tail := SplitLines(s[1..] + "\n" + rest);
      assert tail[0] == s[1..] && tail[1..] == SplitLines(rest);
    }
  }

  lemma {:induction false} SplitJoined(lines: seq<string>)
    requires lines != [] && forall i | 0 <= i < |lines| :: NoBreak(lines[i])
    ensures SplitLines(Join(lines)) == lines
  {
    if |lines| == 1 {
      SplitNoBreak(lines[0], "");
    } else {
      SplitJoined(lines[1..]);
      SplitNoBreak(lines[0], Join(lines[1..]));
    }
  }

  lemma {:induction false} FieldAndValue(name: string, value: string)
    requires forall i | 0 <= i < |name| :: name[i] != ':'
    ensures Colon(name + ": " + value) == |name|
    ensures FieldOf(name + ": " + value) == name && ValueOf(name + ": " + value) == value
  {
    ColonAfter(name, value);
    var line := name + ": " + value;
    assert line[..|name|] == name;
    assert line[|name| + 1..] == " " + value;
  }

  lemma {:induction false} ColonAfter(name: string, value: string)
    requires forall i | 0 <= i < |name| :: name[i] != ':'
    ensures Colon(name + ": " + value) == |name|
  {
    if name != "" {
      ColonAfter(name[1..], value);
      assert (name + ": " + value)[1..] == name[1..] + ": " + value;
    }
  }

  lemma {:induction false} DigitsPlain(n: nat)
    ensures OneLine(Digits(n))
  {
    DigitsRead(n);
  }

  function Trimmed(f: Frame): Frame {
    f.(event := Strip(f.event))
  }

  lemma {:induction false} AbsorbThree(a: string, b: string, c: string)
    ensures AbsorbAll([a, b, c]) == Absorb(Absorb(Absorb(Fields(None, "message", []), a), b), c)
  {
    assert [a, b, c][..2] == [a, b] && [a, b][..1] == [a] && [a][..0] == [];
    assert AbsorbAll([a]) == Absorb(AbsorbAll([]), a);
    assert AbsorbAll([a, b]) == Absorb(AbsorbAll([a]), b);
  }

  lemma {:induction false} AbsorbField(fields: Fields, name: string, value: string)
    requires name in ["id", "event", "data"]
    ensures Absorb(fields, name + ": " + value)
         == if name == "id" then (if value != "" && AllDigits(value) then fields.(id := Some(Number(value))) else fields)
            else if name == "event" then (if value != "" && OneLine(value) then fields.(event := value) else fields)
            else fields.(data := fields.data + [value])
  {
    FieldAndValue(name, value);
    assert (name + ": " + value)[0] == name[0];
  }

  lemma {:induction false} AbsorbLines(codec: Codec, f: Frame)
    requires codec.Lawful() && Printable(f)
    ensures AbsorbAll(Lines(codec, f)) == Fields(Some(f.id), Strip(f.event), [codec.encode(f.data)])
  {
    var start, named := Fields(None, "message", []), Fields(Some(f.id), "message", []);
    DigitsRead(f.id);
    AbsorbThree("id: " + Digits(f.id), "event: " + Strip(f.event), "data: " + codec.encode(f.data));
    AbsorbField(start, "id", Digits(f.id));
    AbsorbField(named, "event", Strip(f.event));
    AbsorbField(named.(event := Strip(f.event)), "data", codec.encode(f.data));
    assert "id" + ": " == "id: " && "event" + ": " == "event: " && "data" + ": " == "data: ";
  }

  lemma {:induction false} LinesPlain(codec: Codec, f: Frame)
    requires codec.Lawful() && Printable(f)
    ensures forall i | 0 <= i < 3 :: Lines(codec, f)[i] != "" && OneLine(Lines(codec, f)[i])
    ensures forall i | 0 <= i < 3 :: NoBreak(Lines(codec, f)[i])
  {
    DigitsPlain(f.id);
  }

  /** A printed frame parses back to itself, its event name trimmed. */
  lemma {:induction false} PrintedParses(codec: Codec, f: Frame)
    requires codec.Lawful() && Printable(f)
    ensures Parse(codec, Join(Lines(codec, f))) == Some(Trimmed(f))
  {
    LinesPlain(codec, f);
    SplitJoined(Lines(codec, f));
    AbsorbLines(codec, f);
    assert Join([codec.encode(f.data)]) == codec.encode(f.data);
  }

  // ---- A printed stream is cut into its frames ----

  /** No line end at the end, no two in a row. */
  predicate Tidy(s: string) {
    forall i | 0 <= i < |s| && s[i] == '\n' :: i + 1 < |s| && s[i + 1] != '\n'
  }

  lemma {:induction false} TidyBoundary(raw: string, rest: string)
    requires Tidy(raw)
    ensures Boundary(raw + "\n\n" + rest) == Some(|raw|)
  {
    var s := raw + "\n\n" + rest;
    if raw != "" {
      assert forall i | 0 <= i < |raw[1..]| :: raw[1..][i] == raw[i + 1];
      TidyBoundary(raw[1..], rest);
      assert s[1..] == raw[1..] + "\n\n" + rest;
      assert s[0] == raw[0] && (|raw| > 1 ==> s[1] == raw[1]);
    }
  }

  lemma {:induction false} JoinTidy(lines: seq<string>)
    requires lines != [] && forall i | 0 <= i < |lines| :: lines[i] != "" && NoBreak(lines[i])
    ensures Tidy(Join(lines)) && Join(lines) != "" && Join(lines)[0] != '\n'
  {
    if |lines| > 1 {
      var first, rest := lines[0], Join(lines[1..]);
      JoinTidy(lines[1..]);
      assert Join(lines) == first + "\n" + rest;
      assert forall i | 0 <= i < |first| :: Join(lines)[i] == first[i];
      forall i | 0 <= i < |Join(lines)| && Join(lines)[i] == '\n'
        ensures i + 1 < |Join(lines)| && Join(lines)[i + 1] != '\n'
      {
        if i > |first| {
          assert Join(lines)[i] == rest[i - |first| - 1];
          assert Join(lines)[i + 1] == rest[i - |first|];
        } else if i == |first| {
          assert Join(lines)[i + 1] == rest[0];
        }
      }
    }
  }

  predicate AllPrintable(frames: seq<Frame>) {
    forall i | 0 <= i < |frames| :: Printable(frames[i])
  }

  function AllTrimmed(frames: seq<Frame>): seq<Frame> {
    seq(|frames|, i requires 0 <= i < |frames| => Trimmed(frames[i]))
  }

  lemma {:induction false} TrimmedFirst(frames: seq<Frame>)
    requires frames != []
    ensures AllTrimmed(frames) == [Trimmed(frames[0])] + AllTrimmed(frames[1..])
  {
  }

  lemma {:induction false} StreamFirst(codec: Codec, frames: seq<Frame>)
    requires codec.Lawful() && AllPrintable(frames) && frames != []
    ensures var raw := Join(Lines(codec, frames[0]));
      Raws(Stream(codec, frames)) == [raw] + Raws(Stream(codec, frames[1..]))
      && Rest(Stream(codec, frames)) == Rest(Stream(codec, frames[1..]))
  {
    var raw, rest := Join(Lines(codec, frames[0])), Stream(codec, frames[1..]);
    LinesPlain(codec, frames[0]);
    JoinTidy(Lines(codec, frames[0]));
    TidyBoundary(raw, rest);
    var s := Stream(codec, frames);
    assert s == raw + "\n\n" + rest;
    assert s[..|raw|] == raw && s[|raw| + 2..] == rest;
  }

  /** The printed stream parses back to its frames, and nothing is left over. */
  lemma {:induction false} StreamParses(codec: Codec, frames: seq<Frame>)
    requires codec.Lawful() && AllPrintable(frames)
    ensures Frames(codec, Raws(Stream(codec, frames))) == AllTrimmed(frames)
    ensures Rest(Stream(codec, frames)) == ""
  {
    if frames != [] {
      var raw := Join(Lines(codec, frames[0]));
      StreamFirst(codec, frames);
      StreamParses(codec, frames[1..]);
      PrintedParses(codec, frames[0]);
      FramesFirst(codec, raw, Raws(Stream(codec, frames[1..])));
      TrimmedFirst(frames);
    }
  }

  lemma {:induction false} FramesFirst(codec: Codec, raw: string, rest: seq<string>)
    ensures Frames(codec, [raw] + rest)
         == (var f := Parse(codec, raw); if f.Some? then [f.value] else []) + Frames(codec, rest)
  {
    FramesAppend(codec, [raw], rest);
    assert [raw][..0] == [] && Frames(codec, []) == [];
  }

  // ---- Printed text has no CR, so every chunking of it is safe ----

  predicate NoReturn(s: string) {
    forall i | 0 <= i < |s| :: s[i] != '\r'
  }

  lemma {:induction false} JoinNoReturn(lines: seq<string>)
    requires forall i | 0 <= i < |lines| :: OneLine(lines[i])
    ensures NoReturn(Join(lines))
  {
    if |lines| > 1 {
      JoinNoReturn(lines[1..]);
    }
  }

  lemma {:induction false} StreamNoReturn(codec: Codec, frames: seq<Frame>)
    requires codec.Lawful() && AllPrintable(frames)
    ensures NoReturn(Stream(codec, frames))
  {
    if frames != [] {
      LinesPlain(codec, frames[0]);
      JoinNoReturn(Lines(codec, frames[0]));
      StreamNoReturn(codec, frames[1..]);
    }
  }

  lemma {:induction false} PlainUnchanged(s: string)
    requires NoReturn(s)
    ensures Normalize(s) == s
  {
    if s != "" {
      PlainUnchanged(s[1..]);
      assert [s[0]] + s[1..] == s;
    }
  }

  lemma {:induction false} PlainChunks(chunks: seq<string>)
    requires NoReturn(Concat(chunks))
    ensures WholeLineEnds(chunks) && Normalized(chunks) == Concat(chunks)
  {
    if chunks != [] {
      var k := |chunks| - 1;
      var before, last := Concat(chunks[..k]), chunks[k];
      assert NoReturn(before) by {
        assert forall i | 0 <= i < |before| :: Concat(chunks)[i] == before[i];
      }
      PlainChunks(chunks[..k]);
      assert before != "" ==> before[|before| - 1] != '\r';
      PlainUnchanged(Concat(chunks));
      NormalizedIff(chunks);
    }
  }

  // ---- The client's cursor ----

  predicate Shown(f: Frame, cursor: nat) {
    !(f.id < cursor || (f.id == cursor && f.event != "done" && f.event != "error"))
  }

  function Advance(f: Frame, cursor: nat): nat {
    if Shown(f, cursor) && f.id > cursor then f.id else cursor
  }

  function CursorAfter(frames: seq<Frame>, cursor: nat): nat {
    if frames == [] then cursor else CursorAfter(frames[1..], Advance(frames[0], cursor))
  }

  function Deliver(frames: seq<Frame>, cursor: nat): seq<Frame> {
    if frames == [] then []
    else (if Shown(frames[0], cursor) then [frames[0]] else []) + Deliver(frames[1..], Advance(frames[0], cursor))
  }

  lemma {:induction false} DeliverAppend(a: seq<Frame>, b: seq<Frame>, cursor: nat)
    ensures Deliver(a + b, cursor) == Deliver(a, cursor) + Deliver(b, CursorAfter(a, cursor))
    ensures CursorAfter(a + b, cursor) == CursorAfter(b, CursorAfter(a, cursor))
  {
    if a == [] {
      assert a + b == b;
    } else {
      assert (a + b)[1..] == a[1..] + b;
      DeliverAppend(a[1..], b, Advance(a[0], cursor));
    }
  }

  lemma {:induction false} DeliverStep(frames: seq<Frame>, k: nat, cursor: nat, shown: seq<Frame>)
    requires k < |frames|
    ensures shown + Deliver(frames[k..], cursor)
         == (if Shown(frames[k], cursor) then shown + [frames[k]] else shown)
            + Deliver(frames[k + 1..], Advance(frames[k], cursor))
    ensures CursorAfter(frames[k..], cursor) == CursorAfter(frames[k + 1..], Advance(frames[k], cursor))
  {
    assert frames[k..][0] == frames[k] && frames[k..][1..] == frames[k + 1..];
  }

  lemma {:induction false} DeliverEnds(frames: seq<Frame>, cursor: nat, shown: seq<Frame>)
    requires frames == []
    ensures shown + Deliver(frames, cursor) == shown && CursorAfter(frames, cursor) == cursor
  {
  }

  method ShowFrames(frames: seq<Frame>, cursor: nat) returns (shown: seq<Frame>, next: nat)
    ensures shown == Deliver(frames, cursor) && next == CursorAfter(frames, cursor)
  {
    shown, next := [], cursor;
    assert frames[0..] == frames;
    for k := 0 to |frames|
      invariant Deliver(frames, cursor) == shown + Deliver(frames[k..], next)
      invariant CursorAfter(frames, cursor) == CursorAfter(frames[k..], next)
    {
      var frame := frames[k];
      DeliverStep(frames, k, next, shown);
      if frame.id < next || (frame.id == next && frame.event != "done" && frame.event != "error") {
        continue;
      }
      next := if frame.id > next then frame.id else next;
      shown := shown + [frame];
    }
    DeliverEnds(frames[|frames|..], next, shown);
  }

  /** The client's read loop over the chunks that arrive. It returns its cursor when the
      body ends, and none when reading fails, whatever it has shown. */
  method StreamTurn(codec: Codec, chunks: seq<string>, fails: bool, after: nat)
    returns (shown: seq<Frame>, returned: Option<nat>)
    ensures var frames := Frames(codec, Raws(Normalized(chunks)));
      shown == Deliver(frames, after) && returned == if fails then None else Some(CursorAfter(frames, after))
  {
    var parser := new SSEParser();
    var cursor := after;
    shown := [];
    ghost var seen: seq<Frame> := [];
    for k := 0 to |chunks|
      invariant fresh(parser) && parser.buffer == Rest(Normalized(chunks[..k]))
      invariant seen == Frames(codec, Raws(Normalized(chunks[..k])))
      invariant shown == Deliver(seen, after) && cursor == CursorAfter(seen, after)
    {
      MoreFrames(codec, chunks, k);
      var frames := parser.Push(codec, chunks[k]);
      DeliverAppend(seen, frames, after);
      var more;
      more, cursor := ShowFrames(frames, cursor);
      shown, seen := shown + more, seen + frames;
    }
    assert chunks[..|chunks|] == chunks;
    returned := if fails then None else Some(cursor);
  }

  lemma {:induction false} MoreFrames(codec: Codec, chunks: seq<string>, k: nat)
    requires k < |chunks|
    ensures var waiting := Rest(Normalized(chunks[..k])) + Normalize(chunks[k]);
      && Frames(codec, Raws(Normalized(chunks[..k + 1])))
         == Frames(codec, Raws(Normalized(chunks[..k]))) + Frames(codec, Raws(waiting))
      && Rest(Normalized(chunks[..k + 1])) == Rest(waiting)
  {
    assert chunks[..k + 1][..k] == chunks[..k];
    var before := Normalized(chunks[..k]);
    CutAppend(before, Normalize(chunks[k]));
    FramesAppend(codec, Raws(before), Raws(Rest(before) + Normalize(chunks[k])));
  }

  // ---- Every frame once ----

  predicate Increasing(events: seq<Event>) {
    forall i, j | 0 <= i < j < |events| :: events[i].sequence < events[j].sequence
  }

  predicate AllAfter(events: seq<Event>, cursor: nat) {
    forall i | 0 <= i < |events| :: events[i].sequence > cursor
  }

  function LastSequence(events: seq<Event>, cursor: nat): nat {
    if events == [] then cursor else events[|events| - 1].sequence
  }

  lemma {:induction false} TrimmedAppend(a: seq<Frame>, b: seq<Frame>)
    ensures AllTrimmed(a + b) == AllTrimmed(a) + AllTrimmed(b)
  {
  }

  lemma {:induction false} OneEventShown(e: Event, cursor: nat)
    requires e.sequence > cursor
    ensures Deliver(AllTrimmed(FramesOf(e)), cursor) == AllTrimmed(FramesOf(e))
    ensures CursorAfter(AllTrimmed(FramesOf(e)), cursor) == e.sequence
  {
    var frames := AllTrimmed(FramesOf(e));
    assert Strip("done") == "done" by {
      StripEnds("done");
    }
    assert frames[0].id == e.sequence;
    if |frames| == 2 {
      assert frames == [frames[0]] + [frames[1]] && frames[1].event == "done" && frames[1].id == e.sequence;
      assert frames[1..] == [frames[1]] && frames[1..][1..] == [];
      assert Deliver([frames[1]], e.sequence) == [frames[1]] && CursorAfter([frames[1]], e.sequence) == e.sequence;
      DeliverAppend([frames[0]], [frames[1]], cursor);
      assert CursorAfter([frames[0]], cursor) == e.sequence && [frames[0]][1..] == [];
    } else {
      assert frames == [frames[0]] && frames[1..] == [];
    }
  }

  /** Frames of new events in order all pass the cursor. */
  lemma {:induction false} EveryFrameShown(events: seq<Event>, cursor: nat)
    requires Increasing(events) && AllAfter(events, cursor)
    ensures Deliver(AllTrimmed(AllFrames(events)), cursor) == AllTrimmed(AllFrames(events))
    ensures CursorAfter(AllTrimmed(AllFrames(events)), cursor) == LastSequence(events, cursor)
    decreases |events|
  {
    if events != [] {
      var e, rest := events[0], events[1..];
      OneEventShown(e, cursor);
      EveryFrameShown(rest, e.sequence);
      TrimmedAppend(FramesOf(e), AllFrames(rest));
      DeliverAppend(AllTrimmed(FramesOf(e)), AllTrimmed(AllFrames(rest)), cursor);
    }
  }

  /** From new events in order, through any chunking of the printed stream, the client shows
      exactly their frames, each once and in order, and ends on the last sequence. */
  lemma {:induction false} DeliveredExactly(codec: Codec, events: seq<Event>, chunks: seq<string>, after: nat)
    requires codec.Lawful() && AllPrintable(AllFrames(events))
    requires Increasing(events) && AllAfter(events, after)
    requires Concat(chunks) == Stream(codec, AllFrames(events))
    ensures var frames := Frames(codec, Raws(Normalized(chunks)));
      && Deliver(frames, after) == AllTrimmed(AllFrames(events))
      && CursorAfter(frames, after) == LastSequence(events, after)
  {
    StreamNoReturn(codec, AllFrames(events));
    PlainChunks(chunks);
    StreamParses(codec, AllFrames(events));
    EveryFrameShown(events, after);
  }

  // ---- What a server replays ----

  /** The events a server replays after a cursor. */
  function Newer(events: seq<Event>, cursor: int): seq<Event> {
    if events == [] then []
    else (if events[0].sequence > cursor then [events[0]] else []) + Newer(events[1..], cursor)
  }

  lemma {:induction false} NewerAll(events: seq<Event>, cursor: int)
    requires forall i | 0 <= i < |events| :: events[i].sequence > cursor
    ensures Newer(events, cursor) == events
  {
    if events != [] {
      NewerAll(events[1..], cursor);
    }
  }

  lemma {:induction false} NewerAppend(a: seq<Event>, b: seq<Event>, cursor: int)
    ensures Newer(a + b, cursor) == Newer(a, cursor) + Newer(b, cursor)
  {
    if a == [] {
      assert a + b == b;
    } else {
      assert (a + b)[1..] == a[1..] + b;
      NewerAppend(a[1..], b, cursor);
    }
  }

  lemma {:induction false} TailIncreases(events: seq<Event>, k: nat)
    requires Increasing(events) && k <= |events|
    ensures Increasing(events[k..])
  {
    var tail := events[k..];
    forall i, j | 0 <= i < j < |tail|
      ensures tail[i].sequence < tail[j].sequence
    {
      assert tail[i] == events[k + i] && tail[j] == events[k + j];
    }
  }
}
