/** The client's incremental parser: line ends normalised chunk by chunk, frames cut at
    blank lines. */
module FrameParser {
  import opened Options
  import opened Decimal
  import opened TextLines
  import opened EventFrames

  // ---- One frame ----

  /** Position of the first colon, or the length of the line. */
  function Colon(line: string): nat {
    if line == "" || line[0] == ':' then 0 else 1 + Colon(line[1..])
  }

  lemma {:induction false} ColonBound(line: string)
    ensures Colon(line) <= |line|
  {
    if line != "" && line[0] != ':' {
      ColonBound(line[1..]);
    }
  }

  function FieldOf(line: string): string {
    ColonBound(line);
    line[..Colon(line)]
  }

  function ValueOf(line: string): string {
    ColonBound(line);
    if Colon(line) == |line| then ""
    else
      var value := line[Colon(line) + 1..];
      if value != "" && value[0] == ' ' then value[1..] else value
  }

  datatype Fields = Fields(id: Option<int>, event: string, data: seq<string>)

  function Absorb(fields: Fields, line: string): Fields {
    if line != "" && line[0] == ':' then fields
    else
      var field, value := FieldOf(line), ValueOf(line);
      if field == "id" && value != "" && AllDigits(value) then fields.(id := Some(Number(value)))
      else if field == "event" && value != "" && OneLine(value) then fields.(event := value)
      else if field == "data" then fields.(data := fields.data + [value])
      else fields
  }

  function AbsorbAll(lines: seq<string>): Fields {
    if lines == [] then Fields(None, "message", [])
    else Absorb(AbsorbAll(lines[..|lines| - 1]), lines[|lines| - 1])
  }

  /** Identifiers are read from digits alone. */
  lemma {:induction false} AbsorbedIdIsNat(lines: seq<string>)
    ensures AbsorbAll(lines).id.Some? ==> AbsorbAll(lines).id.value >= 0
  {
    if lines != [] {
      AbsorbedIdIsNat(lines[..|lines| - 1]);
      var value := ValueOf(lines[|lines| - 1]);
      if AllDigits(value) {
        NumberIsNat(value);
      }
    }
  }

  function Finish(codec: Codec, fields: Fields): Option<Frame>
    requires fields.id.Some? ==> fields.id.value >= 0
  {
    if fields.id.None? || fields.data == [] then None
    else
      var value := codec.decode(Join(fields.data));
      if value.Some? && value.value.JObject? then Some(Frame(fields.id.value, fields.event, value.value.fields))
      else None
  }

  function Parse(codec: Codec, raw: string): Option<Frame> {
    AbsorbedIdIsNat(SplitLines(raw));
    Finish(codec, AbsorbAll(SplitLines(raw)))
  }

  method ParseFrame(codec: Codec, raw: string) returns (frame: Option<Frame>)
    ensures frame == Parse(codec, raw)
  {
    var lines := SplitLines(raw);
    var fields := Fields(None, "message", []);
    for k := 0 to |lines|
      invariant fields == AbsorbAll(lines[..k])
    {
      assert lines[..k + 1][..k] == lines[..k];
      fields := Absorb(fields, lines[k]);
    }
    assert lines[..|lines|] == lines;
    AbsorbedIdIsNat(lines);
    frame := Finish(codec, fields);
  }

  // ---- Cutting at blank lines ----

  /** Where the first blank line begins. */
  function Boundary(s: string): (at: Option<nat>)
    ensures at.Some? ==> at.value + 2 <= |s|
  {
    if |s| < 2 then None
    else if s[0] == '\n' && s[1] == '\n' then Some(0)
    else
      var later := Boundary(s[1..]);
      if later.Some? then Some(later.value + 1) else None
  }

  function Raws(s: string): seq<string>
    decreases |s|
  {
    var at := Boundary(s);
    if at.None? then [] else [s[..at.value]] + Raws(s[at.value + 2..])
  }

  function Rest(s: string): string
    decreases |s|
  {
    var at := Boundary(s);
    if at.None? then s else Rest(s[at.value + 2..])
  }

  lemma {:induction false} BoundaryStays(a: string, b: string)
    ensures Boundary(a).Some? ==> Boundary(a + b) == Boundary(a)
  {
    if |a| >= 2 && !(a[0] == '\n' && a[1] == '\n') {
      assert (a + b)[1..] == a[1..] + b;
      BoundaryStays(a[1..], b);
    }
  }

  /** What has been cut stays cut; only the rest waits for more text. */
  lemma {:induction false} CutAppend(a: string, b: string)
    ensures Raws(a + b) == Raws(a) + Raws(Rest(a) + b)
    ensures Rest(a + b) == Rest(Rest(a) + b)
    decreases |a|
  {
    if Boundary(a).Some? {
      BoundaryStays(a, b);
      var k := Boundary(a).value;
      assert (a + b)[..k] == a[..k] && (a + b)[k + 2..] == a[k + 2..] + b;
      CutAppend(a[k + 2..], b);
    }
  }

  // ---- Line ends ----

  /** A CR LF falls across the border between the two. */
  predicate Straddles(a: string, b: string) {
    a != "" && b != "" && a[|a| - 1] == '\r' && b[0] == '\n'
  }

  /** Normalising piece by piece loses a character exactly when a line end is cut in two. */
  lemma {:induction false} NormalizeAppend(a: string, b: string)
    ensures !Straddles(a, b) ==> Normalize(a + b) == Normalize(a) + Normalize(b)
    ensures Straddles(a, b) ==> |Normalize(a + b)| + 1 == |Normalize(a)| + |Normalize(b)|
  {
    if a == "" {
      assert a + b == b;
    } else if |a| >= 2 && a[0] == '\r' && a[1] == '\n' {
      assert (a + b)[2..] == a[2..] + b;
      NormalizeAppend(a[2..], b);
    } else if |a| == 1 {
      assert (a + b)[1..] == b && a[1..] == "";
      if Straddles(a, b) {
        assert (a + b)[2..] == b[1..];
      }
    } else {
      assert (a + b)[1..] == a[1..] + b;
      NormalizeAppend(a[1..], b);
    }
  }

  function Concat(chunks: seq<string>): string {
    if chunks == [] then "" else Concat(chunks[..|chunks| - 1]) + chunks[|chunks| - 1]
  }

  function Normalized(chunks: seq<string>): string {
    if chunks == [] then "" else Normalized(chunks[..|chunks| - 1]) + Normalize(chunks[|chunks| - 1])
  }

  /** No CR LF is cut in two. */
  predicate WholeLineEnds(chunks: seq<string>) {
    chunks == [] || (
      var k := |chunks| - 1;
      WholeLineEnds(chunks[..k]) && !Straddles(Concat(chunks[..k]), chunks[k]))
  }

  lemma {:induction false} NormalizedLength(chunks: seq<string>)
    ensures |Normalize(Concat(chunks))| <= |Normalized(chunks)|
  {
    if chunks != [] {
      var k := |chunks| - 1;
      NormalizedLength(chunks[..k]);
      NormalizeAppend(Concat(chunks[..k]), chunks[k]);
    }
  }

  lemma {:induction false} SameEnd(a: string, b: string, c: string)
    ensures a + c == b + c <==> a == b
  {
    if a + c == b + c {
      assert |a| == |b|;
      assert a == (a + c)[..|a|] && b == (b + c)[..|b|];
    }
  }

  /** The chunks are normalised as the whole text would be exactly when no CR LF is cut. */
  lemma {:induction false} NormalizedIff(chunks: seq<string>)
    ensures Normalized(chunks) == Normalize(Concat(chunks)) <==> WholeLineEnds(chunks)
  {
    if chunks != [] {
      var k := |chunks| - 1;
      NormalizedIff(chunks[..k]);
      NormalizedLength(chunks[..k]);
      NormalizeAppend(Concat(chunks[..k]), chunks[k]);
      SameEnd(Normalized(chunks[..k]), Normalize(Concat(chunks[..k])), Normalize(chunks[k]));
    }
  }

  // ---- The parser object ----

  function Frames(codec: Codec, raws: seq<string>): seq<Frame> {
    if raws == [] then []
    else
      var k := |raws| - 1;
      var frame := Parse(codec, raws[k]);
      Frames(codec, raws[..k]) + if frame.Some? then [frame.value] else []
  }

  function FrameOf(codec: Codec, raw: string): seq<Frame> {
    var frame := Parse(codec, raw);
    if frame.Some? then [frame.value] else []
  }

  lemma {:induction false} FramesSnoc(codec: Codec, raws: seq<string>, raw: string)
    ensures Frames(codec, raws + [raw]) == Frames(codec, raws) + FrameOf(codec, raw)
  {
    assert (raws + [raw])[..|raws|] == raws;
  }

  lemma {:induction false} FramesAppend(codec: Codec, a: seq<string>, b: seq<string>)
    ensures Frames(codec, a + b) == Frames(codec, a) + Frames(codec, b)
  {
    if b == [] {
      assert a + b == a;
    } else {
      var k := |b| - 1;
      assert b == b[..k] + [b[k]] && a + b == a + b[..k] + [b[k]];
      FramesSnoc(codec, a + b[..k], b[k]);
      FramesSnoc(codec, b[..k], b[k]);
      FramesAppend(codec, a, b[..k]);
    }
  }

  class SSEParser {
    var buffer: string

    constructor ()
      ensures buffer == ""
    {
      buffer := "";
    }

    /** The frames completed by this chunk; what is left of the text waits. */
    method Push(codec: Codec, chunk: string) returns (frames: seq<Frame>)
      modifies this
      ensures frames == Frames(codec, Raws(old(buffer) + Normalize(chunk)))
      ensures buffer == Rest(old(buffer) + Normalize(chunk))
    {
      buffer := buffer + Normalize(chunk);
      frames := [];
      ghost var text, cut := buffer, [];
      var boundary := Boundary(buffer);
      while boundary.Some?
        invariant boundary == Boundary(buffer)
        invariant Raws(text) == cut + Raws(buffer) && Rest(text) == Rest(buffer)
        invariant frames == Frames(codec, cut)
        decreases |buffer|
      {
        var raw := buffer[..boundary.value];
        buffer := buffer[boundary.value + 2..];
        var frame := ParseFrame(codec, raw);
        cut := cut + [raw];
        if frame.Some? {
          frames := frames + [frame.value];
        }
        boundary := Boundary(buffer);
      }
      assert cut + [] == cut;
    }
  }

  lemma {:induction false} RestHasNone(s: string)
    ensures Boundary(Rest(s)).None? && Raws(Rest(s)) == [] && Rest(Rest(s)) == Rest(s)
    decreases |s|
  {
    if Boundary(s).Some? {
      RestHasNone(s[Boundary(s).value + 2..]);
    }
  }

  /** However the text is cut into chunks, as long as no CR LF is cut in two, the frames are
      those of the text in one piece. */
  lemma {:induction false} ChunkingDoesNotMatter(codec: Codec, chunks: seq<string>, other: seq<string>)
    requires Concat(chunks) == Concat(other) && WholeLineEnds(chunks) && WholeLineEnds(other)
    ensures Frames(codec, Raws(Normalized(chunks))) == Frames(codec, Raws(Normalized(other)))
    ensures Rest(Normalized(chunks)) == Rest(Normalized(other))
  {
    NormalizedIff(chunks);
    NormalizedIff(other);
  }
}
