/** Streams whose lines end in CR LF: which cuts between chunks change the frames. */
module LineEnds {
  import opened Options
  import opened JsonValues
  import opened Decimal
  import opened TextLines
  import opened EventFrames
  import opened FrameParser
  import opened StreamDelivery

  // ---- Normalising in chunks is normalising but at the cuts ----

  /** The text begins with a CR LF that no cut parts. */
  predicate Joined(s: string, at: int, cuts: set<int>) {
    |s| >= 2 && s[0] == '\r' && s[1] == '\n' && at + 1 !in cuts
  }

  /** Every CR LF becomes LF unless the border between the two is among the cuts. */
  function NormalizeBut(s: string, at: int, cuts: set<int>): string {
    if s == "" then ""
    else if Joined(s, at, cuts) then "\n" + NormalizeBut(s[2..], at + 2, cuts)
    else [s[0]] + NormalizeBut(s[1..], at + 1, cuts)
  }

  /** Where the chunks begin. */
  function Cuts(chunks: seq<string>): set<int> {
    if chunks == [] then {} else Cuts(chunks[..|chunks| - 1]) + {|Concat(chunks[..|chunks| - 1])|}
  }

  lemma {:induction false} CutsBound(chunks: seq<string>)
    ensures forall c | c in Cuts(chunks) :: 0 <= c <= |Concat(chunks)|
  {
    if chunks != [] {
      CutsBound(chunks[..|chunks| - 1]);
    }
  }

  lemma {:induction false} CutsBehind(s: string, at: int, cuts: set<int>)
    requires forall c | c in cuts :: c <= at
    ensures NormalizeBut(s, at, cuts) == Normalize(s)
  {
    if s != "" {
      CutsBehind(s[1..], at + 1, cuts);
      if |s| >= 2 {
        CutsBehind(s[2..], at + 2, cuts);
      }
    }
  }

  lemma {:induction false} JoinedInTwo(a: string, b: string, at: int, cuts: set<int>, all: set<int>)
    requires a != "" && all == cuts + {at + |a|}
    ensures Joined(a + b, at, all) <==> Joined(a, at, cuts)
  {
    if |a| >= 2 {
      assert (a + b)[0] == a[0] && (a + b)[1] == a[1];
    }
  }

  lemma {:induction false} Regrouped(a: string, b: string, c: string)
    ensures a + b + c == a + (b + c)
  {
  }

  lemma {:induction false} NormalizeInTwo(a: string, b: string, at: int, cuts: set<int>, all: set<int>)
    requires forall c | c in cuts :: c <= at + |a|
    requires all == cuts + {at + |a|}
    ensures NormalizeBut(a + b, at, all) == NormalizeBut(a, at, cuts) + Normalize(b)
  {
    if a == "" {
      assert a + b == b;
      CutsBehind(b, at, all);
    } else {
      JoinedInTwo(a, b, at, cuts, all);
      if Joined(a, at, cuts) {
        assert (a + b)[2..] == a[2..] + b;
        NormalizeInTwo(a[2..], b, at + 2, cuts, all);
        Regrouped("\n", NormalizeBut(a[2..], at + 2, cuts), Normalize(b));
      } else {
        assert (a + b)[1..] == a[1..] + b && (a + b)[0] == a[0];
        NormalizeInTwo(a[1..], b, at + 1, cuts, all);
        Regrouped([a[0]], NormalizeBut(a[1..], at + 1, cuts), Normalize(b));
      }
    }
  }

  /** Chunks are normalised as their text is, but where a CR LF is cut. */
  lemma {:induction false} NormalizedButCuts(chunks: seq<string>)
    ensures Normalized(chunks) == NormalizeBut(Concat(chunks), 0, Cuts(chunks))
  {
    if chunks != [] {
      var k := |chunks| - 1;
      NormalizedButCuts(chunks[..k]);
      CutsBound(chunks[..k]);
      NormalizeInTwo(Concat(chunks[..k]), chunks[k], 0, Cuts(chunks[..k]), Cuts(chunks));
    }
  }

  // ---- A stream with CR LF line ends ----

  const CRLF := "\r\n"

  function Cr(cut: bool): string {
    if cut then "\r" else ""
  }

  lemma {:induction false} LineNormalized(line: string, rest: string, at: int, cuts: set<int>)
    requires OneLine(line)
    ensures NormalizeBut(line + CRLF + rest, at, cuts)
         == line + Cr(at + |line| + 1 in cuts) + "\n" + NormalizeBut(rest, at + |line| + 2, cuts)
  {
    var s := line + CRLF + rest;
    if line == "" {
      assert s[2..] == rest && s[1..] == "\n" + rest;
      assert ("\n" + rest)[1..] == rest;
    } else {
      assert s[1..] == line[1..] + CRLF + rest;
      LineNormalized(line[1..], rest, at + 1, cuts);
    }
  }

  /** Which of a frame's four line ends are cut in two. */
  datatype Marks = Marks(id: bool, name: bool, data: bool, blank: bool)

  /** Three lines and a blank one, each with its CR LF. */
  function CrText(a: string, b: string, c: string): string {
    a + CRLF + (b + CRLF + (c + CRLF + ("" + CRLF)))
  }

  /** The same as it comes out of normalising. */
  function MarkedText(a: string, b: string, c: string, m: Marks): string {
    a + Cr(m.id) + "\n" + (b + Cr(m.name) + "\n" + (c + Cr(m.data) + "\n" + ("" + Cr(m.blank) + "\n")))
  }

  function MarksOf(a: nat, b: nat, c: nat, at: int, cuts: set<int>): Marks {
    Marks(at + a + 1 in cuts, at + a + b + 3 in cuts, at + a + b + c + 5 in cuts, at + a + b + c + 7 in cuts)
  }

  lemma {:induction false} CrTextThen(a: string, b: string, c: string, rest: string)
    ensures CrText(a, b, c) + rest == a + CRLF + (b + CRLF + (c + CRLF + ("" + CRLF + rest)))
    ensures |CrText(a, b, c)| == |a| + |b| + |c| + 8
  {
  }

  lemma {:induction false} MarkedTextThen(a: string, b: string, c: string, m: Marks, rest: string)
    ensures MarkedText(a, b, c, m) + rest
         == a + Cr(m.id) + "\n" + (b + Cr(m.name) + "\n" + (c + Cr(m.data) + "\n" + ("" + Cr(m.blank) + "\n" + rest)))
  {
  }

  lemma {:induction false} LinesNormalized(a: string, b: string, more: string, at: int, cuts: set<int>)
    requires OneLine(a) && OneLine(b)
    ensures NormalizeBut(a + CRLF + (b + CRLF + more), at, cuts)
         == a + Cr(at + |a| + 1 in cuts) + "\n"
            + (b + Cr(at + |a| + |b| + 3 in cuts) + "\n" + NormalizeBut(more, at + |a| + |b| + 4, cuts))
  {
    LineNormalized(a, b + CRLF + more, at, cuts);
    LineNormalized(b, more, at + |a| + 2, cuts);
  }

  lemma {:induction false} TextNormalized(a: string, b: string, c: string, rest: string, at: int, cuts: set<int>)
    requires OneLine(a) && OneLine(b) && OneLine(c)
    ensures NormalizeBut(CrText(a, b, c) + rest, at, cuts)
         == MarkedText(a, b, c, MarksOf(|a|, |b|, |c|, at, cuts)) + NormalizeBut(rest, at + |CrText(a, b, c)|, cuts)
  {
    var m := MarksOf(|a|, |b|, |c|, at, cuts);
    CrTextThen(a, b, c, rest);
    LinesNormalized(a, b, c + CRLF + ("" + CRLF + rest), at, cuts);
    LinesNormalized(c, "", rest, at + |a| + |b| + 4, cuts);
    MarkedTextThen(a, b, c, m, NormalizeBut(rest, at + |a| + |b| + |c| + 8, cuts));
  }

  /** A frame as printed, with CR LF for every line end. */
  function CrFrame(codec: Codec, f: Frame): string {
    CrText(Lines(codec, f)[0], Lines(codec, f)[1], Lines(codec, f)[2])
  }

  function MarksAt(codec: Codec, f: Frame, at: int, cuts: set<int>): Marks {
    MarksOf(|Lines(codec, f)[0]|, |Lines(codec, f)[1]|, |Lines(codec, f)[2]|, at, cuts)
  }

  function MarkedFrame(codec: Codec, f: Frame, m: Marks): string {
    MarkedText(Lines(codec, f)[0], Lines(codec, f)[1], Lines(codec, f)[2], m)
  }

  function CrStream(codec: Codec, frames: seq<Frame>): string {
    if frames == [] then "" else CrFrame(codec, frames[0]) + CrStream(codec, frames[1..])
  }

  /** Which line ends of a stream the cuts fall into. */
  function AllMarks(codec: Codec, frames: seq<Frame>, at: int, cuts: set<int>): (marks: seq<Marks>)
    ensures |marks| == |frames|
  {
    if frames == [] then []
    else [MarksAt(codec, frames[0], at, cuts)] + AllMarks(codec, frames[1..], at + |CrFrame(codec, frames[0])|, cuts)
  }

  function MarkedStream(codec: Codec, frames: seq<Frame>, marks: seq<Marks>): string
    requires |marks| == |frames|
  {
    if frames == [] then "" else MarkedFrame(codec, frames[0], marks[0]) + MarkedStream(codec, frames[1..], marks[1..])
  }

  lemma {:induction false} MarksFirst(codec: Codec, frames: seq<Frame>, at: int, cuts: set<int>)
    requires frames != []
    ensures var marks := AllMarks(codec, frames, at, cuts);
      && marks[0] == MarksAt(codec, frames[0], at, cuts)
      && marks[1..] == AllMarks(codec, frames[1..], at + |CrFrame(codec, frames[0])|, cuts)
  {
  }

  lemma {:induction false} FrameNormalized(codec: Codec, f: Frame, rest: string, at: int, cuts: set<int>)
    requires codec.Lawful() && Printable(f)
    ensures NormalizeBut(CrFrame(codec, f) + rest, at, cuts)
         == MarkedFrame(codec, f, MarksAt(codec, f, at, cuts)) + NormalizeBut(rest, at + |CrFrame(codec, f)|, cuts)
  {
    var l := Lines(codec, f);
    LinesPlain(codec, f);
    TextNormalized(l[0], l[1], l[2], rest, at, cuts);
  }

  /** What the first frame and the others come to, the stream comes to. */
  lemma {:induction false} NormalizedStep(codec: Codec, frames: seq<Frame>, at: int, cuts: set<int>)
    requires codec.Lawful() && frames != [] && Printable(frames[0])
    requires var next := at + |CrFrame(codec, frames[0])|;
      NormalizeBut(CrStream(codec, frames[1..]), next, cuts)
      == MarkedStream(codec, frames[1..], AllMarks(codec, frames[1..], next, cuts))
    ensures NormalizeBut(CrStream(codec, frames), at, cuts) == MarkedStream(codec, frames, AllMarks(codec, frames, at, cuts))
  {
    FrameNormalized(codec, frames[0], CrStream(codec, frames[1..]), at, cuts);
    MarksFirst(codec, frames, at, cuts);
  }

  lemma {:induction false} StreamNormalized(codec: Codec, frames: seq<Frame>, at: int, cuts: set<int>)
    requires codec.Lawful() && AllPrintable(frames)
    ensures NormalizeBut(CrStream(codec, frames), at, cuts) == MarkedStream(codec, frames, AllMarks(codec, frames, at, cuts))
  {
    if frames != [] {
      StreamNormalized(codec, frames[1..], at + |CrFrame(codec, frames[0])|, cuts);
      NormalizedStep(codec, frames, at, cuts);
    }
  }

  // ---- One frame with some line ends cut ----

  /** JSON may be followed by white space. */
  ghost predicate IgnoresReturn(codec: Codec) {
    forall p :: codec.decode(codec.encode(p) + "\r") == Some(JObject(p))
  }

  function MarkedLines(codec: Codec, f: Frame, m: Marks): seq<string> {
    [Lines(codec, f)[0] + Cr(m.id), Lines(codec, f)[1] + Cr(m.name), Lines(codec, f)[2] + Cr(m.data)]
  }

  lemma {:induction false} JoinThree(a: string, b: string, c: string)
    ensures Join([a, b, c]) == a + "\n" + (b + "\n" + c)
  {
    assert [a, b, c][1..] == [b, c] && [b, c][1..] == [c];
    assert Join([b, c]) == b + "\n" + Join([c]);
  }

  lemma {:induction false} MarkedFrameIs(codec: Codec, f: Frame, m: Marks)
    ensures MarkedFrame(codec, f, m) == Join(MarkedLines(codec, f, m)) + "\n" + Cr(m.blank) + "\n"
  {
    var l := MarkedLines(codec, f, m);
    JoinThree(l[0], l[1], l[2]);
  }

  /** A cut line end costs the field its value, unless that is data. */
  lemma {:induction false} FieldKept(fields: Fields, name: string, value: string, cut: bool)
    requires name in ["id", "event", "data"] && OneLine(value)
    ensures Absorb(fields, name + ": " + value + Cr(cut))
         == if !cut then Absorb(fields, name + ": " + value)
            else if name == "data" then fields.(data := fields.data + [value + "\r"]) else fields
  {
    if cut {
      AbsorbField(fields, name, value + "\r");
      assert name + ": " + value + "\r" == name + ": " + (value + "\r");
      assert (value + "\r")[|value|] == '\r';
    } else {
      assert name + ": " + value + "" == name + ": " + value;
    }
  }

  /** What the parser reads of a frame: a cut in the first line end costs the identifier, one
      in the second the name, and one in the third nothing. */
  function Read(f: Frame, m: Marks): Option<Frame> {
    if m.id then None else Some(Frame(f.id, if m.name then "message" else Strip(f.event), f.data))
  }

  lemma {:induction false} IdKept(f: Frame, cut: bool)
    ensures Absorb(Fields(None, "message", []), "id: " + Digits(f.id) + Cr(cut))
         == Fields(if cut then None else Some(f.id), "message", [])
  {
    var start := Fields(None, "message", []);
    DigitsRead(f.id);
    DigitsPlain(f.id);
    assert "id" + ": " == "id: ";
    FieldKept(start, "id", Digits(f.id), cut);
    AbsorbField(start, "id", Digits(f.id));
  }

  lemma {:induction false} NameKept(f: Frame, id: Option<int>, cut: bool)
    requires Printable(f)
    ensures Absorb(Fields(id, "message", []), "event: " + Strip(f.event) + Cr(cut))
         == Fields(id, if cut then "message" else Strip(f.event), [])
  {
    var start := Fields(id, "message", []);
    assert "event" + ": " == "event: ";
    FieldKept(start, "event", Strip(f.event), cut);
    AbsorbField(start, "event", Strip(f.event));
  }

  lemma {:induction false} DataKept(codec: Codec, f: Frame, start: Fields, cut: bool)
    requires codec.Lawful() && start.data == []
    ensures Absorb(start, "data: " + codec.encode(f.data) + Cr(cut)) == start.(data := [codec.encode(f.data) + Cr(cut)])
  {
    assert "data" + ": " == "data: ";
    FieldKept(start, "data", codec.encode(f.data), cut);
    AbsorbField(start, "data", codec.encode(f.data));
    assert codec.encode(f.data) + "" == codec.encode(f.data);
  }

  lemma {:induction false} MarkedAbsorbed(codec: Codec, f: Frame, m: Marks)
    requires codec.Lawful() && Printable(f)
    ensures AbsorbAll(MarkedLines(codec, f, m))
         == Fields(if m.id then None else Some(f.id), if m.name then "message" else Strip(f.event),
                   [codec.encode(f.data) + Cr(m.data)])
  {
    var l := MarkedLines(codec, f, m);
    var id: Option<int> := if m.id then None else Some(f.id);
    AbsorbThree(l[0], l[1], l[2]);
    IdKept(f, m.id);
    NameKept(f, id, m.name);
    DataKept(codec, f, Fields(id, if m.name then "message" else Strip(f.event), []), m.data);
  }

  lemma {:induction false} MarkedPlain(codec: Codec, f: Frame, m: Marks)
    requires codec.Lawful() && Printable(f)
    ensures forall i | 0 <= i < 3 :: MarkedLines(codec, f, m)[i] != "" && NoBreak(MarkedLines(codec, f, m)[i])
  {
    LinesPlain(codec, f);
  }

  lemma {:induction false} MarkedParses(codec: Codec, f: Frame, m: Marks)
    requires codec.Lawful() && IgnoresReturn(codec) && Printable(f)
    ensures Parse(codec, Join(MarkedLines(codec, f, m))) == Read(f, m)
  {
    var data := codec.encode(f.data) + Cr(m.data);
    MarkedPlain(codec, f, m);
    SplitJoined(MarkedLines(codec, f, m));
    MarkedAbsorbed(codec, f, m);
    assert Join([data]) == data;
    assert codec.encode(f.data) + "" == codec.encode(f.data);
  }

  // ---- Cutting the marked stream ----

  /** No two line ends in a row. */
  predicate Single(s: string) {
    forall i | 0 <= i < |s| - 1 && s[i] == '\n' :: s[i + 1] != '\n'
  }

  /** Text without a blank line, put before text that does not begin with a line end. */
  lemma {:induction false} BoundaryBehind(a: string, rest: string)
    requires Single(a) && (rest == "" || rest[0] != '\n')
    ensures Boundary(a + rest) == if Boundary(rest).None? then None else Some(|a| + Boundary(rest).value)
  {
    if a == "" {
      assert a + rest == rest;
    } else {
      assert (a + rest)[1..] == a[1..] + rest;
      assert Single(a[1..]) by {
        assert forall i | 0 <= i < |a[1..]| :: a[1..][i] == a[i + 1];
      }
      BoundaryBehind(a[1..], rest);
    }
  }

  lemma {:induction false} RawsCount(s: string)
    ensures |Raws(s)| == if Boundary(s).None? then 0 else 1 + |Raws(s[Boundary(s).value + 2..])|
  {
  }

  lemma {:induction false} RawsBehind(a: string, rest: string)
    requires Single(a) && (rest == "" || rest[0] != '\n')
    ensures |Raws(a + rest)| == |Raws(rest)|
  {
    BoundaryBehind(a, rest);
    RawsCount(a + rest);
    RawsCount(rest);
    if Boundary(rest).Some? {
      TailOfTwo(a, rest, Boundary(rest).value + 2);
    }
  }

  lemma {:induction false} TailOfTwo(a: string, b: string, k: nat)
    requires k <= |b|
    ensures (a + b)[|a| + k..] == b[k..]
  {
  }

  lemma {:induction false} FewFrames(codec: Codec, raws: seq<string>)
    ensures |Frames(codec, raws)| <= |raws|
  {
    if raws != [] {
      FewFrames(codec, raws[..|raws| - 1]);
    }
  }

  lemma {:induction false} MarkedTidy(codec: Codec, f: Frame, m: Marks)
    requires codec.Lawful() && Printable(f)
    ensures var raw := Join(MarkedLines(codec, f, m)); Tidy(raw) && raw != "" && raw[0] != '\n'
  {
    MarkedPlain(codec, f, m);
    JoinTidy(MarkedLines(codec, f, m));
  }

  lemma {:induction false} StreamBegins(codec: Codec, frames: seq<Frame>, marks: seq<Marks>)
    requires codec.Lawful() && AllPrintable(frames) && |marks| == |frames|
    ensures var s := MarkedStream(codec, frames, marks); s == "" || s[0] != '\n'
  {
    if frames != [] {
      MarkedTidy(codec, frames[0], marks[0]);
      MarkedFrameIs(codec, frames[0], marks[0]);
    }
  }

  lemma {:induction false} RawCut(raw: string, rest: string)
    requires Tidy(raw)
    ensures Raws(raw + "\n" + "" + "\n" + rest) == [raw] + Raws(rest)
  {
    var s := raw + "\n\n" + rest;
    TidyBoundary(raw, rest);
    assert s == raw + "\n" + "" + "\n" + rest;
    assert s[..|raw|] == raw && s[|raw| + 2..] == rest;
  }

  lemma {:induction false} RawRunsOn(raw: string, rest: string)
    requires Tidy(raw) && (rest == "" || rest[0] != '\n')
    ensures |Raws(raw + "\n" + "\r" + "\n" + rest)| == |Raws(rest)|
  {
    var a := raw + "\n\r\n";
    assert raw + "\n" + "\r" + "\n" + rest == a + rest;
    forall i | 0 <= i < |a| - 1 && a[i] == '\n'
      ensures a[i + 1] != '\n'
    {
      assert i < |raw| ==> raw[i] == '\n' && a[i + 1] == raw[i + 1];
    }
    RawsBehind(a, rest);
  }

  /** With its blank line whole a frame is cut off by itself; otherwise it runs into the next. */
  lemma {:induction false} FrameCut(codec: Codec, frames: seq<Frame>, marks: seq<Marks>)
    requires codec.Lawful() && AllPrintable(frames) && |marks| == |frames| && frames != []
    ensures var rest := MarkedStream(codec, frames[1..], marks[1..]);
      var all := Raws(MarkedStream(codec, frames, marks));
      if marks[0].blank then |all| == |Raws(rest)| else all == [Join(MarkedLines(codec, frames[0], marks[0]))] + Raws(rest)
  {
    var rest := MarkedStream(codec, frames[1..], marks[1..]);
    var raw := Join(MarkedLines(codec, frames[0], marks[0]));
    MarkedTidy(codec, frames[0], marks[0]);
    MarkedFrameIs(codec, frames[0], marks[0]);
    StreamBegins(codec, frames[1..], marks[1..]);
    if marks[0].blank {
      RawRunsOn(raw, rest);
    } else {
      RawCut(raw, rest);
    }
  }

  lemma {:induction false} FewRaws(codec: Codec, frames: seq<Frame>, marks: seq<Marks>)
    requires codec.Lawful() && AllPrintable(frames) && |marks| == |frames|
    ensures |Raws(MarkedStream(codec, frames, marks))| <= |frames|
  {
    if frames != [] {
      FewRaws(codec, frames[1..], marks[1..]);
      FrameCut(codec, frames, marks);
    }
  }

  // ---- Which cuts matter ----

  /** No cut inside the line end of an identifier, of a name other than the default, or of
      the blank line. */
  predicate Harmless(f: Frame, m: Marks) {
    !m.id && !m.blank && (m.name ==> Strip(f.event) == "message")
  }

  predicate AllHarmless(frames: seq<Frame>, marks: seq<Marks>)
    requires |marks| == |frames|
  {
    frames == [] || (Harmless(frames[0], marks[0]) && AllHarmless(frames[1..], marks[1..]))
  }

  lemma {:induction false} SameFrames(head: Option<Frame>, more: seq<Frame>, first: Frame, rest: seq<Frame>)
    requires |more| <= |rest|
    ensures (if head.Some? then [head.value] else []) + more == [first] + rest <==> head == Some(first) && more == rest
  {
    if head.Some? {
      assert ([head.value] + more)[0] == head.value && ([head.value] + more)[1..] == more;
      assert ([first] + rest)[0] == first && ([first] + rest)[1..] == rest;
    }
  }

  /** The frames of a stream after its first. */
  lemma {:induction false} FramesOfRest(codec: Codec, frames: seq<Frame>, marks: seq<Marks>)
    requires codec.Lawful() && IgnoresReturn(codec) && AllPrintable(frames) && |marks| == |frames| && frames != []
    ensures var more := Frames(codec, Raws(MarkedStream(codec, frames[1..], marks[1..])));
      Frames(codec, Raws(MarkedStream(codec, frames, marks))) == AllTrimmed(frames)
      <==> Harmless(frames[0], marks[0]) && more == AllTrimmed(frames[1..])
  {
    var raws := Raws(MarkedStream(codec, frames[1..], marks[1..]));
    FewRaws(codec, frames[1..], marks[1..]);
    FewFrames(codec, raws);
    FrameCut(codec, frames, marks);
    if marks[0].blank {
      FewFrames(codec, Raws(MarkedStream(codec, frames, marks)));
    } else {
      MarkedParses(codec, frames[0], marks[0]);
      FramesFirst(codec, Join(MarkedLines(codec, frames[0], marks[0])), raws);
      TrimmedFirst(frames);
      SameFrames(Read(frames[0], marks[0]), Frames(codec, raws), Trimmed(frames[0]), AllTrimmed(frames[1..]));
    }
  }

  lemma {:induction false} MarkedFramesIff(codec: Codec, frames: seq<Frame>, marks: seq<Marks>)
    requires codec.Lawful() && IgnoresReturn(codec) && AllPrintable(frames) && |marks| == |frames|
    ensures Frames(codec, Raws(MarkedStream(codec, frames, marks))) == AllTrimmed(frames) <==> AllHarmless(frames, marks)
  {
    if frames != [] {
      MarkedFramesIff(codec, frames[1..], marks[1..]);
      FramesOfRest(codec, frames, marks);
    }
  }

  /** Chunks of a stream with CR LF line ends give its frames exactly when no cut falls
      inside a line end that matters. */
  lemma {:induction false} FramesSurviveIff(codec: Codec, frames: seq<Frame>, chunks: seq<string>)
    requires codec.Lawful() && IgnoresReturn(codec) && AllPrintable(frames)
    requires Concat(chunks) == CrStream(codec, frames)
    ensures Frames(codec, Raws(Normalized(chunks))) == AllTrimmed(frames)
       <==> AllHarmless(frames, AllMarks(codec, frames, 0, Cuts(chunks)))
  {
    NormalizedButCuts(chunks);
    StreamNormalized(codec, frames, 0, Cuts(chunks));
    MarkedFramesIff(codec, frames, AllMarks(codec, frames, 0, Cuts(chunks)));
  }

  lemma {:induction false} TwoChunks(a: string, b: string)
    ensures Concat([a, b]) == a + b && Cuts([a, b]) == {0, |a|}
    ensures Concat([a]) == a && Cuts([a]) == {0}
  {
    assert [a, b][..1] == [a] && [a][..0] == [] && Concat([]) == "" && Cuts([]) == {};
    assert "" + a == a;
  }

  lemma {:induction false} OneFrame(codec: Codec, f: Frame, cuts: set<int>)
    ensures CrStream(codec, [f]) == CrFrame(codec, f) && AllMarks(codec, [f], 0, cuts) == [MarksAt(codec, f, 0, cuts)]
    ensures AllTrimmed([f]) == [Trimmed(f)]
  {
    assert [f][1..] == [] && CrStream(codec, []) == "" && AllMarks(codec, [], |CrFrame(codec, f)|, cuts) == [];
    assert CrFrame(codec, f) + "" == CrFrame(codec, f);
    assert 0 + |CrFrame(codec, f)| == |CrFrame(codec, f)|;
  }

  /** Any frame at all is lost when its text is cut inside the very last line end. */
  lemma {:induction false} CutLineEndIsLost(codec: Codec, f: Frame)
    requires codec.Lawful() && IgnoresReturn(codec) && Printable(f)
    ensures var text := CrFrame(codec, f); var k := |text| - 1;
      && Frames(codec, Raws(Normalized([text]))) == [Trimmed(f)]
      && Frames(codec, Raws(Normalized([text[..k], text[k..]]))) == []
  {
    var text := CrFrame(codec, f);
    var k := |text| - 1;
    var cut := [text[..k], text[k..]];
    TwoChunks(text[..k], text[k..]);
    TwoChunks(text, "");
    assert text[..k] + text[k..] == text;
    CrTextThen(Lines(codec, f)[0], Lines(codec, f)[1], Lines(codec, f)[2], "");
    OneFrame(codec, f, {0});
    OneFrame(codec, f, {0, k});
    FramesSurviveIff(codec, [f], [text]);
    LostWhole(codec, f, cut);
  }

  lemma {:induction false} LostWhole(codec: Codec, f: Frame, chunks: seq<string>)
    requires codec.Lawful() && Printable(f) && Concat(chunks) == CrFrame(codec, f)
    requires MarksAt(codec, f, 0, Cuts(chunks)).blank
    ensures Frames(codec, Raws(Normalized(chunks))) == []
  {
    var marks := AllMarks(codec, [f], 0, Cuts(chunks));
    OneFrame(codec, f, Cuts(chunks));
    NormalizedButCuts(chunks);
    StreamNormalized(codec, [f], 0, Cuts(chunks));
    FrameCut(codec, [f], marks);
    assert [f][1..] == [] && MarkedStream(codec, [], marks[1..]) == "";
    FewFrames(codec, Raws(Normalized(chunks)));
  }
}
