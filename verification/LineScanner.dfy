/** Scanning lines into blocks: fenced code, headings, clauses, tables, lists, paragraphs. */
module LineScanner {
  import opened Options
  import opened TextLines

  datatype Line = Line(text: string, start: nat, end: nat, number: nat)

  // ---- Source lines ----

  /** Lone CRs become LFs. */
  function Returns(s: string): string {
    if s == "" then "" else [if s[0] == '\r' then '\n' else s[0]] + Returns(s[1..])
  }

  function Clean(text: string): string {
    Returns(Normalize(text))
  }

  function Numbered(values: seq<string>, offset: nat, number: nat): seq<Line> {
    if values == [] then []
    else [Line(values[0], offset, offset + |values[0]|, number)]
         + Numbered(values[1..], offset + |values[0]| + 1, number + 1)
  }

  function SourceLines(text: string): seq<Line> {
    Numbered(SplitLines(Clean(text)), 0, 1)
  }

  lemma {:induction false} NumberedStep(values: seq<string>, k: nat, offset: nat, lines: seq<Line>)
    requires k < |values|
    ensures lines + Numbered(values[k..], offset, k + 1)
         == lines + [Line(values[k], offset, offset + |values[k]|, k + 1)]
            + Numbered(values[k + 1..], offset + |values[k]| + 1, k + 2)
  {
    assert values[k..][0] == values[k] && values[k..][1..] == values[k + 1..];
  }

  method ReadLines(text: string) returns (lines: seq<Line>)
    ensures lines == SourceLines(text)
  {
    lines := NumberLines(SplitLines(Clean(text)));
  }

  method NumberLines(values: seq<string>) returns (lines: seq<Line>)
    ensures lines == Numbered(values, 0, 1)
  {
    lines := [];
    var offset: nat := 0;
    assert values[0..] == values;
    for k := 0 to |values|
      invariant Numbered(values, 0, 1) == lines + Numbered(values[k..], offset, k + 1)
    {
      var end := offset + |values[k]|;
      NumberedStep(values, k, offset, lines);
      lines := lines + [Line(values[k], offset, end, k + 1)];
      offset := end + 1;
    }
    assert values[|values|..] == [];
  }

  /** The lines are the text cut at its line ends: each is its own stretch, the next begins
      one character after it, and nothing is left over. */
  predicate Tiles(lines: seq<Line>, text: string) {
    && lines != [] && lines[0].start == 0 && lines[|lines| - 1].end == |text|
    && (forall i | 0 <= i < |lines| ::
          lines[i].start <= lines[i].end <= |text| && lines[i].text == text[lines[i].start..lines[i].end]
          && lines[i].number == i + 1)
    && (forall i | 0 <= i < |lines| - 1 ::
          lines[i + 1].start == lines[i].end + 1 && lines[i].end < |text| && text[lines[i].end] == '\n')
  }

  lemma {:induction false} SplitJoins(s: string)
    ensures SplitLines(s) != [] && Join(SplitLines(s)) == s
    ensures forall i | 0 <= i < |SplitLines(s)| :: '\n' !in SplitLines(s)[i]
  {
    if s != "" {
      SplitJoins(s[1..]);
      var rest := SplitLines(s[1..]);
      if s[0] == '\n' {
        assert SplitLines(s)[1..] == rest;
        assert s == "" + "\n" + s[1..];
      } else {
        assert SplitLines(s)[1..] == rest[1..];
        if |rest| == 1 {
          assert s == [s[0]] + rest[0];
        } else {
          assert Join(SplitLines(s)) == ([s[0]] + rest[0]) + "\n" + Join(rest[1..]);
          assert s == [s[0]] + (rest[0] + "\n" + Join(rest[1..]));
        }
      }
    }
  }

  predicate Placed(lines: seq<Line>, text: string, offset: nat, number: nat) {
    lines == [] || (
      && lines[0].start == offset && lines[0].end == offset + |lines[0].text| <= |text|
      && text[lines[0].start..lines[0].end] == lines[0].text
      && lines[0].number == number
      && (lines[1..] != [] ==> lines[0].end < |text| && text[lines[0].end] == '\n')
      && (lines[1..] == [] ==> lines[0].end == |text|)
      && Placed(lines[1..], text, lines[0].end + 1, number + 1))
  }

  lemma {:induction false} CutText(text: string, offset: nat, value: string, rest: string)
    requires offset <= |text| && text[offset..] == value + "\n" + rest
    ensures offset + |value| < |text| && text[offset..offset + |value|] == value && text[offset + |value|] == '\n'
    ensures text[offset + |value| + 1..] == rest
  {
    var tail := text[offset..];
    assert tail[..|value|] == value && tail[|value|] == '\n' && tail[|value| + 1..] == rest;
    assert text[offset..offset + |value|] == tail[..|value|];
    assert text[offset + |value| + 1..] == tail[|value| + 1..];
  }

  lemma {:induction false} PlacedFirst(line: Line, rest: seq<Line>, text: string)
    requires rest != [] && line.end == line.start + |line.text| && line.end < |text|
    requires text[line.start..line.end] == line.text && text[line.end] == '\n'
    requires Placed(rest, text, line.end + 1, line.number + 1)
    ensures Placed([line] + rest, text, line.start, line.number)
  {
    assert ([line] + rest)[1..] == rest;
  }

  lemma {:induction false} PlacedLast(line: Line, text: string)
    requires line.end == line.start + |line.text| == |text| && text[line.start..] == line.text
    ensures Placed([line], text, line.start, line.number)
  {
    assert [line][1..] == [] && text[line.start..line.end] == text[line.start..];
  }

  /** The first line and the others. */
  lemma {:induction false} JoinCut(values: seq<string>, text: string, offset: nat)
    returns (first: string, rest: seq<string>, next: nat)
    requires |values| > 1 && offset <= |text| && text[offset..] == Join(values)
    ensures values == [first] + rest && rest != [] && next == offset + |first| + 1 <= |text|
    ensures text[offset..next - 1] == first && text[next - 1] == '\n' && text[next..] == Join(rest)
  {
    first, rest := values[0], values[1..];
    next := offset + |first| + 1;
    CutText(text, offset, first, Join(rest));
  }

  lemma {:induction false} JoinStep(first: string, rest: seq<string>, text: string, offset: nat, number: nat)
    requires rest != [] && offset + |first| < |text|
    requires text[offset..offset + |first|] == first && text[offset + |first|] == '\n'
    requires Placed(Numbered(rest, offset + |first| + 1, number + 1), text, offset + |first| + 1, number + 1)
    ensures Placed(Numbered([first] + rest, offset, number), text, offset, number)
  {
    var line := Line(first, offset, offset + |first|, number);
    assert ([first] + rest)[1..] == rest;
    PlacedFirst(line, Numbered(rest, line.end + 1, number + 1), text);
  }

  lemma {:induction false} OnePlaced(values: seq<string>, text: string, offset: nat, number: nat)
    requires |values| == 1 && offset <= |text| && text[offset..] == values[0]
    ensures Placed(Numbered(values, offset, number), text, offset, number)
  {
    var line := Line(values[0], offset, offset + |values[0]|, number);
    PlacedLast(line, text);
    assert values[1..] == [] && Numbered(values, offset, number) == [line] + [];
  }

  lemma {:induction false} JoinPlaced(values: seq<string>, text: string, offset: nat, number: nat)
    requires values != [] && offset <= |text| && text[offset..] == Join(values)
    ensures Placed(Numbered(values, offset, number), text, offset, number)
    decreases |values|
  {
    if |values| == 1 {
      OnePlaced(values, text, offset, number);
    } else {
      var first, rest, next := JoinCut(values, text, offset);
      JoinPlaced(rest, text, next, number + 1);
      JoinStep(first, rest, text, offset, number);
    }
  }

  lemma {:induction false} PlacedTiles(lines: seq<Line>, text: string, offset: nat, number: nat)
    requires Placed(lines, text, offset, number) && lines != []
    ensures lines[0].start == offset && lines[|lines| - 1].end == |text|
    ensures forall i | 0 <= i < |lines| ::
      lines[i].start <= lines[i].end <= |text| && lines[i].text == text[lines[i].start..lines[i].end]
      && lines[i].number == number + i
    ensures forall i | 0 <= i < |lines| - 1 ::
      lines[i + 1].start == lines[i].end + 1 && lines[i].end < |text| && text[lines[i].end] == '\n'
  {
    if |lines| > 1 {
      var rest := lines[1..];
      PlacedTiles(rest, text, lines[0].end + 1, number + 1);
      assert forall i | 0 <= i < |rest| :: rest[i] == lines[i + 1];
      forall i | 0 <= i < |lines|
        ensures lines[i].start <= lines[i].end <= |text| && lines[i].text == text[lines[i].start..lines[i].end]
        ensures lines[i].number == number + i
      {
        if i > 0 {
          assert lines[i] == rest[i - 1];
        }
      }
      forall i | 0 <= i < |lines| - 1
        ensures lines[i + 1].start == lines[i].end + 1 && lines[i].end < |text| && text[lines[i].end] == '\n'
      {
        if i > 0 {
          assert lines[i] == rest[i - 1] && lines[i + 1] == rest[i];
        }
      }
    }
  }

  /** The numbered lines tile the text once its line ends are made the same. */
  lemma {:induction false} LinesTile(text: string)
    ensures Tiles(SourceLines(text), Clean(text))
  {
    var clean := Clean(text);
    SplitJoins(clean);
    assert clean[0..] == clean;
    JoinPlaced(SplitLines(clean), clean, 0, 1);
    PlacedTiles(SourceLines(text), clean, 0, 1);
  }

  // ---- What lines look like ----

  /** The patterns that recognise headings, clauses, list items and table separators. */
  datatype Rules = Rules(heading: string -> Option<(nat, string)>, clause: string -> Option<(nat, string)>,
                         item: string -> Option<(string, string)>, separator: string -> bool)

  predicate BlankLine(s: string) {
    Strip(s) == ""
  }

  function FirstThree(t: string): string {
    if |t| >= 3 then t[..3] else t
  }

  function Fence(s: string): Option<string> {
    if FirstThree(Strip(s)) in ["```", "~~~"] then Some(FirstThree(Strip(s))) else None
  }

  predicate Opens(s: string, fence: string) {
    |fence| <= |Strip(s)| && Strip(s)[..|fence|] == fence
  }

  function Bars(s: string): nat {
    if s == "" then 0 else (if s[0] == '|' then 1 else 0) + Bars(s[1..])
  }

  predicate TableLine(s: string) {
    Strip(s) != "" && Strip(s)[0] == '|' && Bars(Strip(s)) >= 2
  }

  predicate TableStarts(lines: seq<Line>, rules: Rules, k: nat) {
    k + 1 < |lines| && TableLine(lines[k].text) && rules.separator(lines[k + 1].text)
  }

  // ---- Blocks ----

  datatype Mode = Markdown | PlainText

  datatype Kind = CodeBlock | HeadingLine | ClauseLine | TableBlock | ListBlock | ParagraphBlock

  datatype Range = Range(kind: Kind, from: nat, to: nat)

  /** What a line that is not blank begins. */
  function KindAt(mode: Mode, lines: seq<Line>, rules: Rules, k: nat): Kind
    requires k < |lines|
  {
    var s := lines[k].text;
    if mode.Markdown? && Fence(s).Some? then CodeBlock
    else if mode.Markdown? && rules.heading(s).Some? then HeadingLine
    else if rules.clause(s).Some? then ClauseLine
    else if mode.Markdown? && TableStarts(lines, rules, k) then TableBlock
    else if rules.item(s).Some? then ListBlock
    else ParagraphBlock
  }

  /** Whether a running block stops before line k. */
  predicate Stops(mode: Mode, lines: seq<Line>, rules: Rules, kind: Kind, k: nat)
    requires k < |lines|
  {
    var s := lines[k].text;
    match kind
    case HeadingLine => true
    case ClauseLine => true
    case CodeBlock => false
    case TableBlock => !TableLine(s)
    case ListBlock => rules.item(s).None?
    case ParagraphBlock =>
      || BlankLine(s) || rules.item(s).Some?
      || (mode.Markdown? && (rules.heading(s).Some? || TableStarts(lines, rules, k) || Fence(s).Some?))
      || (mode.PlainText? && rules.clause(s).Some?)
  }

  /** Where a block that begins at `from` ends: a code block after the first line that opens
      its fence again, any other before the first line that stops it. */
  predicate EndsAt(mode: Mode, lines: seq<Line>, rules: Rules, r: Range) {
    && r.from < r.to <= |lines|
    && if r.kind.CodeBlock? then
         Fence(lines[r.from].text).Some? &&
         var fence := Fence(lines[r.from].text).value;
         && (forall k | r.from < k < r.to - 1 :: !Opens(lines[k].text, fence))
         && (r.to == |lines| || (r.to > r.from + 1 && Opens(lines[r.to - 1].text, fence)))
       else
         && (forall k | r.from < k < r.to :: !Stops(mode, lines, rules, r.kind, k))
         && (r.to == |lines| || Stops(mode, lines, rules, r.kind, r.to))
  }

  predicate IsBlock(mode: Mode, lines: seq<Line>, rules: Rules, r: Range) {
    && EndsAt(mode, lines, rules, r)
    && !BlankLine(lines[r.from].text)
    && r.kind == KindAt(mode, lines, rules, r.from)
  }

  predicate AllBlank(lines: seq<Line>, from: nat, to: nat)
    requires to <= |lines|
  {
    forall k | from <= k < to :: BlankLine(lines[k].text)
  }

  /** Blocks one after another between two lines, with nothing but blank lines around them. */
  predicate Segmented(mode: Mode, lines: seq<Line>, rules: Rules, ranges: seq<Range>, from: nat, to: nat)
    requires to <= |lines|
    decreases |ranges|
  {
    if ranges == [] then from <= to && AllBlank(lines, from, to)
    else
      var r := ranges[0];
      && IsBlock(mode, lines, rules, r) && from <= r.from && r.to <= to && AllBlank(lines, from, r.from)
      && Segmented(mode, lines, rules, ranges[1..], r.to, to)
  }

  lemma {:induction false} SkipBlank(mode: Mode, lines: seq<Line>, rules: Rules, ranges: seq<Range>, from: nat, to: nat)
    requires to < |lines| && Segmented(mode, lines, rules, ranges, from, to) && BlankLine(lines[to].text)
    ensures Segmented(mode, lines, rules, ranges, from, to + 1)
    decreases |ranges|
  {
    if ranges != [] {
      SkipBlank(mode, lines, rules, ranges[1..], ranges[0].to, to);
    }
  }

  lemma {:induction false} AddBlock(mode: Mode, lines: seq<Line>, rules: Rules, ranges: seq<Range>, from: nat, r: Range)
    requires r.from <= |lines| && Segmented(mode, lines, rules, ranges, from, r.from) && IsBlock(mode, lines, rules, r)
    ensures Segmented(mode, lines, rules, ranges + [r], from, r.to)
    decreases |ranges|
  {
    if ranges == [] {
      assert ([] + [r])[1..] == [] && [] + [r] == [r];
    } else {
      assert (ranges + [r])[1..] == ranges[1..] + [r];
      AddBlock(mode, lines, rules, ranges[1..], ranges[0].to, r);
    }
  }

  // ---- Every line that is not blank is in exactly one block ----

  lemma {:induction false} SegmentsOrdered(mode: Mode, lines: seq<Line>, rules: Rules, ranges: seq<Range>, from: nat, to: nat)
    requires to <= |lines| && Segmented(mode, lines, rules, ranges, from, to)
    ensures from <= to
    ensures forall i | 0 <= i < |ranges| :: from <= ranges[i].from < ranges[i].to <= to
    ensures forall i, j | 0 <= i < j < |ranges| :: ranges[i].to <= ranges[j].from
    decreases |ranges|
  {
    if ranges != [] {
      var rest := ranges[1..];
      SegmentsOrdered(mode, lines, rules, rest, ranges[0].to, to);
      assert forall i | 0 < i < |ranges| :: ranges[i] == rest[i - 1];
    }
  }

  lemma {:induction false} SegmentsCover(mode: Mode, lines: seq<Line>, rules: Rules, ranges: seq<Range>, from: nat, to: nat, q: nat)
    requires to <= |lines| && Segmented(mode, lines, rules, ranges, from, to)
    requires from <= q < to && !BlankLine(lines[q].text)
    ensures exists i :: 0 <= i < |ranges| && ranges[i].from <= q < ranges[i].to
    decreases |ranges|
  {
    if ranges != [] {
      if q < ranges[0].to {
        assert ranges[0].from <= q < ranges[0].to;
      } else {
        SegmentsCover(mode, lines, rules, ranges[1..], ranges[0].to, to, q);
        var i :| 0 <= i < |ranges| - 1 && ranges[1..][i].from <= q < ranges[1..][i].to;
        assert ranges[i + 1].from <= q < ranges[i + 1].to;
      }
    }
  }

  // ---- There is only one way to cut the lines ----

  lemma {:induction false} SameEnd(mode: Mode, lines: seq<Line>, rules: Rules, r: Range, s: Range)
    requires IsBlock(mode, lines, rules, r) && IsBlock(mode, lines, rules, s) && r.from == s.from
    ensures r == s
  {
    if r.to < s.to {
      NoShorter(mode, lines, rules, r, s);
    } else if s.to < r.to {
      NoShorter(mode, lines, rules, s, r);
    }
  }

  lemma {:induction false} NoShorter(mode: Mode, lines: seq<Line>, rules: Rules, r: Range, s: Range)
    requires EndsAt(mode, lines, rules, r) && EndsAt(mode, lines, rules, s) && r.from == s.from && r.kind == s.kind
    ensures s.to <= r.to
  {
  }

  lemma {:induction false} FirstSame(mode: Mode, lines: seq<Line>, rules: Rules, a: seq<Range>, b: seq<Range>, from: nat, to: nat)
    requires to <= |lines| && a != []
    requires Segmented(mode, lines, rules, a, from, to) && Segmented(mode, lines, rules, b, from, to)
    ensures b != [] && b[0].from <= a[0].from
  {
  }

  /** The blocks of a text are determined by its lines. */
  lemma {:induction false} OnlyCut(mode: Mode, lines: seq<Line>, rules: Rules, a: seq<Range>, b: seq<Range>, from: nat, to: nat)
    requires to <= |lines|
    requires Segmented(mode, lines, rules, a, from, to) && Segmented(mode, lines, rules, b, from, to)
    ensures a == b
    decreases |a|
  {
    if a != [] {
      FirstSame(mode, lines, rules, a, b, from, to);
      FirstSame(mode, lines, rules, b, a, from, to);
      SameEnd(mode, lines, rules, a[0], b[0]);
      OnlyCut(mode, lines, rules, a[1..], b[1..], a[0].to, to);
      assert a == [a[0]] + a[1..] && b == [b[0]] + b[1..];
    } else if b != [] {
      FirstSame(mode, lines, rules, b, a, from, to);
    }
  }
}
