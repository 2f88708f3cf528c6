/** The markdown and plain text scanners, loop by loop. */
module TextParser {
  import opened JsonValues
  import opened TextLines
  import opened Patches
  import opened Ingestion
  import opened IngestLaws
  import LS = LineScanner

  type Line = LS.Line

  // ---- Elements from lines ----

  function Trimmed(lines: seq<Line>): seq<string> {
    seq(|lines|, i requires 0 <= i < |lines| => Strip(lines[i].text))
  }

  function Stretch(lines: seq<Line>): Extent
    requires lines != []
  {
    Extent(lines[0].start, lines[|lines| - 1].end, lines[0].number, lines[|lines| - 1].number, [])
  }

  function ParagraphOf(selected: seq<Line>, attributes: map<string, Json>): Element
    requires selected != []
  {
    Element(ParagraphElement, Strip(Join(Trimmed(selected))), 0, attributes, [], Stretch(selected))
  }

  function DropHashes(s: string): string {
    if s != "" && s[|s| - 1] == '#' then DropHashes(s[..|s| - 1]) else s
  }

  function HeadingOf(line: Line, level: nat, title: string): Element {
    Element(HeadingElement, Strip(DropHashes(Strip(title))), level,
            map["section_type" := JText("section"), "source" := JText("markdown")], [], Stretch([line]))
  }

  function ClauseOf(line: Line, level: nat, kind: string): Element {
    Element(HeadingElement, Strip(line.text), level,
            map["section_type" := JText("clause"), "clause_kind" := JText(kind), "source" := JText("rule")],
            [], Stretch([line]))
  }

  function EntryOf(line: Line, rules: LS.Rules): ListEntry {
    var match' := rules.item(line.text);
    if match'.None? then ListEntry("", Stretch([line]), "")
    else ListEntry(Strip(match'.value.1), Stretch([line]), match'.value.0)
  }

  function Entries(lines: seq<Line>, rules: LS.Rules): seq<ListEntry> {
    seq(|lines|, i requires 0 <= i < |lines| => EntryOf(lines[i], rules))
  }

  function Texts(entries: seq<ListEntry>): seq<string> {
    seq(|entries|, i requires 0 <= i < |entries| => entries[i].text)
  }

  predicate Ordered(entries: seq<ListEntry>) {
    exists i | 0 <= i < |entries| :: entries[i].marker != "" && '0' <= entries[i].marker[0] <= '9'
  }

  function ListOf(selected: seq<Line>, entries: seq<ListEntry>, ordered: bool): Element
    requires selected != []
  {
    Element(ListElement, Join(Texts(entries)), 0, map["ordered" := JBool(ordered)], entries, Stretch(selected))
  }

  function StripBars(s: string): string {
    if s != "" && s[0] == '|' then StripBars(s[1..])
    else if s != "" && s[|s| - 1] == '|' then StripBars(s[..|s| - 1])
    else s
  }

  function SplitBars(s: string): (parts: seq<string>)
    ensures parts != []
  {
    if s == "" then [""]
    else
      var rest := SplitBars(s[1..]);
      if s[0] == '|' then [""] + rest else [[s[0]] + rest[0]] + rest[1..]
  }

  /** The cells of a table's line. */
  function Cells(s: string): seq<string> {
    var parts := SplitBars(StripBars(Strip(s)));
    seq(|parts|, i requires 0 <= i < |parts| => Strip(parts[i]))
  }

  function CellTexts(s: string): Json {
    var cells := Cells(s);
    JList(seq(|cells|, i requires 0 <= i < |cells| => JText(cells[i])))
  }

  /** The rows below the header and the line under it; further separators are no rows. */
  function Rows(lines: seq<Line>, rules: LS.Rules): seq<Json> {
    if lines == [] then []
    else
      var k := |lines| - 1;
      Rows(lines[..k], rules) + if rules.separator(lines[k].text) then [] else [CellTexts(lines[k].text)]
  }

  function Body(selected: seq<Line>): seq<Line> {
    if |selected| < 2 then [] else selected[2..]
  }

  function TableOf(selected: seq<Line>, rules: LS.Rules): Element
    requires selected != []
  {
    Element(TableElement, Join(Trimmed(selected)), 0,
            map["header" := CellTexts(selected[0].text), "rows" := JList(Rows(Body(selected), rules)),
                "caption" := JText("")],
            [], Stretch(selected))
  }

  const CODE: map<string, Json> := map["block_type" := JText("code")]

  function ElementOf(mode: LS.Mode, lines: seq<Line>, rules: LS.Rules, r: LS.Range): Element
    requires LS.IsBlock(mode, lines, rules, r)
  {
    var selected := lines[r.from..r.to];
    var s := lines[r.from].text;
    match r.kind
    case CodeBlock => ParagraphOf(selected, CODE)
    case HeadingLine => HeadingOf(lines[r.from], rules.heading(s).value.0, rules.heading(s).value.1)
    case ClauseLine => ClauseOf(lines[r.from], rules.clause(s).value.0, rules.clause(s).value.1)
    case TableBlock => TableOf(selected, rules)
    case ListBlock => ListOf(selected, Entries(selected, rules), Ordered(Entries(selected, rules)))
    case ParagraphBlock => ParagraphOf(selected, map[])
  }

  predicate AllBlocks(mode: LS.Mode, lines: seq<Line>, rules: LS.Rules, ranges: seq<LS.Range>) {
    forall i | 0 <= i < |ranges| :: LS.IsBlock(mode, lines, rules, ranges[i])
  }

  function Elements(mode: LS.Mode, lines: seq<Line>, rules: LS.Rules, ranges: seq<LS.Range>): seq<Element>
    requires AllBlocks(mode, lines, rules, ranges)
  {
    seq(|ranges|, i requires 0 <= i < |ranges| => ElementOf(mode, lines, rules, ranges[i]))
  }

  // ---- The inner loops ----

  /** Through the first line that opens the same fence again. */
  method CodeElement(lines: seq<Line>, rules: LS.Rules, index: nat) returns (e: Element, next: nat)
    requires index < |lines| && !LS.BlankLine(lines[index].text)
    requires LS.KindAt(LS.Markdown, lines, rules, index).CodeBlock?
    ensures var r := LS.Range(LS.CodeBlock, index, next);
      LS.IsBlock(LS.Markdown, lines, rules, r) && e == ElementOf(LS.Markdown, lines, rules, r)
  {
    var fence := LS.Fence(lines[index].text).value;
    var selected := [lines[index]];
    next := index + 1;
    var closed := false;
    while next < |lines| && !closed
      invariant index < next <= |lines| && selected == lines[index..next]
      invariant forall k | index < k < next - 1 :: !LS.Opens(lines[k].text, fence)
      invariant closed ==> next > index + 1 && LS.Opens(lines[next - 1].text, fence)
      invariant !closed && next > index + 1 ==> !LS.Opens(lines[next - 1].text, fence)
      decreases |lines| - next + if closed then 0 else 1
    {
      selected := selected + [lines[next]];
      closed := LS.Opens(lines[next].text, fence);
      next := next + 1;
    }
    e := ParagraphOf(selected, CODE);
  }

  /** The lines that are no separators, as rows of cells. */
  method TableRows(body: seq<Line>, rules: LS.Rules) returns (rows: seq<Json>)
    ensures rows == Rows(body, rules)
  {
    rows := [];
    for k := 0 to |body|
      invariant rows == Rows(body[..k], rules)
    {
      assert body[..k + 1][..k] == body[..k];
      if !rules.separator(body[k].text) {
        rows := rows + [CellTexts(body[k].text)];
      }
    }
    assert body[..|body|] == body;
  }

  method TableElementAt(mode: LS.Mode, lines: seq<Line>, rules: LS.Rules, index: nat) returns (e: Element, next: nat)
    requires index < |lines| && !LS.BlankLine(lines[index].text) && LS.KindAt(mode, lines, rules, index).TableBlock?
    ensures var r := LS.Range(LS.TableBlock, index, next);
      LS.IsBlock(mode, lines, rules, r) && e == ElementOf(mode, lines, rules, r)
  {
    var selected: seq<Line> := [];
    next := index;
    while next < |lines| && LS.TableLine(lines[next].text)
      invariant index <= next <= |lines| && selected == lines[index..next]
      invariant forall k | index < k < next :: LS.TableLine(lines[k].text)
    {
      selected := selected + [lines[next]];
      next := next + 1;
    }
    var rows := TableRows(Body(selected), rules);
    e := Element(TableElement, Join(Trimmed(selected)), 0,
                 map["header" := CellTexts(selected[0].text), "rows" := JList(rows), "caption" := JText("")],
                 [], Stretch(selected));
  }

  method ListElementAt(mode: LS.Mode, lines: seq<Line>, rules: LS.Rules, index: nat) returns (e: Element, next: nat)
    requires index < |lines| && !LS.BlankLine(lines[index].text) && LS.KindAt(mode, lines, rules, index).ListBlock?
    ensures var r := LS.Range(LS.ListBlock, index, next);
      LS.IsBlock(mode, lines, rules, r) && e == ElementOf(mode, lines, rules, r)
  {
    var items: seq<ListEntry> := [];
    var ordered := false;
    var last := lines[index];
    next := index;
    while next < |lines| && rules.item(lines[next].text).Some?
      invariant index <= next <= |lines| && items == Entries(lines[index..next], rules)
      invariant ordered == Ordered(items)
      invariant forall k | index < k < next :: rules.item(lines[k].text).Some?
    {
      var item := EntryOf(lines[next], rules);
      OrderedSnoc(items, item);
      assert lines[index..next + 1] == lines[index..next] + [lines[next]];
      ordered := ordered || (item.marker != "" && '0' <= item.marker[0] <= '9');
      items := items + [item];
      next := next + 1;
    }
    e := ListOf(lines[index..next], items, ordered);
  }

  lemma {:induction false} OrderedSnoc(items: seq<ListEntry>, item: ListEntry)
    ensures Ordered(items + [item]) <==> Ordered(items) || (item.marker != "" && '0' <= item.marker[0] <= '9')
  {
    var more := items + [item];
    if Ordered(items) {
      var i :| 0 <= i < |items| && items[i].marker != "" && '0' <= items[i].marker[0] <= '9';
      assert more[i] == items[i];
    }
    assert more[|items|] == item;
  }

  method ParagraphAt(lines: seq<Line>, rules: LS.Rules, index: nat) returns (e: Element, next: nat)
    requires index < |lines| && !LS.BlankLine(lines[index].text)
    requires LS.KindAt(LS.Markdown, lines, rules, index).ParagraphBlock?
    ensures var r := LS.Range(LS.ParagraphBlock, index, next);
      LS.IsBlock(LS.Markdown, lines, rules, r) && e == ElementOf(LS.Markdown, lines, rules, r)
  {
    var selected: seq<Line> := [];
    next := index;
    while next < |lines|
      invariant index <= next <= |lines| && selected == lines[index..next]
      invariant forall k | index < k < next :: !LS.Stops(LS.Markdown, lines, rules, LS.ParagraphBlock, k)
    {
      var s := lines[next].text;
      if LS.BlankLine(s) {
        break;
      }
      if selected != [] && (rules.heading(s).Some? || LS.TableStarts(lines, rules, next) || rules.item(s).Some?
                            || LS.Fence(s).Some?) {
        break;
      }
      selected := selected + [lines[next]];
      next := next + 1;
    }
    e := ParagraphOf(selected, map[]);
  }

  // ---- The scanners ----

  /** The block that begins at a line that is not blank. */
  method NextBlock(lines: seq<Line>, rules: LS.Rules, index: nat) returns (e: Element, r: LS.Range)
    requires index < |lines| && !LS.BlankLine(lines[index].text)
    ensures r.from == index && LS.IsBlock(LS.Markdown, lines, rules, r) && e == ElementOf(LS.Markdown, lines, rules, r)
  {
    var s := lines[index].text;
    var next: nat;
    if LS.Fence(s).Some? {
      e, next := CodeElement(lines, rules, index);
      return e, LS.Range(LS.CodeBlock, index, next);
    }
    if rules.heading(s).Some? {
      return HeadingOf(lines[index], rules.heading(s).value.0, rules.heading(s).value.1),
             LS.Range(LS.HeadingLine, index, index + 1);
    }
    if rules.clause(s).Some? {
      return ClauseOf(lines[index], rules.clause(s).value.0, rules.clause(s).value.1),
             LS.Range(LS.ClauseLine, index, index + 1);
    }
    if LS.TableStarts(lines, rules, index) {
      e, next := TableElementAt(LS.Markdown, lines, rules, index);
      return e, LS.Range(LS.TableBlock, index, next);
    }
    if rules.item(s).Some? {
      e, next := ListElementAt(LS.Markdown, lines, rules, index);
      return e, LS.Range(LS.ListBlock, index, next);
    }
    e, next := ParagraphAt(lines, rules, index);
    r := LS.Range(LS.ParagraphBlock, index, next);
  }

  /** The blocks found so far, and their elements. */
  ghost predicate Parsed(mode: LS.Mode, lines: seq<Line>, rules: LS.Rules, ranges: seq<LS.Range>, to: nat,
                         result: seq<Element>)
    requires to <= |lines|
  {
    && LS.Segmented(mode, lines, rules, ranges, 0, to)
    && AllBlocks(mode, lines, rules, ranges) && result == Elements(mode, lines, rules, ranges)
  }

  lemma {:induction false} ParsedMore(mode: LS.Mode, lines: seq<Line>, rules: LS.Rules, ranges: seq<LS.Range>, r: LS.Range,
                                      result: seq<Element>)
    requires r.from <= |lines| && Parsed(mode, lines, rules, ranges, r.from, result)
    requires LS.IsBlock(mode, lines, rules, r)
    ensures Parsed(mode, lines, rules, ranges + [r], r.to, result + [ElementOf(mode, lines, rules, r)])
  {
    LS.AddBlock(mode, lines, rules, ranges, 0, r);
  }

  lemma {:induction false} ParsedSkip(mode: LS.Mode, lines: seq<Line>, rules: LS.Rules, ranges: seq<LS.Range>, to: nat,
                                      result: seq<Element>)
    requires to < |lines| && Parsed(mode, lines, rules, ranges, to, result) && LS.BlankLine(lines[to].text)
    ensures Parsed(mode, lines, rules, ranges, to + 1, result)
  {
    LS.SkipBlank(mode, lines, rules, ranges, 0, to);
  }

  /** Block after block; blank lines between them are passed over. */
  method MarkdownElements(lines: seq<Line>, rules: LS.Rules) returns (result: seq<Element>)
    ensures exists ranges :: Parsed(LS.Markdown, lines, rules, ranges, |lines|, result)
  {
    result := [];
    ghost var ranges: seq<LS.Range> := [];
    var index: nat := 0;
    while index < |lines|
      invariant index <= |lines| && Parsed(LS.Markdown, lines, rules, ranges, index, result)
    {
      if LS.BlankLine(lines[index].text) {
        ParsedSkip(LS.Markdown, lines, rules, ranges, index, result);
        index := index + 1;
      } else {
        var e, r := NextBlock(lines, rules, index);
        ParsedMore(LS.Markdown, lines, rules, ranges, r, result);
        ranges := ranges + [r];
        result := result + [e];
        index := r.to;
      }
    }
  }

  /** Lines gathered for a paragraph that has not ended yet. */
  ghost predicate Gathered(lines: seq<Line>, rules: LS.Rules, paragraph: seq<Line>, start: nat, index: nat) {
    && start <= index <= |lines| && paragraph == lines[start..index]
    && (start < index ==>
          !LS.BlankLine(lines[start].text) && LS.KindAt(LS.PlainText, lines, rules, start).ParagraphBlock?)
    && forall k | start < k < index :: !LS.Stops(LS.PlainText, lines, rules, LS.ParagraphBlock, k)
  }

  /** The gathered lines become a paragraph. */
  method Flush(lines: seq<Line>, rules: LS.Rules, paragraph: seq<Line>, ghost start: nat, index: nat,
               result: seq<Element>, ghost ranges: seq<LS.Range>)
    returns (more: seq<Element>, ghost moreRanges: seq<LS.Range>)
    requires Gathered(lines, rules, paragraph, start, index) && Parsed(LS.PlainText, lines, rules, ranges, start, result)
    requires index == |lines| || LS.Stops(LS.PlainText, lines, rules, LS.ParagraphBlock, index)
    ensures Parsed(LS.PlainText, lines, rules, moreRanges, index, more)
  {
    if paragraph == [] {
      return result, ranges;
    }
    ghost var r := LS.Range(LS.ParagraphBlock, start, index);
    ParsedMore(LS.PlainText, lines, rules, ranges, r, result);
    more := result + [ParagraphOf(paragraph, map[])];
    moreRanges := ranges + [r];
  }

  /** The clause or list that begins at a line. */
  method PlainBlock(lines: seq<Line>, rules: LS.Rules, index: nat) returns (e: Element, r: LS.Range)
    requires index < |lines| && !LS.BlankLine(lines[index].text)
    requires rules.clause(lines[index].text).Some? || rules.item(lines[index].text).Some?
    ensures r.from == index && LS.IsBlock(LS.PlainText, lines, rules, r)
    ensures e == ElementOf(LS.PlainText, lines, rules, r)
  {
    var clause := rules.clause(lines[index].text);
    if clause.Some? {
      return ClauseOf(lines[index], clause.value.0, clause.value.1), LS.Range(LS.ClauseLine, index, index + 1);
    }
    var next;
    e, next := ListElementAt(LS.PlainText, lines, rules, index);
    r := LS.Range(LS.ListBlock, index, next);
  }

  /** A clause or list after the elements found so far. */
  method TakeBlock(lines: seq<Line>, rules: LS.Rules, index: nat, result: seq<Element>, ghost ranges: seq<LS.Range>)
    returns (more: seq<Element>, ghost moreRanges: seq<LS.Range>, next: nat)
    requires index < |lines| && !LS.BlankLine(lines[index].text)
    requires rules.clause(lines[index].text).Some? || rules.item(lines[index].text).Some?
    requires Parsed(LS.PlainText, lines, rules, ranges, index, result)
    ensures index < next <= |lines| && Parsed(LS.PlainText, lines, rules, moreRanges, next, more)
  {
    var e, r := PlainBlock(lines, rules, index);
    ParsedMore(LS.PlainText, lines, rules, ranges, r, result);
    more, moreRanges, next := result + [e], ranges + [r], r.to;
  }

  lemma {:induction false} NothingGathered(lines: seq<Line>, rules: LS.Rules, index: nat)
    requires index <= |lines|
    ensures Gathered(lines, rules, [], index, index)
  {
  }

  /** What was gathered, and the blank line behind it. */
  method FlushBlank(lines: seq<Line>, rules: LS.Rules, paragraph: seq<Line>, ghost start: nat, index: nat,
                    result: seq<Element>, ghost ranges: seq<LS.Range>)
    returns (more: seq<Element>, ghost moreRanges: seq<LS.Range>)
    requires Gathered(lines, rules, paragraph, start, index) && Parsed(LS.PlainText, lines, rules, ranges, start, result)
    requires index < |lines| && LS.BlankLine(lines[index].text)
    ensures Parsed(LS.PlainText, lines, rules, moreRanges, index + 1, more)
  {
    more, moreRanges := Flush(lines, rules, paragraph, start, index, result, ranges);
    ParsedSkip(LS.PlainText, lines, rules, moreRanges, index, more);
  }

  method TextElements(lines: seq<Line>, rules: LS.Rules) returns (result: seq<Element>)
    ensures exists ranges :: Parsed(LS.PlainText, lines, rules, ranges, |lines|, result)
  {
    result := [];
    ghost var ranges: seq<LS.Range> := [];
    var index: nat := 0;
    var paragraph: seq<Line> := [];
    ghost var start: nat := 0;
    while index < |lines|
      invariant Gathered(lines, rules, paragraph, start, index)
      invariant Parsed(LS.PlainText, lines, rules, ranges, start, result)
    {
      var s := lines[index].text;
      if LS.BlankLine(s) {
        result, ranges := FlushBlank(lines, rules, paragraph, start, index, result, ranges);
        index := index + 1;
        paragraph, start := [], index;
        NothingGathered(lines, rules, index);
      } else if rules.clause(s).Some? || rules.item(s).Some? {
        result, ranges := Flush(lines, rules, paragraph, start, index, result, ranges);
        result, ranges, index := TakeBlock(lines, rules, index, result, ranges);
        paragraph, start := [], index;
        NothingGathered(lines, rules, index);
      } else {
        GatherMore(lines, rules, paragraph, start, index);
        paragraph := paragraph + [lines[index]];
        index := index + 1;
      }
    }
    result, ranges := Flush(lines, rules, paragraph, start, index, result, ranges);
  }

  lemma {:induction false} GatherMore(lines: seq<Line>, rules: LS.Rules, paragraph: seq<Line>, start: nat, index: nat)
    requires Gathered(lines, rules, paragraph, start, index) && index < |lines|
    requires !LS.BlankLine(lines[index].text)
    requires rules.clause(lines[index].text).None? && rules.item(lines[index].text).None?
    ensures Gathered(lines, rules, paragraph + [lines[index]], start, index + 1)
  {
  }

  // ---- Tables keep their text ----

  /** What is neither blank nor a bar, in order. */
  function Visible(s: string): string {
    if s == "" then ""
    else (if Blank(s[0]) || s[0] == '|' then "" else [s[0]]) + Visible(s[1..])
  }

  lemma {:induction false} VisibleAppend(a: string, b: string)
    ensures Visible(a + b) == Visible(a) + Visible(b)
  {
    if a == "" {
      assert a + b == b;
    } else {
      assert (a + b)[1..] == a[1..] + b;
      VisibleAppend(a[1..], b);
    }
  }

  lemma {:induction false} LastHidden(s: string)
    requires s != "" && (Blank(s[|s| - 1]) || s[|s| - 1] == '|')
    ensures Visible(s[..|s| - 1]) == Visible(s)
  {
    var k := |s| - 1;
    assert s == s[..k] + [s[k]] && [s[k]][1..] == "";
    VisibleAppend(s[..k], [s[k]]);
  }

  lemma {:induction false} StripVisible(s: string)
    ensures Visible(Strip(s)) == Visible(s)
  {
    if s != "" && Blank(s[0]) {
      StripVisible(s[1..]);
    } else if s != "" && Blank(s[|s| - 1]) {
      StripVisible(s[..|s| - 1]);
      LastHidden(s);
    }
  }

  lemma {:induction false} BarsVisible(s: string)
    ensures Visible(StripBars(s)) == Visible(s)
  {
    if s != "" && s[0] == '|' {
      BarsVisible(s[1..]);
    } else if s != "" && s[|s| - 1] == '|' {
      BarsVisible(s[..|s| - 1]);
      LastHidden(s);
    }
  }

  function AllVisible(cells: seq<string>): string {
    if cells == [] then "" else Visible(cells[0]) + AllVisible(cells[1..])
  }

  lemma {:induction false} SplitVisible(s: string)
    ensures AllVisible(SplitBars(s)) == Visible(s)
  {
    if s != "" {
      var rest := SplitBars(s[1..]);
      SplitVisible(s[1..]);
      if s[0] == '|' {
        assert ([""] + rest)[1..] == rest;
      } else {
        VisibleAppend([s[0]], rest[0]);
        assert [s[0]][1..] == "";
        assert ([[s[0]] + rest[0]] + rest[1..])[1..] == rest[1..];
      }
    }
  }

  lemma {:induction false} StripsVisible(parts: seq<string>, cells: seq<string>)
    requires |cells| == |parts| && forall i | 0 <= i < |parts| :: cells[i] == Strip(parts[i])
    ensures AllVisible(cells) == AllVisible(parts)
  {
    if parts != [] {
      StripVisible(parts[0]);
      assert forall i | 0 <= i < |parts| - 1 :: cells[1..][i] == cells[i + 1] && parts[1..][i] == parts[i + 1];
      StripsVisible(parts[1..], cells[1..]);
    }
  }

  function Bars(s: string): nat {
    if s == "" then 0 else (if s[0] == '|' then 1 else 0) + Bars(s[1..])
  }

  lemma {:induction false} OneMoreThanBars(s: string)
    ensures |SplitBars(s)| == Bars(s) + 1
  {
    if s != "" {
      OneMoreThanBars(s[1..]);
    }
  }

  /** Cells hold what is visible in their line, in order, and there is one more of them than
      bars between them. */
  lemma {:induction false} CellsKeepText(s: string)
    ensures AllVisible(Cells(s)) == Visible(s)
    ensures |Cells(s)| == Bars(StripBars(Strip(s))) + 1
  {
    var inner := StripBars(Strip(s));
    StripsVisible(SplitBars(inner), Cells(s));
    SplitVisible(inner);
    BarsVisible(Strip(s));
    StripVisible(s);
    OneMoreThanBars(inner);
  }

  // ---- From text to document ----

  lemma {:induction false} CellsValid(s: string)
    ensures JsonValid(CellTexts(s))
  {
  }

  lemma {:induction false} RowsValid(lines: seq<Line>, rules: LS.Rules)
    ensures forall i | 0 <= i < |Rows(lines, rules)| :: JsonValid(Rows(lines, rules)[i])
  {
    if lines != [] {
      RowsValid(lines[..|lines| - 1], rules);
      CellsValid(lines[|lines| - 1].text);
    }
  }

  lemma {:induction false} TableValid(selected: seq<Line>, rules: LS.Rules)
    requires selected != []
    ensures FieldsValid(TableOf(selected, rules).attributes)
  {
    CellsValid(selected[0].text);
    RowsValid(Body(selected), rules);
    assert "header"[0] == 'h' && "rows"[0] == 'r' && "caption"[0] == 'c';
  }

  lemma {:induction false} AttributesValid(mode: LS.Mode, lines: seq<Line>, rules: LS.Rules, r: LS.Range)
    requires LS.IsBlock(mode, lines, rules, r)
    ensures FieldsValid(ElementOf(mode, lines, rules, r).attributes)
  {
    if r.kind.TableBlock? {
      TableValid(lines[r.from..r.to], rules);
    }
    assert "block_type"[0] == 'b' && "ordered"[0] == 'o' && "section_type"[0] == 's' && "source"[0] == 's';
    assert "clause_kind"[0] == 'c';
  }

  /** The stretch of one line or of several. */
  lemma {:induction false} StretchSound(lines: seq<Line>, from: nat, to: nat, text: string)
    requires LS.Tiles(lines, text) && from < to <= |lines|
    ensures SoundExtent(Stretch(lines[from..to])) && SoundExtent(Stretch([lines[from]]))
    ensures Stretch(lines[from..to]).start == Stretch([lines[from]]).start == lines[from].start
    ensures Stretch(lines[from..to]).startLine == Stretch([lines[from]]).startLine == from + 1
  {
    assert lines[from..to][0] == lines[from] && lines[from..to][to - from - 1] == lines[to - 1];
  }

  lemma {:induction false} EntriesSound(lines: seq<Line>, rules: LS.Rules, from: nat, to: nat, text: string)
    requires LS.Tiles(lines, text) && from < to <= |lines|
    ensures var entries := Entries(lines[from..to], rules);
      forall i | 0 <= i < |entries| :: SoundExtent(entries[i].extent)
  {
    var entries := Entries(lines[from..to], rules);
    forall i | 0 <= i < |entries|
      ensures SoundExtent(entries[i].extent)
    {
      StretchSound(lines, from + i, from + i + 1, text);
      assert entries[i] == EntryOf(lines[from + i], rules);
    }
  }

  lemma {:induction false} ElementSound(mode: LS.Mode, lines: seq<Line>, rules: LS.Rules, r: LS.Range, text: string)
    requires LS.IsBlock(mode, lines, rules, r) && LS.Tiles(lines, text)
    ensures SoundElement(ElementOf(mode, lines, rules, r))
    ensures var x := ElementOf(mode, lines, rules, r).extent;
      x.start == lines[r.from].start && x.startLine == r.from + 1
    ensures var kind := ElementOf(mode, lines, rules, r).kind; !kind.UnknownElement? && !kind.PageBreak?
  {
    AttributesValid(mode, lines, rules, r);
    StretchSound(lines, r.from, r.to, text);
    EntriesSound(lines, rules, r.from, r.to, text);
  }

  /** What the scanners produce is sound: in order, inside the text, with valid attributes. */
  lemma {:induction false} ParsedIsSound(mode: LS.Mode, lines: seq<Line>, rules: LS.Rules, ranges: seq<LS.Range>,
                                         result: seq<Element>, text: string)
    requires Parsed(mode, lines, rules, ranges, |lines|, result) && LS.Tiles(lines, text)
    ensures Sound(result) && Supported(result)
  {
    LS.SegmentsOrdered(mode, lines, rules, ranges, 0, |lines|);
    forall i | 0 <= i < |result|
      ensures SoundElement(result[i]) && !result[i].kind.UnknownElement?
    {
      ElementSound(mode, lines, rules, ranges[i], text);
    }
    forall i, j | 0 <= i < j < |result|
      ensures Comes(result[i], result[j])
    {
      ElementSound(mode, lines, rules, ranges[i], text);
      ElementSound(mode, lines, rules, ranges[j], text);
      StartsGrow(lines, text, ranges[i].from, ranges[j].from);
    }
  }

  lemma {:induction false} StartsGrow(lines: seq<Line>, text: string, i: nat, j: nat)
    requires LS.Tiles(lines, text) && i <= j < |lines|
    ensures lines[i].start <= lines[j].start
    decreases j - i
  {
    if i < j {
      StartsGrow(lines, text, i, j - 1);
      assert lines[j - 1 + 1].start == lines[j - 1].end + 1;
    }
  }

  method ParseText(mode: LS.Mode, text: string, rules: LS.Rules) returns (result: seq<Element>)
    ensures exists ranges :: Parsed(mode, LS.SourceLines(text), rules, ranges, |LS.SourceLines(text)|, result)
  {
    var lines := LS.ReadLines(text);
    if mode.Markdown? {
      result := MarkdownElements(lines, rules);
    } else {
      result := TextElements(lines, rules);
    }
  }

  /** What comes of an uploaded file: refused, left to another parser, or read as text. */
  datatype Upload = Empty | TooLarge | OtherParser | Read(result: Ingested)

  /** An uploaded file, by its extension, its size in bytes and the text these hold. Every
      file that is neither empty nor too large and has a text extension is ingested as a
      valid document, whatever the patterns recognise in it, as soon as the document, the
      version and the file have names. */
  method IngestText(suffix: string, bytes: nat, text: string, maxBytes: nat, rules: LS.Rules, src: Source, versionId: string)
    returns (u: Upload)
    requires bytes == 0 <==> text == ""
    ensures u.Empty? <==> bytes == 0
    ensures u.TooLarge? <==> 0 < bytes && maxBytes < bytes
    ensures u.Read? <==> 0 < bytes <= maxBytes && suffix in [".md", ".txt"]
    ensures u.Read? ==>
      && (u.result.Ingested? <==> NonBlank(src.documentId) && NonBlank(versionId) && NonBlank(src.file))
      && !u.result.Unsupported?
      && (u.result.Ingested? ==>
            Valid(u.result.document) && u.result.document.format == if suffix == ".md" then "markdown" else "text")
  {
    if bytes == 0 {
      return Empty;
    }
    if bytes > maxBytes {
      return TooLarge;
    }
    if suffix !in [".md", ".txt"] {
      return OtherParser;
    }
    var mode := if suffix == ".md" then LS.Markdown else LS.PlainText;
    var format := if suffix == ".md" then "markdown" else "text";
    var elements := ParseText(mode, text, rules);
    ghost var ranges :| Parsed(mode, LS.SourceLines(text), rules, ranges, |LS.SourceLines(text)|, elements);
    LS.LinesTile(text);
    ParsedIsSound(mode, LS.SourceLines(text), rules, ranges, elements, LS.Clean(text));
    IngestSucceedsIff(elements, src, versionId, format);
    var r := IngestDocument(elements, src, versionId, format);
    return Read(r);
  }

  /** Each element is one block of the text, and every line that is not blank is in exactly
      one of them; no other cut of the lines into blocks exists. */
  lemma {:induction false} ParsedCoversOnce(mode: LS.Mode, lines: seq<Line>, rules: LS.Rules, ranges: seq<LS.Range>,
                                            result: seq<Element>, q: nat)
    requires Parsed(mode, lines, rules, ranges, |lines|, result) && q < |lines| && !LS.BlankLine(lines[q].text)
    ensures exists i :: 0 <= i < |ranges| && ranges[i].from <= q < ranges[i].to
    ensures forall i, j | 0 <= i < |ranges| && 0 <= j < |ranges| && ranges[i].from <= q < ranges[i].to
      && ranges[j].from <= q < ranges[j].to :: i == j
    ensures forall other, elements | Parsed(mode, lines, rules, other, |lines|, elements) :: other == ranges && elements == result
  {
    LS.SegmentsCover(mode, lines, rules, ranges, 0, |lines|, q);
    LS.SegmentsOrdered(mode, lines, rules, ranges, 0, |lines|);
    forall other, elements | Parsed(mode, lines, rules, other, |lines|, elements)
      ensures other == ranges && elements == result
    {
      LS.OnlyCut(mode, lines, rules, other, ranges, 0, |lines|);
    }
  }
}
