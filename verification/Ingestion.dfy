/** Parsed elements become a document: headings nest by level, other blocks go under the
    latest heading, and a paragraph joins a paragraph right before it. */
module Ingestion {
  import opened Options
  import opened JsonValues
  import opened Decimal
  import opened DocumentTree
  import opened SectionTree
  import opened TextLines

  datatype ElementKind = PageBreak | HeadingElement | ParagraphElement | ListElement | TableElement | UnknownElement

  datatype Extent = Extent(start: int, end: int, startLine: int, endLine: int, pages: seq<PageMapping>)

  datatype ListEntry = ListEntry(text: string, extent: Extent, marker: string)

  datatype Element = Element(kind: ElementKind, text: string, level: nat, attributes: map<string, Json>,
                             entries: seq<ListEntry>, extent: Extent)
  {
    predicate Code() { "block_type" in attributes && attributes["block_type"] == JText("code") }
  }

  /** The file an element is placed in: its name and length. */
  datatype Source = Source(documentId: string, file: string, length: nat)

  datatype Item = Item(content: string, location: Location, pages: seq<PageMapping>, marker: string)

  /** A node under construction, without its children. */
  datatype Block = Block(kind: NodeType, level: nat, content: string, items: seq<Item>, location: Location,
                         pages: seq<PageMapping>, spans: seq<Location>, extra: map<string, Json>,
                         path: seq<nat>, sectionKey: string, sectionType: string)
  {
    /** What comes from the elements alone, not from the place in the tree. */
    function Bare(): Block {
      this.(path := [], sectionKey := "", sectionType := "")
    }
  }

  // ---- Places ----

  function Clamp(low: int, x: int, high: int): int {
    var raised := if x < low then low else x;
    if raised > high then high else raised
  }

  function Place(x: Extent, src: Source): Location {
    var start := Clamp(0, x.start, src.length);
    Location(src.file, start, Clamp(start, x.end, src.length), x.startLine, x.endLine)
  }

  function Mapped(pages: seq<PageMapping>, at: Location): seq<PageMapping> {
    if pages == [] then []
    else
      var p := pages[0];
      var start := Clamp(at.start, p.start, at.end);
      (if p.page < 1 then [] else [PageMapping(p.page, start, Clamp(start, p.end, at.end))]) + Mapped(pages[1..], at)
  }

  // ---- Blocks ----

  function KindOf(kind: ElementKind): Option<NodeType> {
    match kind
    case HeadingElement => Some(HeadingNode)
    case ParagraphElement => Some(ParagraphNode)
    case ListElement => Some(ListNode)
    case TableElement => Some(TableNode)
    case _ => None
  }

  function ItemOf(x: ListEntry, src: Source): Item {
    Item(x.text, Place(x.extent, src), Mapped(x.extent.pages, Place(x.extent, src)), x.marker)
  }

  function BlockOf(e: Element, src: Source): Block
    requires KindOf(e.kind).Some?
  {
    var at := Place(e.extent, src);
    Block(KindOf(e.kind).value, if e.kind.HeadingElement? then e.level else 0, e.text,
          if e.kind.ListElement? then seq(|e.entries|, i requires 0 <= i < |e.entries| => ItemOf(e.entries[i], src)) else [],
          at, Mapped(e.extent.pages, at), [at], e.attributes, [], "", "")
  }

  function Max(a: int, b: int): int {
    if a < b then b else a
  }

  /** A paragraph with another one joined to it. */
  function Merged(b: Block, e: Element, src: Source): Block {
    var at := Place(e.extent, src);
    b.(content := b.content + "\n\n" + e.text,
       location := b.location.(end := Max(b.location.end, at.end), endLine := Max(b.location.endLine, at.endLine)),
       spans := b.spans + [at],
       pages := b.pages + Mapped(e.extent.pages, at))
  }

  /** Whether the element joins the block before it. The block's own kind is all that is
      looked at: whether it came from a code block is kept where this test does not look. */
  predicate Joins(e: Element, last: Option<Block>) {
    e.kind.ParagraphElement? && !e.Code() && last.Some? && last.value.kind.ParagraphNode?
  }

  // ---- The blocks in source order ----

  type Listed = seq<(Option<nat>, Block)>

  function LastContent(listed: Listed): Option<Block> {
    if listed != [] && listed[|listed| - 1].0.None? then Some(listed[|listed| - 1].1) else None
  }

  function ListOne(listed: Listed, e: Element, src: Source): Listed {
    if KindOf(e.kind).None? then listed
    else if e.kind.HeadingElement? then listed + [(Some(e.level), BlockOf(e, src))]
    else if Joins(e, LastContent(listed)) then
      listed[..|listed| - 1] + [(None, Merged(LastContent(listed).value, e, src))]
    else listed + [(None, BlockOf(e, src))]
  }

  /** The blocks in order, adjacent paragraphs joined. */
  function Blocks(elements: seq<Element>, src: Source): Listed {
    if elements == [] then []
    else ListOne(Blocks(elements[..|elements| - 1], src), elements[|elements| - 1], src)
  }

  // ---- The tree ----

  function PathText(path: seq<nat>): string {
    if path == [] then ""
    else if |path| == 1 then Digits(path[0])
    else PathText(path[..|path| - 1]) + "/" + Digits(path[|path| - 1])
  }

  function KindName(kind: NodeType): string {
    match kind
    case DocumentRoot => "document"
    case HeadingNode => "heading"
    case ParagraphNode => "paragraph"
    case PageNode => "page"
    case ListNode => "list"
    case ListItemNode => "list_item"
    case TableNode => "table"
  }

  function NodeId(documentId: string, path: seq<nat>, kind: NodeType): string {
    "node_" + Strip(documentId) + "\0" + PathText(path) + "\0" + KindName(kind)
  }

  const ROOT_PATH: seq<nat> := [0]

  function PathAbove(s: Spine<Block>): seq<nat> {
    if s.open == [] then ROOT_PATH else s.open[|s.open| - 1].block.path
  }

  function SectionType(attributes: map<string, Json>, default': string): string {
    if "section_type" in attributes && attributes["section_type"].JText? then attributes["section_type"].s else default'
  }

  /** The section of blocks added now: the innermost open heading, or the document. */
  function SectionOf(s: Spine<Block>, src: Source): (string, string) {
    if s.open == [] then (NodeId(src.documentId, ROOT_PATH, DocumentRoot), "document")
    else
      var b := s.open[|s.open| - 1].block;
      (b.sectionKey, if b.sectionType == "" then "document" else b.sectionType)
  }

  function HeadingBlock(s: Spine<Block>, e: Element, src: Source): Block
    requires e.kind.HeadingElement?
  {
    var path := PathAbove(s) + [|s.Top()|];
    BlockOf(e, src).(path := path, sectionKey := NodeId(src.documentId, path, HeadingNode),
                     sectionType := SectionType(e.attributes, "section"))
  }

  function ContentBlock(s: Spine<Block>, e: Element, src: Source): Block
    requires KindOf(e.kind).Some?
  {
    var section := SectionOf(s, src);
    BlockOf(e, src).(path := PathAbove(s) + [|s.Top()|], sectionKey := section.0, sectionType := section.1)
  }

  function LastTop(s: Spine<Block>): Option<Block> {
    if s.Top() == [] then None else Some(s.Top()[|s.Top()| - 1].block)
  }

  function Grow(s: Spine<Block>, e: Element, src: Source): Spine<Block> {
    if KindOf(e.kind).None? then s
    else if e.kind.HeadingElement? then
      var outer := s.PopTo(e.level);
      outer.Push(e.level, HeadingBlock(outer, e, src))
    else if Joins(e, LastTop(s)) then
      var k := |s.Top()| - 1;
      s.WithTop(s.Top()[..k] + [Tree(None, Merged(s.Top()[k].block, e, src), [])])
    else s.Add(Tree(None, ContentBlock(s, e, src), []))
  }

  function Build(elements: seq<Element>, src: Source): Spine<Block> {
    if elements == [] then Spine([], [])
    else Grow(Build(elements[..|elements| - 1], src), elements[|elements| - 1], src)
  }

  predicate Supported(elements: seq<Element>) {
    forall i | 0 <= i < |elements| :: !elements[i].kind.UnknownElement?
  }

  /** Closes headings as deep as the new one or deeper, and opens it. */
  method OpenHeading(s: Spine<Block>, e: Element, src: Source) returns (r: Spine<Block>)
    requires e.kind.HeadingElement?
    ensures r == Grow(s, e, src)
  {
    r := s;
    while r.open != [] && r.open[|r.open| - 1].level >= e.level
      invariant r.PopTo(e.level) == s.PopTo(e.level)
      decreases |r.open|
    {
      r := r.Pop();
    }
    r := r.Push(e.level, HeadingBlock(r, e, src));
  }

  /** Joins the block to a paragraph right before it, or adds it. */
  method AddContent(s: Spine<Block>, e: Element, src: Source) returns (r: Spine<Block>)
    requires KindOf(e.kind).Some? && !e.kind.HeadingElement?
    ensures r == Grow(s, e, src)
  {
    if e.kind.ParagraphElement? && !e.Code() && s.Top() != [] && s.Top()[|s.Top()| - 1].block.kind.ParagraphNode? {
      var last := |s.Top()| - 1;
      return s.WithTop(s.Top()[..last] + [Tree(None, Merged(s.Top()[last].block, e, src), [])]);
    }
    r := s.Add(Tree(None, ContentBlock(s, e, src), []));
  }

  method CloseAll(s: Spine<Block>) returns (tree: seq<Tree<Block>>)
    ensures tree == s.Closed()
  {
    var r := s;
    while r.open != []
      invariant r.Closed() == s.Closed()
      decreases |r.open|
    {
      r := r.Pop();
    }
    tree := r.root;
  }

  lemma {:induction false} BuildStep(elements: seq<Element>, k: nat, src: Source)
    requires k < |elements|
    ensures Build(elements[..k + 1], src) == Grow(Build(elements[..k], src), elements[k], src)
  {
    assert elements[..k + 1][..k] == elements[..k];
  }

  method AddElement(s: Spine<Block>, e: Element, src: Source) returns (r: Spine<Block>)
    requires !e.kind.UnknownElement?
    ensures r == Grow(s, e, src)
  {
    if e.kind.PageBreak? {
      return s;
    }
    if e.kind.HeadingElement? {
      r := OpenHeading(s, e, src);
    } else {
      r := AddContent(s, e, src);
    }
  }

  /** The running loop: a stack of open headings, popped and pushed as headings come. */
  method BuildTree(elements: seq<Element>, src: Source) returns (tree: Option<seq<Tree<Block>>>)
    ensures tree == if Supported(elements) then Some(Build(elements, src).Closed()) else None
  {
    var s := Spine([], []);
    for k := 0 to |elements|
      invariant s == Build(elements[..k], src)
      invariant forall i | 0 <= i < k :: !elements[i].kind.UnknownElement?
    {
      if elements[k].kind.UnknownElement? {
        return None;
      }
      BuildStep(elements, k, src);
      s := AddElement(s, elements[k], src);
    }
    assert elements[..|elements|] == elements;
    var closed := CloseAll(s);
    tree := Some(closed);
  }

  // ---- The walk is the elements in order ----

  function AllBare(listed: Listed): Listed {
    seq(|listed|, i requires 0 <= i < |listed| => (listed[i].0, listed[i].1.Bare()))
  }

  /** Between elements no closed heading is the last child of the innermost open one. */
  predicate Settled(s: Spine<Block>) {
    Upright(s) && (s.Top() == [] || s.Top()[|s.Top()| - 1].heading.None?)
  }

  lemma {:induction false} NestedLast(f: seq<Tree<Block>>, level: int)
    requires Nested(f, level) && f != [] && f[|f| - 1].heading.None?
    ensures f[|f| - 1].kids == []
  {
    if |f| > 1 {
      NestedLast(f[1..], level);
    }
  }

  lemma {:induction false} LastOfWalk(s: Spine<Block>)
    requires Settled(s)
    ensures LastContent(s.Walk()) == LastTop(s)
    ensures s.Top() != [] ==> s.Top()[|s.Top()| - 1].kids == []
  {
    if s.Top() != [] {
      NestedLast(s.Top(), LevelBelow(s));
      ReplaceWalk(s, s.Top()[|s.Top()| - 1].block);
    } else if s.open != [] {
      var k := |s.open| - 1;
      var outer := Spine(s.root, s.open[..k]);
      assert s == outer.Push(s.open[k].level, s.open[k].block);
      PushWalk(outer, s.open[k].level, s.open[k].block);
    }
  }

  lemma {:induction false} BareAppend(a: Listed, b: Listed)
    ensures AllBare(a + b) == AllBare(a) + AllBare(b)
  {
  }

  lemma {:induction false} BareJoins(e: Element, listed: Listed, src: Source)
    ensures Joins(e, LastContent(AllBare(listed))) <==> Joins(e, LastContent(listed))
    ensures Joins(e, LastContent(listed)) ==>
      Merged(LastContent(listed).value, e, src).Bare() == Merged(LastContent(AllBare(listed)).value, e, src)
  {
  }

  lemma {:induction false} HeadingWalk(s: Spine<Block>, e: Element, src: Source)
    requires e.kind.HeadingElement?
    ensures AllBare(Grow(s, e, src).Walk()) == AllBare(s.Walk()) + [(Some(e.level), BlockOf(e, src))]
  {
    var outer := s.PopTo(e.level);
    PopToWalk(s, e.level);
    PushWalk(outer, e.level, HeadingBlock(outer, e, src));
    BareAppend(s.Walk(), [(Some(e.level), HeadingBlock(outer, e, src))]);
  }

  lemma {:induction false} JoinedWalk(s: Spine<Block>, e: Element, src: Source)
    requires Settled(s) && Joins(e, LastTop(s))
    ensures s.Walk() != [] && LastContent(s.Walk()) == LastTop(s)
    ensures AllBare(Grow(s, e, src).Walk())
         == AllBare(s.Walk())[..|s.Walk()| - 1] + [(None, Merged(LastTop(s).value, e, src).Bare())]
  {
    LastOfWalk(s);
    var merged := Merged(LastTop(s).value, e, src);
    ReplaceWalk(s, merged);
    var before := s.Walk()[..|s.Walk()| - 1];
    BareAppend(before, [(None, merged)]);
    assert AllBare(s.Walk())[..|s.Walk()| - 1] == AllBare(before);
  }

  lemma {:induction false} AddedWalk(s: Spine<Block>, e: Element, src: Source)
    requires KindOf(e.kind).Some? && !e.kind.HeadingElement? && !Joins(e, LastTop(s))
    ensures AllBare(Grow(s, e, src).Walk()) == AllBare(s.Walk()) + [(None, BlockOf(e, src))]
  {
    var t := Tree(None, ContentBlock(s, e, src), []);
    AddWalk(s, t);
    BareAppend(s.Walk(), [(None, t.block)]);
    assert [t][1..] == [];
  }

  lemma {:induction false} GrowWalk(s: Spine<Block>, e: Element, src: Source)
    requires Settled(s)
    ensures AllBare(Grow(s, e, src).Walk()) == ListOne(AllBare(s.Walk()), e, src)
  {
    LastOfWalk(s);
    BareJoins(e, s.Walk(), src);
    if KindOf(e.kind).None? {
    } else if e.kind.HeadingElement? {
      HeadingWalk(s, e, src);
    } else if Joins(e, LastTop(s)) {
      JoinedWalk(s, e, src);
    } else {
      AddedWalk(s, e, src);
    }
  }

  lemma {:induction false} GrowSettled(s: Spine<Block>, e: Element, src: Source)
    requires Settled(s)
    ensures Settled(Grow(s, e, src))
  {
    if KindOf(e.kind).None? {
    } else if e.kind.HeadingElement? {
      PopToUpright(s, e.level);
      PushUpright(s.PopTo(e.level), e.level, HeadingBlock(s.PopTo(e.level), e, src));
    } else if Joins(e, LastTop(s)) {
      ReplaceSettled(s, Merged(LastTop(s).value, e, src));
    } else {
      AddUpright(s, Tree(None, ContentBlock(s, e, src), []));
    }
  }

  lemma {:induction false} NestedPrefix(f: seq<Tree<Block>>, k: nat, level: int)
    requires Nested(f, level) && k <= |f|
    ensures Nested(f[..k], level)
  {
    if k > 0 {
      assert f[..k][1..] == f[1..][..k - 1];
      NestedPrefix(f[1..], k - 1, level);
    }
  }

  lemma {:induction false} NoHeadingBefore(f: seq<Tree<Block>>, level: int)
    requires Nested(f, level) && f != [] && f[|f| - 1].heading.None?
    ensures |f| > 1 ==> f[|f| - 2].heading.None?
  {
    if |f| > 2 {
      NoHeadingBefore(f[1..], level);
    }
  }

  lemma {:induction false} TopAgain(s: Spine<Block>, kids: seq<Tree<Block>>, more: seq<Tree<Block>>)
    ensures s.WithTop(kids).WithTop(more) == s.WithTop(more) && s.WithTop(kids).Top() == kids
    ensures s.open != [] ==> s.WithTop(kids).open[..|s.open| - 1] == s.open[..|s.open| - 1]
    ensures |s.WithTop(kids).open| == |s.open|
  {
  }

  lemma {:induction false} ReplaceSettled(s: Spine<Block>, block: Block)
    requires Settled(s) && s.Top() != []
    ensures Settled(s.WithTop(s.Top()[..|s.Top()| - 1] + [Tree(None, block, [])]))
  {
    var k := |s.Top()| - 1;
    var rest := s.WithTop(s.Top()[..k]);
    TopOf(s, s.Top()[..k]);
    NestedPrefix(s.Top(), k, LevelBelow(s));
    NoHeadingBefore(s.Top(), LevelBelow(s));
    TopAgain(s, s.Top()[..k], s.Top()[..k] + [Tree(None, block, [])]);
    assert Upright(rest);
    AddUpright(rest, Tree(None, block, []));
  }

  lemma {:induction false} BuildSettled(elements: seq<Element>, src: Source)
    ensures Settled(Build(elements, src))
  {
    if elements != [] {
      BuildSettled(elements[..|elements| - 1], src);
      GrowSettled(Build(elements[..|elements| - 1], src), elements[|elements| - 1], src);
    }
  }

  /** The tree is nested by heading level, and walking it gives the elements' blocks in
      source order, adjacent paragraphs joined. */
  lemma {:induction false} TreeIsOutline(elements: seq<Element>, src: Source)
    ensures Nested(Build(elements, src).Closed(), -1)
    ensures AllBare(Preorder(Build(elements, src).Closed())) == Blocks(elements, src)
  {
    BuildSettled(elements, src);
    ClosedIsNested(Build(elements, src));
    if elements != [] {
      var before := elements[..|elements| - 1];
      TreeIsOutline(before, src);
      BuildSettled(before, src);
      GrowWalk(Build(before, src), elements[|elements| - 1], src);
    }
  }

  // ---- Each heading's parent ----

  /** The stack holds the headings its walk leaves open. */
  predicate StackMatches(s: Spine<Block>) {
    Opened(s) == OpenAfter(s.Walk())
  }

  lemma {:induction false} OpenAfterMore(walk: Listed, heading: Option<nat>, b: Block)
    ensures OpenAfter(walk + [(heading, b)])
         == if heading.None? then OpenAfter(walk) else Below(OpenAfter(walk), heading.value) + [(heading.value, b)]
  {
    assert (walk + [(heading, b)])[..|walk|] == walk;
  }

  lemma {:induction false} WithTopOpened(s: Spine<Block>, kids: seq<Tree<Block>>)
    ensures Opened(s.WithTop(kids)) == Opened(s)
  {
  }

  lemma {:induction false} HeadingMatches(s: Spine<Block>, e: Element, src: Source)
    requires StackMatches(s) && e.kind.HeadingElement?
    ensures StackMatches(Grow(s, e, src))
  {
    var outer := s.PopTo(e.level);
    var b := HeadingBlock(outer, e, src);
    PopToWalk(s, e.level);
    PopToBelow(s, e.level);
    PushWalk(outer, e.level, b);
    OpenAfterMore(s.Walk(), Some(e.level), b);
    PushOpened(outer, e.level, b);
  }

  lemma {:induction false} PushOpened(s: Spine<Block>, level: nat, b: Block)
    ensures Opened(s.Push(level, b)) == Opened(s) + [(level, b)]
  {
  }

  lemma {:induction false} JoinedMatches(s: Spine<Block>, e: Element, src: Source)
    requires Settled(s) && StackMatches(s) && Joins(e, LastTop(s))
    ensures StackMatches(Grow(s, e, src))
  {
    var merged := Merged(LastTop(s).value, e, src);
    LastOfWalk(s);
    ReplaceWalk(s, merged);
    WithTopOpened(s, s.Top()[..|s.Top()| - 1] + [Tree(None, merged, [])]);
    LastReplaced(s.Walk(), merged);
  }

  /** What is open does not depend on a last entry that is no heading. */
  lemma {:induction false} LastReplaced(walk: Listed, b: Block)
    requires LastContent(walk).Some?
    ensures OpenAfter(walk[..|walk| - 1] + [(None, b)]) == OpenAfter(walk)
  {
    OpenAfterMore(walk[..|walk| - 1], None, b);
  }

  lemma {:induction false} AddedMatches(s: Spine<Block>, e: Element, src: Source)
    requires StackMatches(s) && KindOf(e.kind).Some? && !e.kind.HeadingElement? && !Joins(e, LastTop(s))
    ensures StackMatches(Grow(s, e, src))
  {
    var t := Tree(None, ContentBlock(s, e, src), []);
    AddWalk(s, t);
    WithTopOpened(s, s.Top() + [t]);
    OpenAfterMore(s.Walk(), None, t.block);
    assert [t][1..] == [];
  }

  lemma {:induction false} GrowMatches(s: Spine<Block>, e: Element, src: Source)
    requires Settled(s) && StackMatches(s)
    ensures StackMatches(Grow(s, e, src))
  {
    if KindOf(e.kind).None? {
    } else if e.kind.HeadingElement? {
      HeadingMatches(s, e, src);
    } else if Joins(e, LastTop(s)) {
      JoinedMatches(s, e, src);
    } else {
      AddedMatches(s, e, src);
    }
  }

  lemma {:induction false} BuildMatches(elements: seq<Element>, src: Source)
    ensures StackMatches(Build(elements, src))
  {
    if elements != [] {
      var before := elements[..|elements| - 1];
      BuildMatches(before, src);
      BuildSettled(before, src);
      GrowMatches(Build(before, src), elements[|elements| - 1], src);
    }
  }

  /** A heading is put under the nearest earlier heading of smaller level, or the root. */
  lemma {:induction false} ParentIsNearest(earlier: seq<Element>, heading: Element, src: Source)
    requires heading.kind.HeadingElement?
    ensures var s := Build(earlier, src); var outer := s.PopTo(heading.level);
      var nearest := Nearest(s.Walk(), heading.level);
      && HeadingBlock(outer, heading, src).path
         == (if nearest.None? then ROOT_PATH else nearest.value.1.path) + [|outer.Top()|]
      && (nearest.Some? ==> nearest.value.0 < heading.level)
  {
    BuildMatches(earlier, src);
    NearestOnTop(Build(earlier, src), heading.level);
    NearestIsSmaller(Build(earlier, src).Walk(), heading.level);
  }

  /** What popping leaves open is the nearest heading of the walk. */
  lemma {:induction false} NearestOnTop(s: Spine<Block>, level: nat)
    requires StackMatches(s)
    ensures var nearest := Nearest(s.Walk(), level);
      PathAbove(s.PopTo(level)) == if nearest.None? then ROOT_PATH else nearest.value.1.path
  {
    PopToBelow(s, level);
    PopFindsNearest(s.Walk(), level);
    LastOpened(s.PopTo(level));
  }

  lemma {:induction false} LastOpened(s: Spine<Block>)
    ensures |Opened(s)| == |s.open|
    ensures s.open != [] ==>
      Opened(s)[|s.open| - 1] == (s.open[|s.open| - 1].level, s.open[|s.open| - 1].block)
  {
  }

  lemma {:induction false} NearestIsSmaller(walk: Listed, level: nat)
    ensures Nearest(walk, level).Some? ==> Nearest(walk, level).value.0 < level
  {
    if walk != [] {
      NearestIsSmaller(walk[..|walk| - 1], level);
    }
  }

  // ---- The only such tree ----

  function BareForest(f: seq<Tree<Block>>): seq<Tree<Block>> {
    if f == [] then []
    else [Tree(f[0].heading, f[0].block.Bare(), BareForest(f[0].kids))] + BareForest(f[1..])
  }

  lemma {:induction false} BareForestWalk(f: seq<Tree<Block>>)
    ensures Preorder(BareForest(f)) == AllBare(Preorder(f))
  {
    if f != [] {
      BareForestWalk(f[0].kids);
      BareForestWalk(f[1..]);
      var head := [(f[0].heading, f[0].block)];
      BareAppend(head + Preorder(f[0].kids), Preorder(f[1..]));
      BareAppend(head, Preorder(f[0].kids));
      assert BareForest(f)[1..] == BareForest(f[1..]);
    }
  }

  lemma {:induction false} BareForestNested(f: seq<Tree<Block>>, level: int)
    requires Nested(f, level)
    ensures Nested(BareForest(f), level)
  {
    if f != [] {
      BareForestNested(f[1..], level);
      if f[0].heading.Some? {
        BareForestNested(f[0].kids, f[0].heading.value);
      }
      assert BareForest(f)[1..] == BareForest(f[1..]);
    }
  }

  /** Any nested outline of the same blocks is the tree that ingestion builds. */
  lemma {:induction false} OnlyOutline(elements: seq<Element>, src: Source, other: seq<Tree<Block>>)
    requires Nested(other, -1) && AllBare(Preorder(other)) == Blocks(elements, src)
    ensures BareForest(other) == BareForest(Build(elements, src).Closed())
  {
    var built := Build(elements, src).Closed();
    TreeIsOutline(elements, src);
    BareForestWalk(built);
    BareForestWalk(other);
    BareForestNested(built, -1);
    BareForestNested(other, -1);
    OutlineIsUnique(BareForest(built), BareForest(other));
  }

  // ---- Code blocks ----

  /** A paragraph is joined to the block before it exactly when that block's node is a
      paragraph: a fenced code block, which is one, takes in the paragraph after it. */
  lemma {:induction false} CodeAbsorbsIff(before: seq<Element>, code: Element, next: Element, src: Source)
    requires code.kind.ParagraphElement? && code.Code() && KindOf(next.kind).Some?
    ensures Blocks(before + [code], src) == Blocks(before, src) + [(None, BlockOf(code, src))]
    ensures Blocks(before + [code, next], src) == Blocks(before + [code], src) + [
              (if next.kind.HeadingElement? then Some(next.level) else None, BlockOf(next, src))]
       <==> !(next.kind.ParagraphElement? && !next.Code())
  {
    var one, two := before + [code], before + [code, next];
    assert one[..|one| - 1] == before && two[..|two| - 1] == one;
  }
}
