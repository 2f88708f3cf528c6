/** The ingested tree as a canonical document, and why it is always valid. */
module IngestedDocument {
  import opened Options
  import opened JsonValues
  import opened Decimal
  import opened DocumentTree
  import opened SectionTree
  import opened Ingestion
  import opened TextLines

  // ---- Nodes ----

  function Span(at: Location): Json {
    JObject(map["start_offset" := JInt(at.start), "end_offset" := JInt(at.end),
                "start_line" := JInt(at.startLine), "end_line" := JInt(at.endLine)])
  }

  function Spans(spans: seq<Location>): seq<Json> {
    seq(|spans|, i requires 0 <= i < |spans| => Span(spans[i]))
  }

  function Metadata(b: Block): map<string, Json> {
    var base := map["section_key" := JText(b.sectionKey), "section_type" := JText(b.sectionType),
                    "block_spans" := JList(Spans(b.spans)), "structural_path" := JText(PathText(b.path))];
    if b.kind.HeadingNode? then
      (base["heading_level" := JInt(b.level)] + b.extra)["section_key" := JText(b.sectionKey)]
    else base + b.extra
  }

  function ItemMetadata(b: Block, item: Item, order: nat): map<string, Json> {
    map["section_key" := JText(b.sectionKey), "section_type" := JText(b.sectionType),
        "item_order" := JInt(order), "marker" := JText(item.marker), "block_spans" := JList([Span(item.location)])]
  }

  function ItemNodes(b: Block, src: Source, from: nat): seq<Node>
    requires from <= |b.items|
    decreases |b.items| - from
  {
    if from == |b.items| then []
    else
      var item := b.items[from];
      [Node(NodeId(src.documentId, b.path + [from], ListItemNode), ListItemNode, map[], item.content, [],
            item.location, item.pages, ItemMetadata(b, item, from + 1), NoHash)]
      + ItemNodes(b, src, from + 1)
  }

  function BlockNode(b: Block, children: seq<Node>, src: Source): Node {
    Node(NodeId(src.documentId, b.path, b.kind), b.kind,
         if b.kind.HeadingNode? then map["level" := JInt(b.level)] else map[],
         b.content, children, b.location, b.pages, Metadata(b), NoHash)
  }

  function Nodes(f: seq<Tree<Block>>, src: Source): seq<Node> {
    if f == [] then []
    else
      [BlockNode(f[0].block, ItemNodes(f[0].block, src, 0) + Nodes(f[0].kids, src), src)] + Nodes(f[1..], src)
  }

  function Root(f: seq<Tree<Block>>, src: Source): Node {
    var id := NodeId(src.documentId, ROOT_PATH, DocumentRoot);
    Node(id, DocumentRoot, map[], "", Nodes(f, src), Location(src.file, 0, src.length, 0, 0), [],
         map["section_key" := JText(id), "section_type" := JText("document"), "structural_path" := JText("0")], NoHash)
  }

  // ---- Paths ----

  /** Every child's path is its parent's with its own position behind it. */
  predicate Placed(f: seq<Tree<Block>>, base: seq<nat>, from: nat) {
    f == [] || (
      && f[0].block.path == base + [from]
      && Placed(f[0].kids, f[0].block.path, 0)
      && Placed(f[1..], base, from + 1))
  }

  lemma {:induction false} PlacedSnoc(f: seq<Tree<Block>>, t: Tree<Block>, base: seq<nat>, from: nat)
    requires Placed(f, base, from) && t.block.path == base + [from + |f|] && Placed(t.kids, t.block.path, 0)
    ensures Placed(f + [t], base, from)
  {
    if f == [] {
      assert [t][1..] == [] && f + [t] == [t];
    } else {
      assert (f + [t])[1..] == f[1..] + [t];
      PlacedSnoc(f[1..], t, base, from + 1);
    }
  }

  lemma {:induction false} PlacedPrefix(f: seq<Tree<Block>>, k: nat, base: seq<nat>, from: nat)
    requires Placed(f, base, from) && k < |f|
    ensures Placed(f[..k], base, from) && f[k].block.path == base + [from + k]
  {
    if k > 0 {
      assert f[..k][1..] == f[1..][..k - 1];
      PlacedPrefix(f[1..], k - 1, base, from + 1);
    }
  }

  predicate PlacedSpine(s: Spine<Block>)
    decreases |s.open|
  {
    Placed(s.Top(), PathAbove(s), 0) && (s.open != [] ==>
      var k := |s.open| - 1;
      var outer := Spine(s.root, s.open[..k]);
      PlacedSpine(outer) && s.open[k].block.path == PathAbove(outer) + [|outer.Top()|])
  }

  lemma {:induction false} WithTopPlaced(s: Spine<Block>, kids: seq<Tree<Block>>)
    requires PlacedSpine(s) && Placed(kids, PathAbove(s), 0)
    ensures PlacedSpine(s.WithTop(kids)) && PathAbove(s.WithTop(kids)) == PathAbove(s)
  {
    TopOf(s, kids);
    if s.open != [] {
      assert s.WithTop(kids).open[..|s.open| - 1] == s.open[..|s.open| - 1];
    }
  }

  lemma {:induction false} AddPlaced(s: Spine<Block>, t: Tree<Block>)
    requires PlacedSpine(s) && t.block.path == PathAbove(s) + [|s.Top()|] && Placed(t.kids, t.block.path, 0)
    ensures PlacedSpine(s.Add(t))
  {
    PlacedSnoc(s.Top(), t, PathAbove(s), 0);
    WithTopPlaced(s, s.Top() + [t]);
  }

  lemma {:induction false} PopToPlaced(s: Spine<Block>, level: nat)
    requires PlacedSpine(s)
    ensures PlacedSpine(s.PopTo(level))
    decreases |s.open|
  {
    if s.open != [] && s.open[|s.open| - 1].level >= level {
      var o := s.open[|s.open| - 1];
      AddPlaced(Spine(s.root, s.open[..|s.open| - 1]), Tree(Some(o.level), o.block, o.kids));
      PopToPlaced(s.Pop(), level);
    }
  }

  lemma {:induction false} ClosedPlaced(s: Spine<Block>)
    requires PlacedSpine(s)
    ensures Placed(s.Closed(), ROOT_PATH, 0)
    decreases |s.open|
  {
    if s.open != [] {
      var o := s.open[|s.open| - 1];
      AddPlaced(Spine(s.root, s.open[..|s.open| - 1]), Tree(Some(o.level), o.block, o.kids));
      ClosedPlaced(s.Pop());
    }
  }

  lemma {:induction false} GrowPlaced(s: Spine<Block>, e: Element, src: Source)
    requires PlacedSpine(s)
    ensures PlacedSpine(Grow(s, e, src))
  {
    if KindOf(e.kind).None? {
    } else if e.kind.HeadingElement? {
      var outer := s.PopTo(e.level);
      PopToPlaced(s, e.level);
      assert outer.Push(e.level, HeadingBlock(outer, e, src)).open[..|outer.open|] == outer.open;
    } else if Joins(e, LastTop(s)) {
      var k := |s.Top()| - 1;
      var t := Tree(None, Merged(s.Top()[k].block, e, src), []);
      PlacedPrefix(s.Top(), k, PathAbove(s), 0);
      PlacedSnoc(s.Top()[..k], t, PathAbove(s), 0);
      WithTopPlaced(s, s.Top()[..k] + [t]);
    } else {
      AddPlaced(s, Tree(None, ContentBlock(s, e, src), []));
    }
  }

  lemma {:induction false} BuildPlaced(elements: seq<Element>, src: Source)
    ensures PlacedSpine(Build(elements, src))
  {
    if elements != [] {
      BuildPlaced(elements[..|elements| - 1], src);
      GrowPlaced(Build(elements[..|elements| - 1], src), elements[|elements| - 1], src);
    }
  }

  // ---- Identifiers ----

  predicate Free(s: string, c: char) {
    forall i | 0 <= i < |s| :: s[i] != c
  }

  lemma {:induction false} DigitsFree(n: nat)
    ensures Free(Digits(n), '/') && Free(Digits(n), '\0')
  {
    DigitsRead(n);
  }

  lemma {:induction false} PathFree(path: seq<nat>)
    ensures Free(PathText(path), '\0')
    ensures path != [] ==> PathText(path) != "" && PathText(path)[|PathText(path)| - 1] != '/'
  {
    if path != [] {
      DigitsFree(path[|path| - 1]);
      DigitsRead(path[|path| - 1]);
      PathFree(path[..|path| - 1]);
    }
  }

  lemma {:induction false} LastAt(a: string, x: string, c: char)
    requires Free(x, c)
    ensures var s := a + [c] + x; s[|a|] == c && forall i | |a| < i < |s| :: s[i] != c
  {
    var s := a + [c] + x;
    forall i | |a| < i < |s|
      ensures s[i] != c
    {
      assert s[i] == x[i - |a| - 1];
    }
  }

  /** Text up to the last separator and after it. */
  lemma {:induction false} LastSplit(a: string, x: string, b: string, y: string, c: char)
    requires Free(x, c) && Free(y, c)
    requires a + [c] + x == b + [c] + y
    ensures a == b && x == y
  {
    var s, t := a + [c] + x, b + [c] + y;
    LastAt(a, x, c);
    LastAt(b, y, c);
    assert |a| == |b|;
    assert a == s[..|a|] && b == t[..|b|];
    assert x == s[|a| + 1..] && y == t[|b| + 1..];
  }

  lemma {:induction false} NoSeparator(x: string, b: string, y: string, c: char)
    requires Free(x, c)
    ensures x != b + [c] + y
  {
    assert (b + [c] + y)[|b|] == c;
  }

  lemma {:induction false} PathInjective(p: seq<nat>, q: seq<nat>)
    requires p != [] && q != [] && PathText(p) == PathText(q)
    ensures p == q
    decreases |p|
  {
    var i, j := |p| - 1, |q| - 1;
    DigitsFree(p[i]);
    DigitsFree(q[j]);
    DigitsRead(p[i]);
    DigitsRead(q[j]);
    if i == 0 && j > 0 {
      NoSeparator(Digits(p[0]), PathText(q[..j]), Digits(q[j]), '/');
    } else if j == 0 && i > 0 {
      NoSeparator(Digits(q[0]), PathText(p[..i]), Digits(p[i]), '/');
    } else if i > 0 {
      LastSplit(PathText(p[..i]), Digits(p[i]), PathText(q[..j]), Digits(q[j]), '/');
      PathInjective(p[..i], q[..j]);
      assert p == p[..i] + [p[i]] && q == q[..j] + [q[j]];
    } else {
      assert p == [p[0]] && q == [q[0]];
    }
  }

  lemma {:induction false} SameHead(head: string, x: string, y: string)
    requires head + x == head + y
    ensures x == y
  {
    assert x == (head + x)[|head|..] && y == (head + y)[|head|..];
  }

  lemma {:induction false} NameFree(k: NodeType)
    ensures Free(KindName(k), '\0')
  {
  }

  /** Identifiers of one document tell their paths. */
  lemma {:induction false} IdTellsPath(documentId: string, p: seq<nat>, k: NodeType, q: seq<nat>, l: NodeType)
    requires p != [] && q != [] && NodeId(documentId, p, k) == NodeId(documentId, q, l)
    ensures p == q
  {
    var head := "node_" + Strip(documentId) + "\0";
    NameFree(k);
    NameFree(l);
    LastSplit(head + PathText(p), KindName(k), head + PathText(q), KindName(l), '\0');
    SameHead(head, PathText(p), PathText(q));
    PathInjective(p, q);
  }

  /** Every identifier comes from a path under the base at one of the positions. */
  predicate From(path: seq<nat>, base: seq<nat>, from: nat) {
    |path| > |base| && path[..|base|] == base && path[|base|] >= from
  }

  ghost predicate Under(ids: set<string>, src: Source, base: seq<nat>, from: nat) {
    forall id | id in ids :: exists p, k :: From(p, base, from) && id == NodeId(src.documentId, p, k)
  }

  lemma {:induction false} OwnApart(ids: set<string>, src: Source, path: seq<nat>, k: NodeType)
    requires Under(ids, src, path, 0) && path != []
    ensures NodeId(src.documentId, path, k) !in ids
  {
    var id := NodeId(src.documentId, path, k);
    if id in ids {
      var p, l :| From(p, path, 0) && id == NodeId(src.documentId, p, l);
      IdTellsPath(src.documentId, path, k, p, l);
      assert false;
    }
  }

  lemma {:induction false} PositionsApart(p: seq<nat>, q: seq<nat>, base: seq<nat>, i: nat)
    requires |p| > |base| && p[..|base| + 1] == base + [i] && From(q, base, i + 1)
    ensures p != q
  {
    assert p[|base|] == p[..|base| + 1][|base|] == i;
  }

  /** The identifiers at one position and under it. */
  ghost predicate AtPosition(ids: set<string>, src: Source, base: seq<nat>, i: nat) {
    forall id | id in ids ::
      exists p, k :: |p| > |base| && p[..|base| + 1] == base + [i] && id == NodeId(src.documentId, p, k)
  }

  /** What lies at one position is apart from what lies at later ones. */
  lemma {:induction false} SiblingsApart(own: set<string>, rest: set<string>, src: Source, base: seq<nat>, i: nat)
    requires base != [] && Under(rest, src, base, i + 1) && AtPosition(own, src, base, i)
    ensures own !! rest
  {
    forall id | id in own
      ensures id !in rest
    {
      var p, k :| |p| > |base| && p[..|base| + 1] == base + [i] && id == NodeId(src.documentId, p, k);
      if id in rest {
        var q, l :| From(q, base, i + 1) && id == NodeId(src.documentId, q, l);
        PositionsApart(p, q, base, i);
        IdTellsPath(src.documentId, p, k, q, l);
        assert false;
      }
    }
  }

  lemma {:induction false} PositionUnder(ids: set<string>, src: Source, base: seq<nat>, i: nat, from: nat)
    requires AtPosition(ids, src, base, i) && i >= from
    ensures Under(ids, src, base, from)
  {
    forall id | id in ids
      ensures exists p, k :: From(p, base, from) && id == NodeId(src.documentId, p, k)
    {
      var p, k :| |p| > |base| && p[..|base| + 1] == base + [i] && id == NodeId(src.documentId, p, k);
      assert p[|base|] == p[..|base| + 1][|base|] == i;
      assert p[..|base|] == p[..|base| + 1][..|base|] == base;
      assert From(p, base, from);
    }
  }

  /** A node and what lies under it. */
  lemma {:induction false} NodePosition(below: set<string>, src: Source, base: seq<nat>, i: nat, k: NodeType)
    requires Under(below, src, base + [i], 0)
    ensures AtPosition({NodeId(src.documentId, base + [i], k)} + below, src, base, i)
  {
    var path := base + [i];
    forall id | id in {NodeId(src.documentId, path, k)} + below
      ensures exists p, l :: |p| > |base| && p[..|base| + 1] == base + [i] && id == NodeId(src.documentId, p, l)
    {
      if id in below {
        var p, l :| From(p, path, 0) && id == NodeId(src.documentId, p, l);
        assert p[..|base| + 1] == path;
      } else {
        assert path[..|base| + 1] == path;
      }
    }
  }

  // ---- Unique identifiers ----

  /** Identifiers of a list of nodes at consecutive positions. */
  ghost predicate Numbered(f: seq<Node>, src: Source, base: seq<nat>, from: nat) {
    Unique(f) && Under(Ids(f), src, base, from)
  }

  lemma {:induction false} NumberFirst(t: Node, rest: seq<Node>, src: Source, base: seq<nat>, from: nat, k: NodeType)
    requires base != [] && t.id == NodeId(src.documentId, base + [from], k)
    requires Numbered(t.children, src, base + [from], 0) && Numbered(rest, src, base, from + 1)
    ensures Numbered([t] + rest, src, base, from)
  {
    var own := {t.id} + Ids(t.children);
    OwnApart(Ids(t.children), src, base + [from], k);
    NodePosition(Ids(t.children), src, base, from, k);
    SiblingsApart(own, Ids(rest), src, base, from);
    PositionUnder(own, src, base, from, from);
    LaterUnder(Ids(rest), src, base, from);
    assert ([t] + rest)[1..] == rest;
  }

  lemma {:induction false} LaterUnder(ids: set<string>, src: Source, base: seq<nat>, from: nat)
    requires Under(ids, src, base, from + 1)
    ensures Under(ids, src, base, from)
  {
    forall id | id in ids
      ensures exists p, k :: From(p, base, from) && id == NodeId(src.documentId, p, k)
    {
      var p, k :| From(p, base, from + 1) && id == NodeId(src.documentId, p, k);
      assert From(p, base, from);
    }
  }

  lemma {:induction false} ItemsNumbered(b: Block, src: Source, from: nat)
    requires from <= |b.items| && b.path != []
    ensures Numbered(ItemNodes(b, src, from), src, b.path, from)
    decreases |b.items| - from
  {
    if from < |b.items| {
      ItemsNumbered(b, src, from + 1);
      NumberFirst(ItemNodes(b, src, from)[0], ItemNodes(b, src, from + 1), src, b.path, from, ListItemNode);
    }
  }

  /** Headings have no items, other blocks no children. */
  predicate Plain(f: seq<Tree<Block>>) {
    f == [] || (
      && (f[0].heading.Some? <==> f[0].block.kind.HeadingNode?)
      && (f[0].heading.Some? ==> f[0].block.items == [])
      && (f[0].heading.None? ==> f[0].kids == [])
      && Plain(f[0].kids) && Plain(f[1..]))
  }

  lemma {:induction false} ChildrenNumbered(t: Tree<Block>, src: Source)
    requires t.block.path != [] && (t.heading.Some? ==> t.block.items == []) && (t.heading.None? ==> t.kids == [])
    requires Numbered(Nodes(t.kids, src), src, t.block.path, 0)
    ensures Numbered(ItemNodes(t.block, src, 0) + Nodes(t.kids, src), src, t.block.path, 0)
  {
    var items, kids := ItemNodes(t.block, src, 0), Nodes(t.kids, src);
    ItemsNumbered(t.block, src, 0);
    if t.heading.Some? {
      assert items + kids == kids;
    } else {
      assert items + kids == items;
    }
  }

  lemma {:induction false} NodesNumbered(f: seq<Tree<Block>>, src: Source, base: seq<nat>, from: nat)
    requires Placed(f, base, from) && Plain(f) && base != []
    ensures Numbered(Nodes(f, src), src, base, from)
  {
    if f != [] {
      var b := f[0].block;
      NodesNumbered(f[0].kids, src, b.path, 0);
      NodesNumbered(f[1..], src, base, from + 1);
      ChildrenNumbered(f[0], src);
      var children := ItemNodes(b, src, 0) + Nodes(f[0].kids, src);
      NumberFirst(BlockNode(b, children, src), Nodes(f[1..], src), src, base, from, b.kind);
    }
  }

  lemma {:induction false} RootIsUnique(f: seq<Tree<Block>>, src: Source)
    requires Placed(f, ROOT_PATH, 0) && Plain(f)
    ensures Unique([Root(f, src)])
  {
    NodesNumbered(f, src, ROOT_PATH, 0);
    OwnApart(Ids(Nodes(f, src)), src, ROOT_PATH, DocumentRoot);
    assert [Root(f, src)][1..] == [];
  }
}
