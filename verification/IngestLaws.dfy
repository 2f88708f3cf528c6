/** Ingesting well-placed elements always gives a valid document. */
module IngestLaws {
  import opened Options
  import opened JsonValues
  import opened DocumentTree
  import opened Patches
  import opened SectionTree
  import opened Ingestion
  import opened IngestedDocument

  // ---- What parsers give ----

  predicate SoundExtent(x: Extent) {
    x.startLine >= 0 && x.endLine >= 0 && (x.endLine != 0 ==> x.startLine <= x.endLine)
  }

  predicate SoundElement(e: Element) {
    && SoundExtent(e.extent) && FieldsValid(e.attributes)
    && forall i | 0 <= i < |e.entries| :: SoundExtent(e.entries[i].extent)
  }

  predicate Comes(a: Element, b: Element) {
    a.extent.start <= b.extent.start && a.extent.startLine <= b.extent.startLine
  }

  /** Elements in the order they start, apart from page breaks, which hold no text. */
  predicate Sound(elements: seq<Element>) {
    && (forall i | 0 <= i < |elements| :: SoundElement(elements[i]))
    && (forall i, j | 0 <= i < j < |elements| && KindOf(elements[i].kind).Some? && KindOf(elements[j].kind).Some? ::
          Comes(elements[i], elements[j]))
  }

  // ---- Blocks inside the file ----

  predicate Inside(at: Location, pages: seq<PageMapping>, src: Source) {
    && at.file == src.file && 0 <= at.start <= at.end <= src.length
    && at.startLine >= 0 && at.endLine >= 0 && (at.endLine != 0 ==> at.startLine <= at.endLine)
    && forall i | 0 <= i < |pages| :: PageInside(pages[i], at)
  }

  predicate GoodBlock(b: Block, src: Source) {
    && Inside(b.location, b.pages, src) && FieldsValid(b.extra)
    && forall i | 0 <= i < |b.items| :: Inside(b.items[i].location, b.items[i].pages, src)
  }

  /** Kind and place in the outline agree. */
  predicate GoodEntry(x: (Option<nat>, Block), src: Source) {
    && GoodBlock(x.1, src) && (x.0.Some? <==> x.1.kind.HeadingNode?) && (x.0.Some? ==> x.1.items == [])
  }

  predicate PageInside(p: PageMapping, at: Location) {
    p.page >= 1 && at.start <= p.start <= p.end <= at.end
  }

  lemma {:induction false} MappedInside(pages: seq<PageMapping>, at: Location)
    requires at.start <= at.end
    ensures forall i | 0 <= i < |Mapped(pages, at)| :: PageInside(Mapped(pages, at)[i], at)
  {
    if pages != [] {
      MappedInside(pages[1..], at);
      ClampBetween(at.start, pages[0].start, at.end);
      ClampBetween(Clamp(at.start, pages[0].start, at.end), pages[0].end, at.end);
      var m, rest := Mapped(pages, at), Mapped(pages[1..], at);
      forall i | 0 <= i < |m|
        ensures PageInside(m[i], at)
      {
        if pages[0].page < 1 {
          assert m == rest;
        } else if i > 0 {
          assert m[i] == rest[i - 1];
        }
      }
    }
  }

  lemma {:induction false} ClampBetween(low: int, x: int, high: int)
    requires low <= high
    ensures low <= Clamp(low, x, high) <= high
  {
  }

  lemma {:induction false} ExtentInside(x: Extent, src: Source)
    requires SoundExtent(x)
    ensures Inside(Place(x, src), Mapped(x.pages, Place(x, src)), src)
  {
    MappedInside(x.pages, Place(x, src));
  }

  lemma {:induction false} BlockIsGood(e: Element, src: Source)
    requires SoundElement(e) && KindOf(e.kind).Some?
    ensures GoodBlock(BlockOf(e, src), src)
  {
    ExtentInside(e.extent, src);
    var b := BlockOf(e, src);
    forall i | 0 <= i < |b.items|
      ensures Inside(b.items[i].location, b.items[i].pages, src)
    {
      ExtentInside(e.entries[i].extent, src);
    }
  }

  /** The block starts no later than the element. */
  predicate StartsBy(b: Block, e: Element, src: Source) {
    b.location.start <= Place(e.extent, src).start && b.location.startLine <= e.extent.startLine
  }

  lemma {:induction false} MergedIsGood(b: Block, e: Element, src: Source)
    requires GoodBlock(b, src) && SoundElement(e) && StartsBy(b, e, src)
    ensures GoodBlock(Merged(b, e, src), src)
  {
    ExtentInside(e.extent, src);
  }

  /** Every block is good, and starts no later than any element still to come. */
  predicate GoodListed(listed: Listed, src: Source) {
    forall i | 0 <= i < |listed| :: GoodEntry(listed[i], src)
  }

  predicate AllStartBy(listed: Listed, e: Element, src: Source) {
    forall i | 0 <= i < |listed| :: StartsBy(listed[i].1, e, src)
  }

  lemma {:induction false} ListedStarts(listed: Listed, a: Element, e: Element, src: Source)
    requires AllStartBy(listed, a, src) && Comes(a, e)
    requires KindOf(a.kind).Some? && AllStartBy(listed, e, src)
    ensures AllStartBy(ListOne(listed, a, src), e, src)
  {
    assert StartsBy(BlockOf(a, src), e, src);
  }

  lemma {:induction false} ListedGood(listed: Listed, e: Element, src: Source)
    requires GoodListed(listed, src) && SoundElement(e) && (KindOf(e.kind).Some? ==> AllStartBy(listed, e, src))
    ensures GoodListed(ListOne(listed, e, src), src)
  {
    if KindOf(e.kind).Some? {
      BlockIsGood(e, src);
      if Joins(e, LastContent(listed)) {
        MergedIsGood(LastContent(listed).value, e, src);
      }
    }
  }

  lemma {:induction false} BlocksStart(elements: seq<Element>, src: Source, e: Element)
    requires forall i | 0 <= i < |elements| && KindOf(elements[i].kind).Some? :: Comes(elements[i], e)
    requires forall i, j | 0 <= i < j < |elements| && KindOf(elements[i].kind).Some? && KindOf(elements[j].kind).Some? ::
      Comes(elements[i], elements[j])
    ensures AllStartBy(Blocks(elements, src), e, src)
  {
    if elements != [] {
      var k := |elements| - 1;
      BlocksStart(elements[..k], src, e);
      if KindOf(elements[k].kind).Some? {
        BlocksStart(elements[..k], src, elements[k]);
        ListedStarts(Blocks(elements[..k], src), elements[k], e, src);
      }
    }
  }

  lemma {:induction false} BlocksAreGood(elements: seq<Element>, src: Source)
    requires Sound(elements)
    ensures GoodListed(Blocks(elements, src), src)
  {
    if elements != [] {
      var k := |elements| - 1;
      BlocksAreGood(elements[..k], src);
      if KindOf(elements[k].kind).Some? {
        BlocksStart(elements[..k], src, elements[k]);
      }
      ListedGood(Blocks(elements[..k], src), elements[k], src);
    }
  }

  // ---- Nodes inside the file ----

  lemma {:induction false} KeysNonBlank()
    ensures NonBlank("section_key") && NonBlank("section_type") && NonBlank("block_spans")
    ensures NonBlank("structural_path") && NonBlank("heading_level") && NonBlank("level")
    ensures NonBlank("start_offset") && NonBlank("end_offset") && NonBlank("start_line") && NonBlank("end_line")
    ensures NonBlank("item_order") && NonBlank("marker")
  {
    assert "section_key"[0] == 's' && "section_type"[0] == 's' && "block_spans"[0] == 'b';
    assert "structural_path"[0] == 's' && "heading_level"[0] == 'h' && "level"[0] == 'l';
    assert "start_offset"[0] == 's' && "end_offset"[0] == 'e' && "start_line"[0] == 's' && "end_line"[0] == 'e';
    assert "item_order"[0] == 'i' && "marker"[0] == 'm';
  }

  lemma {:induction false} SpanValid(at: Location)
    ensures JsonValid(Span(at))
  {
    KeysNonBlank();
  }

  lemma {:induction false} SpansValid(spans: seq<Location>)
    ensures JsonValid(JList(Spans(spans)))
  {
    forall i | 0 <= i < |spans|
      ensures JsonValid(Spans(spans)[i])
    {
      SpanValid(spans[i]);
    }
  }

  lemma {:induction false} FieldSet(m: map<string, Json>, key: string, value: Json)
    requires FieldsValid(m) && NonBlank(key) && JsonValid(value)
    ensures FieldsValid(m[key := value])
  {
  }

  lemma {:induction false} SectionFields(key: string, kind: string) returns (m: map<string, Json>)
    ensures m == map["section_key" := JText(key), "section_type" := JText(kind)] && FieldsValid(m)
  {
    KeysNonBlank();
    m := map[];
    FieldSet(m, "section_key", JText(key));
    m := m["section_key" := JText(key)];
    FieldSet(m, "section_type", JText(kind));
    m := m["section_type" := JText(kind)];
  }

  lemma {:induction false} MetadataValid(b: Block)
    requires FieldsValid(b.extra)
    ensures FieldsValid(Metadata(b))
  {
    KeysNonBlank();
    SpansValid(b.spans);
    var m := SectionFields(b.sectionKey, b.sectionType);
    FieldSet(m, "block_spans", JList(Spans(b.spans)));
    m := m["block_spans" := JList(Spans(b.spans))];
    FieldSet(m, "structural_path", JText(PathText(b.path)));
    m := m["structural_path" := JText(PathText(b.path))];
    if b.kind.HeadingNode? {
      FieldSet(m, "heading_level", JInt(b.level));
      FieldSet(m["heading_level" := JInt(b.level)] + b.extra, "section_key", JText(b.sectionKey));
    }
  }

  lemma {:induction false} ItemMetadataValid(b: Block, item: Item, order: nat)
    ensures FieldsValid(ItemMetadata(b, item, order))
  {
    KeysNonBlank();
    SpanValid(item.location);
    var m := SectionFields(b.sectionKey, b.sectionType);
    FieldSet(m, "item_order", JInt(order));
    m := m["item_order" := JInt(order)];
    FieldSet(m, "marker", JText(item.marker));
    m := m["marker" := JText(item.marker)];
    assert JsonValid(JList([Span(item.location)]));
    FieldSet(m, "block_spans", JList([Span(item.location)]));
  }

  lemma {:induction false} IdNonBlank(src: Source, path: seq<nat>, k: NodeType)
    ensures NonBlank(NodeId(src.documentId, path, k))
  {
    assert NodeId(src.documentId, path, k)[0] == 'n';
  }

  lemma {:induction false} ItemsValid(b: Block, src: Source, from: nat)
    requires from <= |b.items| && GoodBlock(b, src)
    ensures ForestValid(ItemNodes(b, src, from), src.file, src.length)
    decreases |b.items| - from
  {
    if from < |b.items| {
      ItemsValid(b, src, from + 1);
      ItemMetadataValid(b, b.items[from], from + 1);
      IdNonBlank(src, b.path + [from], ListItemNode);
      assert ItemNodes(b, src, from)[1..] == ItemNodes(b, src, from + 1);
      assert ForestValid([], src.file, src.length);
    }
  }

  lemma {:induction false} BlockNodeValid(b: Block, children: seq<Node>, src: Source)
    requires GoodBlock(b, src)
    ensures NodeValid(BlockNode(b, children, src), src.file, src.length)
  {
    KeysNonBlank();
    MetadataValid(b);
    IdNonBlank(src, b.path, b.kind);
  }

  predicate GoodForest(f: seq<Tree<Block>>, src: Source) {
    f == [] || (GoodEntry((f[0].heading, f[0].block), src) && GoodForest(f[0].kids, src) && GoodForest(f[1..], src))
  }

  lemma {:induction false} GoodWalk(f: seq<Tree<Block>>, src: Source)
    requires GoodListed(Preorder(f), src)
    ensures GoodForest(f, src)
  {
    if f != [] {
      var head, kids, rest := [(f[0].heading, f[0].block)], Preorder(f[0].kids), Preorder(f[1..]);
      assert Preorder(f)[0] == head[0];
      assert forall i | 0 <= i < |kids| :: Preorder(f)[i + 1] == kids[i];
      assert forall i | 0 <= i < |rest| :: Preorder(f)[i + 1 + |kids|] == rest[i];
      GoodWalk(f[0].kids, src);
      GoodWalk(f[1..], src);
    }
  }

  lemma {:induction false} NodesValid(f: seq<Tree<Block>>, src: Source)
    requires GoodForest(f, src)
    ensures ForestValid(Nodes(f, src), src.file, src.length)
  {
    if f != [] {
      var b := f[0].block;
      ItemsValid(b, src, 0);
      NodesValid(f[0].kids, src);
      NodesValid(f[1..], src);
      var children := ItemNodes(b, src, 0) + Nodes(f[0].kids, src);
      ForestValidAppend(ItemNodes(b, src, 0), Nodes(f[0].kids, src), src.file, src.length);
      BlockNodeValid(b, children, src);
      assert Nodes(f, src)[1..] == Nodes(f[1..], src);
    }
  }

  lemma {:induction false} PlainForest(f: seq<Tree<Block>>, src: Source, level: int)
    requires Nested(f, level) && GoodForest(f, src)
    ensures Plain(f)
  {
    if f != [] {
      PlainForest(f[1..], src, level);
      if f[0].heading.Some? {
        PlainForest(f[0].kids, src, f[0].heading.value);
      }
    }
  }

  lemma {:induction false} TreeIsGood(elements: seq<Element>, src: Source)
    requires Sound(elements)
    ensures GoodForest(Build(elements, src).Closed(), src)
  {
    var f := Build(elements, src).Closed();
    TreeIsOutline(elements, src);
    BlocksAreGood(elements, src);
    var walk := Preorder(f);
    forall i | 0 <= i < |walk|
      ensures GoodEntry(walk[i], src)
    {
      assert AllBare(walk)[i] == Blocks(elements, src)[i];
      assert GoodEntry(Blocks(elements, src)[i], src);
    }
    GoodWalk(f, src);
  }

  lemma {:induction false} RootNodeValid(f: seq<Tree<Block>>, src: Source)
    ensures NodeValid(Root(f, src), src.file, src.length)
  {
    var id := NodeId(src.documentId, ROOT_PATH, DocumentRoot);
    KeysNonBlank();
    IdNonBlank(src, ROOT_PATH, DocumentRoot);
    var m := SectionFields(id, "document");
    FieldSet(m, "structural_path", JText("0"));
  }

  lemma {:induction false} RootIsValid(f: seq<Tree<Block>>, src: Source)
    requires GoodForest(f, src)
    ensures ForestValid([Root(f, src)], src.file, src.length)
  {
    NodesValid(f, src);
    RootNodeValid(f, src);
    assert [Root(f, src)][1..] == [];
  }

  // ---- The document ----

  datatype Ingested = Ingested(document: Document) | Unsupported | Rejected

  function DocumentOf(f: seq<Tree<Block>>, src: Source, versionId: string, format: string): Document {
    RehashDocument(Document(src.documentId, versionId, Root(f, src), format, map["file_name" := JText(src.file)],
                            NoDocumentHash, SCHEMA_VERSION))
  }

  function Ingest(elements: seq<Element>, src: Source, versionId: string, format: string): Ingested {
    if !Supported(elements) then Unsupported
    else
      var d := DocumentOf(Build(elements, src).Closed(), src, versionId, format);
      if Valid(d) then Ingested(d) else Rejected
  }

  method IngestDocument(elements: seq<Element>, src: Source, versionId: string, format: string)
    returns (r: Ingested)
    ensures r == Ingest(elements, src, versionId, format)
  {
    var tree := BuildTree(elements, src);
    if tree.None? {
      return Unsupported;
    }
    var d := DocumentOf(tree.value, src, versionId, format);
    r := if Valid(d) then Ingested(d) else Rejected;
  }

  lemma {:induction false} RootFields(f: seq<Tree<Block>>, src: Source)
    ensures Root(f, src).kind == DocumentRoot
    ensures Root(f, src).location.file == src.file && Root(f, src).location.end == src.length
  {
  }

  /** The rehashed tree is what validation asks of a tree. */
  lemma {:induction false} TreeValid(f: seq<Tree<Block>>, src: Source)
    requires GoodForest(f, src) && Plain(f) && Placed(f, ROOT_PATH, 0)
    ensures var root := RehashedRoot(Root(f, src));
      && Unique([root]) && ForestValid([root], src.file, src.length) && Hashed([root])
      && root.kind == DocumentRoot && root.location.file == src.file && root.location.end == src.length
  {
    var root := Root(f, src);
    RootIsValid(f, src);
    RootIsUnique(f, src);
    RootFields(f, src);
    RehashedIsHashed([root]);
    RehashedValid([root], src.file, src.length);
    RehashedOne(root);
    RootOfRehashed(root);
  }

  lemma {:induction false} FileFieldValid(file: string)
    ensures FieldsValid(map["file_name" := JText(file)])
  {
    assert NonBlank("file_name") by {
      assert "file_name"[0] == 'f';
    }
  }

  lemma {:induction false} TreeDocumentValid(f: seq<Tree<Block>>, src: Source, versionId: string, format: string)
    requires GoodForest(f, src) && Plain(f) && Placed(f, ROOT_PATH, 0)
    ensures Valid(DocumentOf(f, src, versionId, format))
       <==> NonBlank(src.documentId) && NonBlank(versionId) && NonBlank(src.file)
  {
    TreeValid(f, src);
    FileFieldValid(src.file);
  }

  /** Sound elements of known kinds are ingested exactly when the document, the version and
      the file have names. */
  lemma {:induction false} IngestSucceedsIff(elements: seq<Element>, src: Source, versionId: string, format: string)
    requires Sound(elements)
    ensures Ingest(elements, src, versionId, format).Ingested?
       <==> Supported(elements) && NonBlank(src.documentId) && NonBlank(versionId) && NonBlank(src.file)
  {
    var s := Build(elements, src);
    TreeIsOutline(elements, src);
    TreeIsGood(elements, src);
    PlainForest(s.Closed(), src, -1);
    BuildPlaced(elements, src);
    ClosedPlaced(s);
    TreeDocumentValid(s.Closed(), src, versionId, format);
  }
}
