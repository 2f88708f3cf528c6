/** Everything the parser accepts prints to text that it accepts again, as the same patch. */
module PatchText {
  import opened Options
  import opened TextLines
  import opened Digests
  import opened DocumentTree
  import opened PatchLimits
  import opened PatchTree
  import opened Patches
  import PC = PatchCodec

  type Tree = PC.Tree

  // ---- What is read fits where it was read from ----

  predicate ItemsWithin(items: seq<Tree>, depth: int) {
    forall i | 0 <= i < |items| :: PC.Within(items[i], depth)
  }

  lemma {:induction false} PlaceReadFits(t: Tree, depth: int)
    requires PC.ReadPlace(t).Some? && PC.Within(t, depth)
    ensures Trim(PC.ReadPlace(t).value.file) && PC.Within(PC.PlaceTree(PC.ReadPlace(t).value), depth)
  {
    assert PC.FileField in t.fields && PC.Within(t.fields[PC.FileField], depth - 1);
    PC.PlaceFits(PC.ReadPlace(t).value, depth);
  }

  lemma {:induction false} PageReadFits(t: Tree, depth: int)
    requires PC.ReadPage(t).Some? && PC.Within(t, depth)
    ensures PC.Within(PC.PageTree(PC.ReadPage(t).value), depth)
  {
    var m := PC.PageTree(PC.ReadPage(t).value).fields;
    assert PC.PageField in t.fields && PC.Within(t.fields[PC.PageField], depth - 1);
    PC.ObjectFits(m, depth);
  }

  lemma {:induction false} PagesReadFit(items: seq<Tree>, depth: int)
    requires PC.ReadPages(items).Some? && ItemsWithin(items, depth)
    ensures ItemsWithin(PC.PageTrees(PC.ReadPages(items).value), depth)
  {
    if items != [] {
      PageReadFits(items[0], depth);
      PagesReadFit(items[1..], depth);
    }
  }

  /** Where the parts of a node were read. */
  lemma {:induction false} NodeParts(t: Tree)
    requires PC.ReadNode(t).Some?
    ensures PC.NodeShape(t)
    ensures var m, node := t.fields, PC.ReadNode(t).value;
      && node.attributes == m[PC.AttributesField].free && node.metadata == m[PC.MetadataField].free
      && PC.ReadPlace(m[PC.PlaceField]) == Some(node.place)
      && PC.ReadPages(m[PC.PagesField].items) == Some(node.pages)
      && PC.ReadNodes(m[PC.ChildrenField].items) == Some(node.children)
  {
  }

  lemma {:induction false} NodeReadOwn(t: Tree)
    requires PC.ReadNode(t).Some? && Trim(PC.ReadNode(t).value.place.file)
    ensures PC.OwnReadable(PC.ReadNode(t).value)
  {
  }

  lemma {:induction false} PartsWithin(t: Tree, depth: int)
    requires PC.NodeShape(t) && PC.Within(t, depth)
    ensures depth >= 1
    ensures var m := t.fields;
      && PC.Within(PC.Free(m[PC.AttributesField].free), depth - 1)
      && PC.Within(PC.Free(m[PC.MetadataField].free), depth - 1)
      && PC.Within(m[PC.PlaceField], depth - 1)
      && ItemsWithin(m[PC.PagesField].items, depth - 2) && ItemsWithin(m[PC.ChildrenField].items, depth - 2)
  {
    var m := t.fields;
    PC.WithinField(t, PC.AttributesField, depth);
    PC.WithinField(t, PC.MetadataField, depth);
    PC.WithinField(t, PC.PlaceField, depth);
    PC.WithinField(t, PC.PagesField, depth);
    PC.WithinField(t, PC.ChildrenField, depth);
  }

  lemma {:induction false} ItemsFit(items: seq<Tree>, depth: int)
    requires depth >= 0 && ItemsWithin(items, depth - 1)
    ensures PC.Within(PC.Arr(items), depth)
  {
  }

  /** A node made of parts that were read fits where they were read from. */
  lemma {:induction false} PartsFit(node: PC.RawNode, place: Tree, pages: seq<Tree>, depth: int)
    requires depth >= 0
    requires PC.ReadPlace(place) == Some(node.place) && PC.Within(place, depth)
    requires PC.ReadPages(pages) == Some(node.pages) && ItemsWithin(pages, depth - 1)
    requires PC.Within(PC.Free(node.attributes), depth) && PC.Within(PC.Free(node.metadata), depth)
    requires ItemsWithin(PC.NodeTrees(node.children), depth - 1)
    ensures PC.Within(PC.NodeTree(node), depth + 1) && Trim(node.place.file)
  {
    PlaceReadFits(place, depth);
    PagesReadFit(pages, depth - 1);
    ItemsFit(PC.PageTrees(node.pages), depth);
    ItemsFit(PC.NodeTrees(node.children), depth);
    PC.NodeFits(node, depth + 1);
  }

  /** The trees that a node's place and pages were read from. */
  lemma {:induction false} PlaceAndPages(t: Tree, node: PC.RawNode, depth: int) returns (place: Tree, pages: seq<Tree>)
    requires PC.NodeShape(t) && PC.Within(t, depth)
    requires PC.ReadPlace(t.fields[PC.PlaceField]) == Some(node.place)
    requires PC.ReadPages(t.fields[PC.PagesField].items) == Some(node.pages)
    ensures PC.ReadPlace(place) == Some(node.place) && PC.Within(place, depth - 1)
    ensures PC.ReadPages(pages) == Some(node.pages) && ItemsWithin(pages, depth - 2)
  {
    PartsWithin(t, depth);
    place, pages := t.fields[PC.PlaceField], t.fields[PC.PagesField].items;
  }

  lemma {:induction false} ShapeFits(t: Tree, node: PC.RawNode, depth: int)
    requires PC.NodeShape(t) && PC.Within(t, depth)
    requires node.attributes == t.fields[PC.AttributesField].free && node.metadata == t.fields[PC.MetadataField].free
    requires PC.ReadPlace(t.fields[PC.PlaceField]) == Some(node.place)
    requires PC.ReadPages(t.fields[PC.PagesField].items) == Some(node.pages)
    requires ItemsWithin(PC.NodeTrees(node.children), depth - 2)
    ensures PC.Within(PC.NodeTree(node), depth) && Trim(node.place.file)
  {
    var place, pages := PlaceAndPages(t, node, depth);
    PartsWithin(t, depth);
    PartsFit(node, place, pages, depth - 1);
  }

  lemma {:induction false} NodeReadFits(t: Tree, depth: int)
    requires PC.ReadNode(t).Some? && PC.Within(t, depth)
    ensures PC.Readable([PC.ReadNode(t).value]) && PC.Within(PC.NodeTree(PC.ReadNode(t).value), depth)
    decreases t, 0
  {
    NodeParts(t);
    assert ItemsWithin(t.fields[PC.ChildrenField].items, depth - 2) by {
      PartsWithin(t, depth);
    }
    NodesReadFit(t.fields[PC.ChildrenField].items, depth - 2);
    ShapeFits(t, PC.ReadNode(t).value, depth);
    NodeReadOwn(t);
    OneReadable(PC.ReadNode(t).value);
  }

  lemma {:induction false} OneReadable(t: PC.RawNode)
    requires PC.OwnReadable(t) && PC.Readable(t.children)
    ensures PC.Readable([t])
  {
    assert [t][1..] == [];
  }

  /** Nodes that were read are readable, and reach no deeper than what they were read from. */
  lemma {:induction false} NodesReadFit(items: seq<Tree>, depth: int)
    requires PC.ReadNodes(items).Some? && ItemsWithin(items, depth)
    ensures PC.Readable(PC.ReadNodes(items).value) && ItemsWithin(PC.NodeTrees(PC.ReadNodes(items).value), depth)
    decreases items, 1
  {
    if items != [] {
      NodeReadFits(items[0], depth);
      NodesReadFit(items[1..], depth);
    }
  }

  lemma {:induction false} OperationParts(t: Tree, limits: Limits)
    requires PC.ReadOperation(t, limits).Some?
    ensures t.Obj? && PC.OpField in t.fields
    ensures var m, o := t.fields, PC.ReadOperation(t, limits).value;
      && PC.ValidOperation(o, limits) && Trim(o.nodeId)
      && (o.node.Some? ==> PC.NodeField in m && PC.ReadNode(m[PC.NodeField]) == o.node)
      && (o.attributes.Some? ==> PC.AttributesField in m && m[PC.AttributesField] == PC.Free(o.attributes.value))
  {
  }

  lemma {:induction false} FieldWithin(m: map<PC.Field, Tree>, f: PC.Field, depth: int)
    requires f in m && PC.Within(PC.Obj(m), depth)
    ensures PC.Within(m[f], depth - 1)
  {
    PC.WithinField(PC.Obj(m), f, depth);
  }

  lemma {:induction false} NodeOfOperation(m: map<PC.Field, Tree>, o: PC.RawOperation, depth: int)
    requires PC.Within(PC.Obj(m), depth)
    requires o.node.Some? && PC.NodeField in m && PC.ReadNode(m[PC.NodeField]) == o.node
    ensures PC.Within(PC.NodeTree(o.node.value), depth - 1)
    ensures PC.Readable([o.node.value])
  {
    FieldWithin(m, PC.NodeField, depth);
    NodeReadFits(m[PC.NodeField], depth - 1);
  }

  lemma {:induction false} OperationReadFits(t: Tree, limits: Limits, depth: int)
    requires PC.ReadOperation(t, limits).Some? && PC.Within(t, depth)
    ensures var o := PC.ReadOperation(t, limits).value;
      PC.ValidOperation(o, limits) && PC.ReadableOperation(o) && PC.Within(PC.OperationTree(o), depth)
  {
    var m, o := t.fields, PC.ReadOperation(t, limits).value;
    OperationParts(t, limits);
    FieldWithin(m, PC.OpField, depth);
    if o.attributes.Some? {
      FieldWithin(m, PC.AttributesField, depth);
    }
    if o.node.Some? {
      NodeOfOperation(m, o, depth);
    }
    PC.OperationFits(o, depth);
  }

  lemma {:induction false} OperationsReadFit(items: seq<Tree>, limits: Limits, depth: int)
    requires PC.ReadOperations(items, limits).Some? && ItemsWithin(items, depth)
    ensures var os := PC.ReadOperations(items, limits).value;
      && |os| == |items| && PC.AllReadable(os, limits) && ItemsWithin(PC.OperationTrees(os), depth)
  {
    if items != [] {
      OperationReadFits(items[0], limits, depth);
      OperationsReadFit(items[1..], limits, depth);
    }
  }

  lemma {:induction false} TextsReadFit(items: seq<Tree>, depth: int)
    requires PC.ReadTexts(items).Some? && ItemsWithin(items, depth)
    ensures ItemsWithin(PC.Texts(PC.ReadTexts(items).value), depth)
  {
    if items != [] {
      TextsReadFit(items[1..], depth);
    }
  }

  lemma {:induction false} SetParts(m: map<PC.Field, Tree>, limits: Limits, p: PC.RawPatch)
    requires PC.ReadSet(m, limits) == Some(p)
    ensures PC.OperationsField in m && m[PC.OperationsField].Arr?
    ensures PC.ReadOperations(m[PC.OperationsField].items, limits) == Some(p.operations)
    ensures PC.EvidenceTree(m).Arr? && PC.ReadTexts(PC.EvidenceTree(m).items) == Some(p.evidence)
    ensures Trim(p.resourceId) && Trim(p.baseVersionId) && Trim(p.reason)
  {
  }

  lemma {:induction false} OperationsFieldFits(t: Tree, os: seq<PC.RawOperation>, limits: Limits, depth: int)
    requires t.Arr? && PC.ReadOperations(t.items, limits) == Some(os) && PC.Within(t, depth)
    ensures PC.Within(PC.Arr(PC.OperationTrees(os)), depth)
    ensures forall o | o in os :: PC.ReadableOperation(o)
  {
    OperationsReadFit(t.items, limits, depth - 1);
    PC.ReadableIffBoth(os, limits);
    ItemsFit(PC.OperationTrees(os), depth);
  }

  lemma {:induction false} EvidenceFieldFits(t: Tree, refs: seq<string>, depth: int)
    requires t.Arr? && PC.ReadTexts(t.items) == Some(refs) && PC.Within(t, depth)
    ensures PC.Within(PC.Arr(PC.Texts(refs)), depth)
  {
    TextsReadFit(t.items, depth - 1);
    ItemsFit(PC.Texts(refs), depth);
  }

  lemma {:induction false} EvidenceWithin(m: map<PC.Field, Tree>, depth: int)
    requires PC.Within(PC.Obj(m), depth) && depth >= 1
    ensures PC.Within(PC.EvidenceTree(m), depth - 1)
  {
    if PC.EvidenceField in m {
      FieldWithin(m, PC.EvidenceField, depth);
    }
  }

  lemma {:induction false} SetReadable(p: PC.RawPatch)
    requires Trim(p.resourceId) && Trim(p.baseVersionId) && Trim(p.reason)
    requires forall o | o in p.operations :: PC.ReadableOperation(o)
    ensures PC.ReadableSet(p)
  {
  }

  /** A patch made of parts that were read fits where they were read from. */
  lemma {:induction false} SetFits(p: PC.RawPatch, operations: Tree, evidence: Tree, limits: Limits, depth: int)
    requires operations.Arr? && PC.Within(operations, depth)
    requires PC.ReadOperations(operations.items, limits) == Some(p.operations)
    requires evidence.Arr? && PC.Within(evidence, depth) && PC.ReadTexts(evidence.items) == Some(p.evidence)
    ensures PC.Within(PC.PatchTree(p), depth + 1)
    ensures forall o | o in p.operations :: PC.ReadableOperation(o)
  {
    OperationsFieldFits(operations, p.operations, limits, depth);
    EvidenceFieldFits(evidence, p.evidence, depth);
    PC.PatchFits(p, depth + 1);
  }

  /** The trees that a patch's operations and evidence were read from. */
  lemma {:induction false} SetTrees(m: map<PC.Field, Tree>, limits: Limits, p: PC.RawPatch, depth: int)
    returns (operations: Tree, evidence: Tree)
    requires PC.ReadSet(m, limits) == Some(p) && PC.Within(PC.Obj(m), depth)
    ensures operations.Arr? && PC.Within(operations, depth - 1)
    ensures PC.ReadOperations(operations.items, limits) == Some(p.operations)
    ensures evidence.Arr? && PC.Within(evidence, depth - 1) && PC.ReadTexts(evidence.items) == Some(p.evidence)
    ensures Trim(p.resourceId) && Trim(p.baseVersionId) && Trim(p.reason)
  {
    SetParts(m, limits, p);
    FieldWithin(m, PC.OperationsField, depth);
    EvidenceWithin(m, depth);
    operations, evidence := m[PC.OperationsField], PC.EvidenceTree(m);
  }

  lemma {:induction false} SetPrints(m: map<PC.Field, Tree>, limits: Limits, p: PC.RawPatch, depth: int)
    requires PC.ReadSet(m, limits) == Some(p) && PC.Within(PC.Obj(m), depth)
    ensures PC.Within(PC.PatchTree(p), depth)
    ensures PC.ReadableSet(p)
  {
    var operations, evidence := SetTrees(m, limits, p, depth);
    SetFits(p, operations, evidence, limits, depth - 1);
    SetReadable(p);
  }

  lemma {:induction false} OperationsReadValid(items: seq<Tree>, limits: Limits)
    requires PC.ReadOperations(items, limits).Some?
    ensures |PC.ReadOperations(items, limits).value| == |items| && PC.AllValid(PC.ReadOperations(items, limits).value, limits)
  {
    if items != [] {
      OperationsReadValid(items[1..], limits);
      var os, rest := PC.ReadOperations(items, limits).value, PC.ReadOperations(items[1..], limits).value;
      assert os[1..] == rest && os[0] == PC.ReadOperation(items[0], limits).value;
    }
  }

  lemma {:induction false} TextsReadCount(items: seq<Tree>)
    requires PC.ReadTexts(items).Some?
    ensures |PC.ReadTexts(items).value| == |items|
  {
    if items != [] {
      TextsReadCount(items[1..]);
    }
  }

  /** What was read under the limits given is valid under them if it is under any. */
  lemma {:induction false} SetWellFormed(m: map<PC.Field, Tree>, limits: Limits, p: PC.RawPatch)
    requires PC.ReadSet(m, limits) == Some(p) && PC.WellFormed(p, DEFAULT_LIMITS)
    ensures PC.WellFormed(p, limits)
  {
    OperationsReadValid(m[PC.OperationsField].items, limits);
    TextsReadCount(PC.EvidenceTree(m).items);
  }

  /** Printing what was parsed, and parsing that, gives the same patch again, whatever
      optional fields the first text left out or set to null. */
  lemma {:induction false} ParsedPrintsBack(t: Tree, limits: Limits, p: PC.RawPatch)
    requires PC.ParseStrict(t, limits) == Some(p)
    ensures PC.ParseStrict(PC.PatchTree(p), limits) == Some(p)
  {
    SetPrints(t.fields, limits, p, limits.maxDepth);
    SetWellFormed(t.fields, limits, p);
    PC.ParsesBackIff(p, limits);
  }

  // ---- Documents' own patches as texts ----

  /** How hashes are written, and what text is read as. */
  datatype Digest = Digest(write: Hash -> string, read: string -> Hash)

  function KindName(kind: NodeType): string {
    match kind
    case DocumentRoot => "document"
    case HeadingNode => "heading"
    case ParagraphNode => "paragraph"
    case PageNode => "page"
    case ListNode => "list"
    case ListItemNode => "list_item"
    case TableNode => "table"
  }

  function KindOf(name: string): NodeType {
    match name
    case "document" => DocumentRoot
    case "heading" => HeadingNode
    case "page" => PageNode
    case "list" => ListNode
    case "list_item" => ListItemNode
    case "table" => TableNode
    case _ => ParagraphNode
  }

  function PagesOut(pages: seq<PageMapping>): seq<PC.Page> {
    seq(|pages|, i requires 0 <= i < |pages| => PC.Page(pages[i].page, pages[i].start, pages[i].end))
  }

  function PagesIn(pages: seq<PC.Page>): seq<PageMapping> {
    seq(|pages|, i requires 0 <= i < |pages| => PageMapping(pages[i].page, pages[i].start, pages[i].end))
  }

  function NodesOut(f: seq<Node>, digest: Digest): seq<PC.RawNode> {
    if f == [] then []
    else
      var t := f[0];
      var place := PC.Place(t.location.file, t.location.start, t.location.end, t.location.startLine, t.location.endLine);
      [PC.RawNode(t.id, KindName(t.kind), t.attributes, t.content, NodesOut(t.children, digest), place, PagesOut(t.pages),
                  t.metadata, digest.write(t.hash))] + NodesOut(f[1..], digest)
  }

  function NodesIn(f: seq<PC.RawNode>, digest: Digest): seq<Node> {
    if f == [] then []
    else
      var t := f[0];
      var place := Location(t.place.file, t.place.start, t.place.end, t.place.startLine, t.place.endLine);
      [Node(t.id, KindOf(t.kind), t.attributes, t.content, NodesIn(t.children, digest), place, PagesIn(t.pages),
            t.metadata, digest.read(t.hash))] + NodesIn(f[1..], digest)
  }

  /** The hashes that the nodes of a forest carry. */
  function HashesIn(f: seq<Node>): set<Hash> {
    if f == [] then {} else {f[0].hash} + HashesIn(f[0].children) + HashesIn(f[1..])
  }

  function HashesOf(op: Operation): set<Hash> {
    {op.expected} + if op.Inserts() then {op.parentHash} + HashesIn([op.node]) else {}
  }

  /** These hashes are told apart by their texts. */
  predicate Tells(digest: Digest, hashes: set<Hash>) {
    forall h | h in hashes :: digest.read(digest.write(h)) == h
  }

  lemma {:induction false} NodesInOut(f: seq<Node>, digest: Digest)
    requires Tells(digest, HashesIn(f))
    ensures NodesIn(NodesOut(f, digest), digest) == f
  {
    if f != [] {
      NodesInOut(f[0].children, digest);
      NodesInOut(f[1..], digest);
      assert PagesIn(PagesOut(f[0].pages)) == f[0].pages;
      assert NodesOut(f, digest)[1..] == NodesOut(f[1..], digest);
      assert [f[0]] + f[1..] == f;
    }
  }

  function OperationOut(op: Operation, digest: Digest): PC.RawOperation {
    match op
    case Replace(target, expected, content) =>
      PC.RawOperation("replace_node", target, digest.write(expected), Some(content), None, "", "", None)
    case Update(target, expected, changes) =>
      PC.RawOperation("update_attributes", target, digest.write(expected), None, Some(changes), "", "", None)
    case Delete(target, expected) =>
      PC.RawOperation("delete_node", target, digest.write(expected), None, None, "", "", None)
    case InsertBefore(target, expected, parentId, parentHash, node) =>
      PC.RawOperation("insert_before", target, digest.write(expected), None, None, parentId, digest.write(parentHash),
                      Some(NodesOut([node], digest)[0]))
    case InsertAfter(target, expected, parentId, parentHash, node) =>
      PC.RawOperation("insert_after", target, digest.write(expected), None, None, parentId, digest.write(parentHash),
                      Some(NodesOut([node], digest)[0]))
  }

  function OperationIn(o: PC.RawOperation, digest: Digest): Operation
    requires PC.ValidOperation(o, DEFAULT_LIMITS)
  {
    match o.op
    case "replace_node" => Replace(o.nodeId, digest.read(o.expected), o.content.value)
    case "update_attributes" => Update(o.nodeId, digest.read(o.expected), o.attributes.value)
    case "delete_node" => Delete(o.nodeId, digest.read(o.expected))
    case "insert_before" =>
      InsertBefore(o.nodeId, digest.read(o.expected), o.parentId, digest.read(o.parentHash),
                   NodesIn([o.node.value], digest)[0])
    case _ =>
      InsertAfter(o.nodeId, digest.read(o.expected), o.parentId, digest.read(o.parentHash),
                  NodesIn([o.node.value], digest)[0])
  }

  lemma {:induction false} OneInOut(t: Node, digest: Digest)
    requires Tells(digest, HashesIn([t]))
    ensures NodesIn([NodesOut([t], digest)[0]], digest) == [t]
  {
    NodesInOut([t], digest);
    assert NodesOut([t], digest) == [NodesOut([t], digest)[0]] by {
      assert [t][1..] == [];
    }
  }

  lemma {:induction false} OperationInOut(op: Operation, digest: Digest)
    requires Tells(digest, HashesOf(op)) && PC.ValidOperation(OperationOut(op, digest), DEFAULT_LIMITS)
    ensures OperationIn(OperationOut(op, digest), digest) == op
  {
    if op.Inserts() {
      OneInOut(op.node, digest);
    }
  }

  function OperationsOut(ops: seq<Operation>, digest: Digest): seq<PC.RawOperation> {
    seq(|ops|, i requires 0 <= i < |ops| => OperationOut(ops[i], digest))
  }

  /** A patch as its JSON text. */
  function WritePatch(p: PatchSet, digest: Digest): PC.RawPatch {
    PC.RawPatch(PC.SCHEMA, p.resourceId, p.baseVersionId, OperationsOut(p.operations, digest), p.evidenceRefs, p.reason)
  }

  lemma {:induction false} AllValidAt(os: seq<PC.RawOperation>, limits: Limits, i: nat)
    requires PC.AllValid(os, limits) && i < |os|
    ensures PC.ValidOperation(os[i], limits)
  {
    if i > 0 {
      AllValidAt(os[1..], limits, i - 1);
    }
  }

  function OperationsIn(os: seq<PC.RawOperation>, digest: Digest): seq<Operation>
    requires PC.AllValid(os, DEFAULT_LIMITS)
  {
    seq(|os|, i requires 0 <= i < |os| => (AllValidAt(os, DEFAULT_LIMITS, i); OperationIn(os[i], digest)))
  }

  /** The patch that a JSON text holds. */
  function ReadPatch(t: Tree, limits: Limits, digest: Digest): Option<PatchSet> {
    var raw := PC.ParseStrict(t, limits);
    if raw.None? then None
    else
      var p := raw.value;
      Some(PatchSet(p.resourceId, p.baseVersionId, OperationsIn(p.operations, digest), p.evidence, p.reason))
  }

  /** A document's patch that can be written at all is read back as it was. */
  lemma {:induction false} PatchReadsBackIff(p: PatchSet, limits: Limits, digest: Digest)
    requires forall i | 0 <= i < |p.operations| :: Tells(digest, HashesOf(p.operations[i]))
    ensures var raw := WritePatch(p, digest); var t := PC.PatchTree(raw);
      ReadPatch(t, limits, digest)
      == if && PC.WellFormed(raw, limits) && PC.WellFormed(raw, DEFAULT_LIMITS)
            && PC.ReadableSet(raw) && PC.Within(t, limits.maxDepth) then Some(p) else None
  {
    var raw := WritePatch(p, digest);
    PC.ParsesBackIff(raw, limits);
    if PC.WellFormed(raw, DEFAULT_LIMITS) {
      forall i | 0 <= i < |p.operations|
        ensures PC.ValidOperation(raw.operations[i], DEFAULT_LIMITS)
        ensures OperationIn(raw.operations[i], digest) == p.operations[i]
      {
        AllValidAt(raw.operations, DEFAULT_LIMITS, i);
        OperationInOut(p.operations[i], digest);
      }
      assert OperationsIn(raw.operations, digest) == p.operations;
    }
  }

  // ---- Validity of a patch and of its text ----

  lemma {:induction false} StripBlank(s: string)
    ensures Strip(s) != "" <==> NonBlank(s)
  {
    if s != "" && Blank(s[0]) {
      StripBlank(s[1..]);
      assert NonBlank(s) <==> NonBlank(s[1..]) by {
        assert forall i | 0 < i < |s| :: s[i] == s[1..][i - 1];
        assert forall i | 0 <= i < |s| - 1 :: s[1..][i] == s[i + 1];
      }
    } else if s != "" && Blank(s[|s| - 1]) {
      assert s[0] !in " \t\n\r" && s[..|s| - 1][0] == s[0];
      StripBlank(s[..|s| - 1]);
    }
  }

  lemma {:induction false} AllTrimIff(refs: seq<string>)
    ensures PC.AllTrim(refs) <==> forall i | 0 <= i < |refs| :: Trim(refs[i])
  {
    if refs != [] {
      AllTrimIff(refs[1..]);
      assert forall i | 0 < i < |refs| :: refs[i] == refs[1..][i - 1];
      assert forall i | 0 <= i < |refs| - 1 :: refs[1..][i] == refs[i + 1];
    }
  }

  lemma {:induction false} AllValidIff(os: seq<PC.RawOperation>, limits: Limits)
    ensures PC.AllValid(os, limits) <==> forall i | 0 <= i < |os| :: PC.ValidOperation(os[i], limits)
  {
    if os != [] {
      AllValidIff(os[1..], limits);
      assert forall i | 0 < i < |os| :: os[i] == os[1..][i - 1];
      assert forall i | 0 <= i < |os| - 1 :: os[1..][i] == os[i + 1];
    }
  }

  lemma {:induction false} BudgetedOut(f: seq<Node>, depth: nat, limits: Limits, digest: Digest)
    ensures Budgeted(f, depth, limits)
       <==> && PC.NestedWithin(NodesOut(f, digest), limits.maxDepth - depth)
            && PC.TextsWithin(NodesOut(f, digest), limits.maxTextBytes)
  {
    if f != [] {
      BudgetedOut(f[0].children, depth + 1, limits, digest);
      BudgetedOut(f[1..], depth, limits, digest);
      assert NodesOut(f, digest)[1..] == NodesOut(f[1..], digest);
    }
  }

  /** The hashes that an operation expects. */
  function Expected(op: Operation): set<Hash> {
    {op.expected} + if op.Inserts() then {op.parentHash} else {}
  }

  lemma {:induction false} OperationOutValid(op: Operation, limits: Limits, digest: Digest)
    requires forall h | h in Expected(op) :: IsHash(digest.write(h))
    ensures PC.ValidOperation(OperationOut(op, digest), limits)
       <==> NonBlank(op.target) && (op.Inserts() ==> NonBlank(op.parentId)) && OperationBudgeted(op, limits)
  {
    StripBlank(op.target);
    assert op.expected in Expected(op);
    if op.Inserts() {
      assert op.parentHash in Expected(op);
      StripBlank(op.parentId);
      BudgetedOut([op.node], 0, limits, digest);
      assert NodesOut([op.node], digest) == [NodesOut([op.node], digest)[0]] by {
        assert [op.node][1..] == [];
      }
    }
  }

  lemma {:induction false} OperationsOutValid(p: PatchSet, limits: Limits, digest: Digest)
    requires forall i, h | 0 <= i < |p.operations| && h in Expected(p.operations[i]) :: IsHash(digest.write(h))
    ensures PC.AllValid(OperationsOut(p.operations, digest), limits)
       <==> forall i | 0 <= i < |p.operations| ::
              && NonBlank(p.operations[i].target) && (p.operations[i].Inserts() ==> NonBlank(p.operations[i].parentId))
              && OperationBudgeted(p.operations[i], limits)
  {
    var os := OperationsOut(p.operations, digest);
    AllValidIff(os, limits);
    forall i | 0 <= i < |p.operations|
      ensures PC.ValidOperation(os[i], limits) <==>
        && NonBlank(p.operations[i].target) && (p.operations[i].Inserts() ==> NonBlank(p.operations[i].parentId))
        && OperationBudgeted(p.operations[i], limits)
    {
      OperationOutValid(p.operations[i], limits, digest);
    }
  }

  /** A patch is a valid set exactly when its text is well-formed. */
  lemma {:induction false} ValidSetIff(p: PatchSet, limits: Limits, digest: Digest)
    requires forall i, h | 0 <= i < |p.operations| && h in Expected(p.operations[i]) :: IsHash(digest.write(h))
    ensures PC.WellFormed(WritePatch(p, digest), limits) <==> ValidSet(p, limits)
  {
    StripBlank(p.resourceId);
    StripBlank(p.baseVersionId);
    StripBlank(p.reason);
    AllTrimIff(p.evidenceRefs);
    OperationsOutValid(p, limits, digest);
  }
}
