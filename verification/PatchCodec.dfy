/** PatchSets as JSON trees: the strict parser against the printer. */
module PatchCodec {
  import opened Options
  import opened Digests
  import opened JsonValues
  import opened PatchLimits
  import opened TextLines

  const SCHEMA := "1.0"

  datatype Place = Place(file: string, start: int, end: int, startLine: int, endLine: int)

  datatype Page = Page(page: int, start: int, end: int)

  datatype RawNode = RawNode(id: string, kind: string, attributes: map<string, Json>, content: string,
                             children: seq<RawNode>, place: Place, pages: seq<Page>, metadata: map<string, Json>,
                             hash: string)

  datatype RawOperation = RawOperation(op: string, nodeId: string, expected: string, content: Option<string>,
                                       attributes: Option<map<string, Json>>, parentId: string, parentHash: string,
                                       node: Option<RawNode>)

  datatype RawPatch = RawPatch(schema: string, resourceId: string, baseVersionId: string,
                               operations: seq<RawOperation>, evidence: seq<string>, reason: string)

  // ---- JSON trees ----

  /** The names the format knows, and any other. */
  datatype Field =
    | SchemaField | ResourceField | BaseField | OperationsField | EvidenceField | ReasonField
    | OpField | NodeIdField | ExpectedField | ContentField | AttributesField | ParentIdField | ParentHashField | NodeField
    | TypeField | ChildrenField | PlaceField | PagesField | MetadataField | HashField
    | FileField | StartField | EndField | StartLineField | EndLineField | PageField
    | OtherField(name: string)

  /** Objects of the format have known fields; attributes and metadata are free objects. */
  datatype Tree = Str(s: string) | Num(n: int) | Null | Arr(items: seq<Tree>) | Free(free: map<string, Json>)
                | Obj(fields: map<Field, Tree>)

  predicate JsonWithin(j: Json, depth: int) {
    depth >= 0 && match j
    case JList(items) => forall i | 0 <= i < |items| :: JsonWithin(items[i], depth - 1)
    case JObject(fields) => forall k | k in fields :: JsonWithin(fields[k], depth - 1)
    case _ => true
  }

  /** Nothing in the tree is nested deeper than this. */
  predicate Within(t: Tree, depth: int) {
    depth >= 0 && match t
    case Arr(items) => forall i | 0 <= i < |items| :: Within(items[i], depth - 1)
    case Free(free) => forall k | k in free :: JsonWithin(free[k], depth - 1)
    case Obj(fields) => forall f | f in fields :: Within(fields[f], depth - 1)
    case _ => true
  }

  // ---- Texts ----

  function RequiredText(m: map<Field, Tree>, f: Field): Option<string> {
    if f in m && m[f].Str? && Trim(m[f].s) then Some(m[f].s) else None
  }

  /** A text that may be missing. */
  function TextOr(m: map<Field, Tree>, f: Field): Option<string> {
    if f !in m then Some("") else if m[f].Str? then Some(m[f].s) else None
  }

  function NumberOr(m: map<Field, Tree>, f: Field): Option<int> {
    if f !in m then Some(0) else if m[f].Num? then Some(m[f].n) else None
  }

  // ---- Nodes ----

  const NODE_KINDS: set<string> := {"document", "heading", "paragraph", "page", "list", "list_item", "table"}

  function PlaceTree(p: Place): Tree {
    var base := map[FileField := Str(p.file), StartField := Num(p.start), EndField := Num(p.end)];
    var first := if p.startLine == 0 then base else base[StartLineField := Num(p.startLine)];
    Obj(if p.endLine == 0 then first else first[EndLineField := Num(p.endLine)])
  }

  function ReadPlace(t: Tree): Option<Place> {
    if !t.Obj? || !(t.fields.Keys <= {FileField, StartField, EndField, StartLineField, EndLineField})
       || !({FileField, StartField, EndField} <= t.fields.Keys) then None
    else
      var m := t.fields;
      var file, startLine, endLine := RequiredText(m, FileField), NumberOr(m, StartLineField), NumberOr(m, EndLineField);
      if file.None? || !m[StartField].Num? || !m[EndField].Num? || startLine.None? || endLine.None? then None
      else Some(Place(file.value, m[StartField].n, m[EndField].n, startLine.value, endLine.value))
  }

  function PageTree(p: Page): Tree {
    Obj(map[PageField := Num(p.page), StartField := Num(p.start), EndField := Num(p.end)])
  }

  function ReadPage(t: Tree): Option<Page> {
    if t.Obj? && t.fields.Keys == {PageField, StartField, EndField}
       && t.fields[PageField].Num? && t.fields[StartField].Num? && t.fields[EndField].Num?
    then Some(Page(t.fields[PageField].n, t.fields[StartField].n, t.fields[EndField].n)) else None
  }

  function PageTrees(pages: seq<Page>): seq<Tree> {
    if pages == [] then [] else [PageTree(pages[0])] + PageTrees(pages[1..])
  }

  function ReadPages(items: seq<Tree>): Option<seq<Page>> {
    if items == [] then Some([])
    else
      var first, rest := ReadPage(items[0]), ReadPages(items[1..]);
      if first.None? || rest.None? then None else Some([first.value] + rest.value)
  }

  function NodeTree(t: RawNode): Tree {
    Obj(map[NodeIdField := Str(t.id), TypeField := Str(t.kind), AttributesField := Free(t.attributes),
            ContentField := Str(t.content), ChildrenField := Arr(NodeTrees(t.children)), PlaceField := PlaceTree(t.place),
            PagesField := Arr(PageTrees(t.pages)), MetadataField := Free(t.metadata), HashField := Str(t.hash)])
  }

  function NodeTrees(ts: seq<RawNode>): seq<Tree> {
    if ts == [] then [] else [NodeTree(ts[0])] + NodeTrees(ts[1..])
  }

  const NODE_FIELDS: set<Field> := {NodeIdField, TypeField, AttributesField, ContentField, ChildrenField, PlaceField,
                                    PagesField, MetadataField}

  /** The shape of a node object: every field but the hash present, none unknown, each of its
      type. */
  predicate NodeShape(t: Tree) {
    && t.Obj? && t.fields.Keys <= NODE_FIELDS + {HashField} && NODE_FIELDS <= t.fields.Keys
    && t.fields[AttributesField].Free? && t.fields[ChildrenField].Arr? && t.fields[PagesField].Arr?
    && t.fields[MetadataField].Free? && t.fields[ContentField].Str?
  }

  function ReadNode(t: Tree): Option<RawNode>
    decreases t, 0
  {
    if !NodeShape(t) then None
    else
      var m := t.fields;
      var id, kind, hash := RequiredText(m, NodeIdField), RequiredText(m, TypeField), TextOr(m, HashField);
      var place, pages := ReadPlace(m[PlaceField]), ReadPages(m[PagesField].items);
      var children := ReadNodes(m[ChildrenField].items);
      if id.None? || kind.None? || kind.value !in NODE_KINDS || hash.None? || (hash.value != "" && !IsHash(hash.value))
         || place.None? || pages.None? || children.None? then None
      else Some(RawNode(id.value, kind.value, m[AttributesField].free, m[ContentField].s, children.value, place.value,
                        pages.value, m[MetadataField].free, hash.value))
  }

  function ReadNodes(items: seq<Tree>): Option<seq<RawNode>>
    decreases items, 1
  {
    if items == [] then Some([])
    else
      var first, rest := ReadNode(items[0]), ReadNodes(items[1..]);
      if first.None? || rest.None? then None else Some([first.value] + rest.value)
  }

  /** What the parser demands of a node beyond its shape. */
  predicate Readable(ts: seq<RawNode>) {
    ts == [] || (
      && Trim(ts[0].id) && Trim(ts[0].kind) && ts[0].kind in NODE_KINDS && Trim(ts[0].place.file)
      && (ts[0].hash != "" ==> IsHash(ts[0].hash))
      && Readable(ts[0].children) && Readable(ts[1..]))
  }

  lemma {:induction false} PlaceRead(p: Place)
    ensures ReadPlace(PlaceTree(p)) == if Trim(p.file) then Some(p) else None
  {
    var m := PlaceTree(p).fields;
    assert FileField in m && StartField in m && EndField in m;
  }

  lemma {:induction false} PagesRead(pages: seq<Page>)
    ensures ReadPages(PageTrees(pages)) == Some(pages)
  {
    if pages != [] {
      PagesRead(pages[1..]);
      assert PageTree(pages[0]).fields.Keys == {PageField, StartField, EndField};
      assert ReadPage(PageTree(pages[0])) == Some(pages[0]);
      assert PageTrees(pages)[1..] == PageTrees(pages[1..]) && [pages[0]] + pages[1..] == pages;
    }
  }

  lemma {:induction false} NodeFields(t: RawNode)
    ensures NodeShape(NodeTree(t))
    ensures var m := NodeTree(t).fields;
      && RequiredText(m, NodeIdField) == (if Trim(t.id) then Some(t.id) else None)
      && RequiredText(m, TypeField) == (if Trim(t.kind) then Some(t.kind) else None)
      && TextOr(m, HashField) == Some(t.hash)
      && m[AttributesField].free == t.attributes && m[MetadataField].free == t.metadata && m[ContentField].s == t.content
      && m[PlaceField] == PlaceTree(t.place) && m[PagesField].items == PageTrees(t.pages)
      && m[ChildrenField].items == NodeTrees(t.children)
  {
    assert NodeTree(t).fields.Keys == NODE_FIELDS + {HashField};
  }

  /** What the parser demands of one node, its children apart. */
  predicate OwnReadable(t: RawNode) {
    Trim(t.id) && Trim(t.kind) && t.kind in NODE_KINDS && Trim(t.place.file) && (t.hash != "" ==> IsHash(t.hash))
  }

  /** One node is read back when its children are. */
  lemma {:induction false} NodeRead(t: RawNode)
    requires ReadNodes(NodeTrees(t.children)) == if Readable(t.children) then Some(t.children) else None
    ensures ReadNode(NodeTree(t)) == if OwnReadable(t) && Readable(t.children) then Some(t) else None
  {
    NodeFields(t);
    PlaceRead(t.place);
    PagesRead(t.pages);
  }

  /** A node is read back exactly when it, and everything under it, is readable. */
  lemma {:induction false} NodesRead(ts: seq<RawNode>)
    ensures ReadNodes(NodeTrees(ts)) == if Readable(ts) then Some(ts) else None
  {
    if ts != [] {
      NodesRead(ts[0].children);
      NodeRead(ts[0]);
      NodesRead(ts[1..]);
      assert NodeTrees(ts)[1..] == NodeTrees(ts[1..]) && NodeTrees(ts)[0] == NodeTree(ts[0]);
      assert [ts[0]] + ts[1..] == ts;
    }
  }

  // ---- Operations ----

  /** How deep the nodes are nested. */
  predicate NestedWithin(ts: seq<RawNode>, depth: int) {
    ts == [] || (depth >= 0 && NestedWithin(ts[0].children, depth - 1) && NestedWithin(ts[1..], depth))
  }

  predicate TextsWithin(ts: seq<RawNode>, bytes: int) {
    ts == [] || (TextBytes(ts[0].content) <= bytes && TextsWithin(ts[0].children, bytes) && TextsWithin(ts[1..], bytes))
  }

  predicate ValidOperation(o: RawOperation, limits: Limits) {
    && o.op in {"replace_node", "insert_before", "insert_after", "delete_node", "update_attributes"}
    && Strip(o.nodeId) != "" && IsHash(o.expected)
    && (o.op == "replace_node" ==>
          o.content.Some? && o.node.None? && o.attributes.None? && o.parentId == "" && o.parentHash == "")
    && (o.op in {"insert_before", "insert_after"} ==>
          o.node.Some? && Strip(o.parentId) != "" && IsHash(o.parentHash) && o.content.None? && o.attributes.None?)
    && (o.op == "delete_node" ==>
          o.content.None? && o.node.None? && o.attributes.None? && o.parentId == "" && o.parentHash == "")
    && (o.op == "update_attributes" ==>
          o.attributes.Some? && o.content.None? && o.node.None? && o.parentId == "" && o.parentHash == "")
    && (o.content.Some? ==> TextBytes(o.content.value) <= limits.maxTextBytes)
    && (o.node.Some? ==>
          NestedWithin([o.node.value], limits.maxDepth) && TextsWithin([o.node.value], limits.maxTextBytes))
  }

  const OP_FIELDS: set<Field> := {OpField, NodeIdField, ExpectedField, ContentField, AttributesField, ParentIdField,
                                  ParentHashField, NodeField}

  predicate Written(o: RawOperation, f: Field) {
    match f
    case ContentField => o.content.Some?
    case AttributesField => o.attributes.Some?
    case ParentIdField => o.parentId != ""
    case ParentHashField => o.parentHash != ""
    case NodeField => o.node.Some?
    case _ => true
  }

  function FieldTree(o: RawOperation, f: Field): Tree
    requires Written(o, f)
  {
    match f
    case OpField => Str(o.op)
    case NodeIdField => Str(o.nodeId)
    case ExpectedField => Str(o.expected)
    case ContentField => Str(o.content.value)
    case AttributesField => Free(o.attributes.value)
    case ParentIdField => Str(o.parentId)
    case ParentHashField => Str(o.parentHash)
    case NodeField => NodeTree(o.node.value)
    case _ => Null
  }

  function OperationTree(o: RawOperation): Tree {
    Obj(map f | f in OP_FIELDS && Written(o, f) :: FieldTree(o, f))
  }

  /** Content and attributes may be missing or null. */
  predicate PayloadShape(m: map<Field, Tree>) {
    && (ContentField in m ==> m[ContentField].Str? || m[ContentField].Null?)
    && (AttributesField in m ==> m[AttributesField].Free? || m[AttributesField].Null?)
    && (NodeField in m ==> m[NodeField].Obj?)
  }

  function ReadOperation(t: Tree, limits: Limits): Option<RawOperation> {
    if !t.Obj? || !(t.fields.Keys <= OP_FIELDS) || !PayloadShape(t.fields) then None
    else
      var m := t.fields;
      var op, nodeId, expected := RequiredText(m, OpField), RequiredText(m, NodeIdField), RequiredText(m, ExpectedField);
      var parentId, parentHash := TextOr(m, ParentIdField), TextOr(m, ParentHashField);
      var node := if NodeField in m then ReadNode(m[NodeField]) else None;
      if op.None? || nodeId.None? || expected.None? || parentId.None? || parentHash.None?
         || (NodeField in m && node.None?) then None
      else
        var o := RawOperation(op.value, nodeId.value, expected.value,
                              if ContentField in m && m[ContentField].Str? then Some(m[ContentField].s) else None,
                              if AttributesField in m && m[AttributesField].Free? then Some(m[AttributesField].free) else None,
                              parentId.value, parentHash.value, node);
        if ValidOperation(o, limits) then Some(o) else None
  }

  /** What the parser demands of a valid operation beyond its validity. */
  predicate ReadableOperation(o: RawOperation) {
    Trim(o.nodeId) && (o.node.Some? ==> Readable([o.node.value]))
  }

  lemma {:induction false} OneNodeRead(t: RawNode)
    ensures ReadNode(NodeTree(t)) == if Readable([t]) then Some(t) else None
    ensures NodeTree(t).Obj?
  {
    NodesRead([t]);
    assert NodeTrees([t]) == [NodeTree(t)] && [NodeTree(t)][1..] == [] && ReadNodes([]) == Some([]);
  }

  lemma {:induction false} NamesTrim()
    ensures forall op | op in {"replace_node", "insert_before", "insert_after", "delete_node", "update_attributes"} :: Trim(op)
  {
    forall op | op in {"replace_node", "insert_before", "insert_after", "delete_node", "update_attributes"}
      ensures Trim(op)
    {
      StripEnds(op);
    }
  }

  lemma {:induction false} OperationTexts(o: RawOperation)
    ensures var m := OperationTree(o).fields;
      && m.Keys <= OP_FIELDS
      && OpField in m && m[OpField] == Str(o.op) && NodeIdField in m && m[NodeIdField] == Str(o.nodeId)
      && ExpectedField in m && m[ExpectedField] == Str(o.expected)
      && TextOr(m, ParentIdField) == Some(o.parentId) && TextOr(m, ParentHashField) == Some(o.parentHash)
  {
  }

  lemma {:induction false} OperationPayload(o: RawOperation)
    ensures var m := OperationTree(o).fields;
      && PayloadShape(m)
      && (ContentField in m <==> o.content.Some?) && (o.content.Some? ==> m[ContentField] == Str(o.content.value))
      && (AttributesField in m <==> o.attributes.Some?)
      && (o.attributes.Some? ==> m[AttributesField] == Free(o.attributes.value))
      && (NodeField in m <==> o.node.Some?) && (o.node.Some? ==> m[NodeField] == NodeTree(o.node.value))
  {
  }

  /** An operation is read back exactly when it is valid and readable. */
  lemma {:induction false} OperationRead(o: RawOperation, limits: Limits)
    ensures ReadOperation(OperationTree(o), limits)
         == if ValidOperation(o, limits) && ReadableOperation(o) then Some(o) else None
  {
    OperationTexts(o);
    OperationPayload(o);
    if o.node.Some? {
      OneNodeRead(o.node.value);
    }
    if ValidOperation(o, limits) {
      NamesTrim();
      HashTrims(o.expected);
    }
  }

  function OperationTrees(os: seq<RawOperation>): seq<Tree> {
    if os == [] then [] else [OperationTree(os[0])] + OperationTrees(os[1..])
  }

  function ReadOperations(items: seq<Tree>, limits: Limits): Option<seq<RawOperation>> {
    if items == [] then Some([])
    else
      var first, rest := ReadOperation(items[0], limits), ReadOperations(items[1..], limits);
      if first.None? || rest.None? then None else Some([first.value] + rest.value)
  }

  predicate AllReadable(os: seq<RawOperation>, limits: Limits) {
    os == [] || (ValidOperation(os[0], limits) && ReadableOperation(os[0]) && AllReadable(os[1..], limits))
  }

  lemma {:induction false} OperationsRead(os: seq<RawOperation>, limits: Limits)
    ensures ReadOperations(OperationTrees(os), limits) == if AllReadable(os, limits) then Some(os) else None
  {
    if os != [] {
      OperationRead(os[0], limits);
      OperationsRead(os[1..], limits);
      assert OperationTrees(os)[1..] == OperationTrees(os[1..]) && [os[0]] + os[1..] == os;
    }
  }

  // ---- Patch sets ----

  function Texts(refs: seq<string>): seq<Tree> {
    if refs == [] then [] else [Str(refs[0])] + Texts(refs[1..])
  }

  function ReadTexts(items: seq<Tree>): Option<seq<string>> {
    if items == [] then Some([])
    else
      var rest := ReadTexts(items[1..]);
      if !items[0].Str? || !Trim(items[0].s) || rest.None? then None else Some([items[0].s] + rest.value)
  }

  predicate AllTrim(refs: seq<string>) {
    refs == [] || (Trim(refs[0]) && AllTrim(refs[1..]))
  }

  lemma {:induction false} TextsRead(refs: seq<string>)
    ensures ReadTexts(Texts(refs)) == if AllTrim(refs) then Some(refs) else None
    ensures |Texts(refs)| == |refs|
  {
    if refs != [] {
      TextsRead(refs[1..]);
      assert Texts(refs)[1..] == Texts(refs[1..]) && [refs[0]] + refs[1..] == refs;
    }
  }

  function PatchTree(p: RawPatch): Tree {
    Obj(map[SchemaField := Str(p.schema), ResourceField := Str(p.resourceId), BaseField := Str(p.baseVersionId),
            OperationsField := Arr(OperationTrees(p.operations)), EvidenceField := Arr(Texts(p.evidence)),
            ReasonField := Str(p.reason)])
  }

  predicate AllValid(os: seq<RawOperation>, limits: Limits) {
    os == [] || (ValidOperation(os[0], limits) && AllValid(os[1..], limits))
  }

  predicate Distinct(refs: seq<string>) {
    forall i, j | 0 <= i < j < |refs| :: refs[i] != refs[j]
  }

  /** What validate_set accepts. */
  predicate WellFormed(p: RawPatch, limits: Limits) {
    && p.schema == SCHEMA
    && Strip(p.resourceId) != "" && Strip(p.baseVersionId) != "" && Strip(p.reason) != ""
    && 0 < |p.operations| <= limits.maxOperations && |p.evidence| <= limits.maxEvidence
    && AllTrim(p.evidence) && Distinct(p.evidence)
    && AllValid(p.operations, limits)
  }

  const PATCH_FIELDS: set<Field> := {SchemaField, ResourceField, BaseField, OperationsField, EvidenceField, ReasonField}

  /** Evidence may be left out. */
  function EvidenceTree(m: map<Field, Tree>): Tree {
    if EvidenceField in m then m[EvidenceField] else Arr([])
  }

  /** The fields of a patch object, read one by one. */
  function ReadSet(m: map<Field, Tree>, limits: Limits): Option<RawPatch> {
    if !(m.Keys <= PATCH_FIELDS) || OperationsField !in m || !m[OperationsField].Arr? then None
    else
      var items := m[OperationsField].items;
      var refs := EvidenceTree(m);
      if items == [] || |items| > limits.maxOperations || !refs.Arr? || |refs.items| > limits.maxEvidence then None
      else
        var operations, evidence := ReadOperations(items, limits), ReadTexts(refs.items);
        var schema, resourceId := RequiredText(m, SchemaField), RequiredText(m, ResourceField);
        var baseVersionId, reason := RequiredText(m, BaseField), RequiredText(m, ReasonField);
        if operations.None? || evidence.None? || schema.None? || resourceId.None? || baseVersionId.None? || reason.None?
        then None
        else Some(RawPatch(schema.value, resourceId.value, baseVersionId.value, operations.value, evidence.value,
                           reason.value))
  }

  /** The limits of the caller go for the fields; the set as a whole is checked under the
      default ones. */
  function ParseStrict(t: Tree, limits: Limits): Option<RawPatch> {
    if !t.Obj? || !Within(t, limits.maxDepth) then None
    else
      var p := ReadSet(t.fields, limits);
      if p.Some? && WellFormed(p.value, DEFAULT_LIMITS) then p else None
  }

  /** Texts without surrounding blanks, and nodes the parser accepts. */
  predicate ReadableSet(p: RawPatch) {
    && Trim(p.resourceId) && Trim(p.baseVersionId) && Trim(p.reason)
    && forall i | 0 <= i < |p.operations| :: ReadableOperation(p.operations[i])
  }

  lemma {:induction false} ReadableIffBoth(os: seq<RawOperation>, limits: Limits)
    ensures AllReadable(os, limits)
       <==> AllValid(os, limits) && forall i | 0 <= i < |os| :: ReadableOperation(os[i])
    ensures |OperationTrees(os)| == |os|
  {
    if os != [] {
      ReadableIffBoth(os[1..], limits);
      assert forall i | 0 <= i < |os| - 1 :: os[1..][i] == os[i + 1];
      assert forall i | 0 < i < |os| :: os[i] == os[1..][i - 1];
    }
  }

  lemma {:induction false} SchemaTrims()
    ensures Trim(SCHEMA)
  {
    StripEnds(SCHEMA);
  }

  /** All that reading the fields asks for. */
  predicate ReadsAs(p: RawPatch, limits: Limits) {
    && 0 < |p.operations| <= limits.maxOperations && |p.evidence| <= limits.maxEvidence
    && AllReadable(p.operations, limits) && AllTrim(p.evidence)
    && Trim(p.schema) && Trim(p.resourceId) && Trim(p.baseVersionId) && Trim(p.reason)
  }

  lemma {:induction false} FieldsOfPatch(p: RawPatch)
    ensures var m := PatchTree(p).fields;
      && m.Keys == PATCH_FIELDS
      && m[SchemaField] == Str(p.schema) && m[ResourceField] == Str(p.resourceId) && m[BaseField] == Str(p.baseVersionId)
      && m[ReasonField] == Str(p.reason) && m[OperationsField] == Arr(OperationTrees(p.operations))
      && m[EvidenceField] == Arr(Texts(p.evidence))
  {
  }

  lemma {:induction false} SetRead(p: RawPatch, limits: Limits)
    ensures ReadSet(PatchTree(p).fields, limits) == if ReadsAs(p, limits) then Some(p) else None
  {
    FieldsOfPatch(p);
    OperationsRead(p.operations, limits);
    ReadableIffBoth(p.operations, limits);
    TextsRead(p.evidence);
  }

  /** A printed patch set parses back to itself exactly when it is valid, under the limits
      given and under the default ones, readable, and nested no deeper than the limit given;
      otherwise it is refused. */
  lemma {:induction false} ParsesBackIff(p: RawPatch, limits: Limits)
    ensures ParseStrict(PatchTree(p), limits)
         == if && WellFormed(p, limits) && WellFormed(p, DEFAULT_LIMITS)
               && ReadableSet(p) && Within(PatchTree(p), limits.maxDepth) then Some(p) else None
  {
    SetRead(p, limits);
    ReadableIffBoth(p.operations, limits);
    ReadableIffBoth(p.operations, DEFAULT_LIMITS);
    SchemaTrims();
  }

  // ---- Depth is counted twice over ----

  function Height(ts: seq<RawNode>): int {
    if ts == [] then -1
    else
      var first, rest := 1 + Height(ts[0].children), Height(ts[1..]);
      if first > rest then first else rest
  }

  lemma {:induction false} NestedIffHeight(ts: seq<RawNode>, depth: int)
    requires depth >= -1
    ensures NestedWithin(ts, depth) <==> Height(ts) <= depth
  {
    if ts != [] {
      if depth >= 0 {
        NestedIffHeight(ts[0].children, depth - 1);
        NestedIffHeight(ts[1..], depth);
      }
      HeightBound(ts[0].children);
    }
  }

  lemma {:induction false} HeightBound(ts: seq<RawNode>)
    ensures Height(ts) >= -1
  {
    if ts != [] {
      HeightBound(ts[0].children);
    }
  }

  lemma {:induction false} PlaceCostsTwo(t: RawNode, depth: int)
    requires Within(NodeTree(t), depth)
    ensures depth >= 2 && Within(Arr(NodeTrees(t.children)), depth - 1)
  {
    NodeFields(t);
    var m := NodeTree(t).fields;
    assert Within(m[ChildrenField], depth - 1) && Within(m[PlaceField], depth - 1);
    assert FileField in m[PlaceField].fields && Within(m[PlaceField].fields[FileField], depth - 2);
  }

  /** In a list of nodes each level of nesting costs two levels of JSON, and the innermost
      node one more for its place. */
  lemma {:induction false} NestingCostsTwo(ts: seq<RawNode>, depth: int)
    requires ts != [] && Within(Arr(NodeTrees(ts)), depth)
    ensures 2 * Height(ts) + 3 <= depth
  {
    assert Within(NodeTree(ts[0]), depth - 1) by {
      WithinItem(Arr(NodeTrees(ts)), 0, depth);
    }
    PlaceCostsTwo(ts[0], depth - 1);
    if ts[0].children != [] {
      NestingCostsTwo(ts[0].children, depth - 2);
    }
    if ts[1..] != [] {
      OthersWithin(ts, depth);
      NestingCostsTwo(ts[1..], depth);
    }
  }

  lemma {:induction false} OthersWithin(ts: seq<RawNode>, depth: int)
    requires ts != [] && Within(Arr(NodeTrees(ts)), depth)
    ensures Within(Arr(NodeTrees(ts[1..])), depth)
  {
    var items := NodeTrees(ts);
    assert items[1..] == NodeTrees(ts[1..]);
    assert forall i | 0 <= i < |items[1..]| :: items[1..][i] == items[i + 1];
  }

  lemma {:induction false} WithinField(t: Tree, f: Field, depth: int)
    requires t.Obj? && Within(t, depth) && f in t.fields
    ensures Within(t.fields[f], depth - 1)
  {
  }

  lemma {:induction false} WithinItem(t: Tree, i: nat, depth: int)
    requires t.Arr? && Within(t, depth) && i < |t.items|
    ensures Within(t.items[i], depth - 1)
  {
  }

  lemma {:induction false} OperationWithin(os: seq<RawOperation>, i: nat, depth: int)
    requires Within(Arr(OperationTrees(os)), depth) && i < |os|
    ensures Within(OperationTree(os[i]), depth - 1)
  {
    OperationAt(os, i);
    WithinItem(Arr(OperationTrees(os)), i, depth);
  }

  lemma {:induction false} NodeWithin(o: RawOperation, depth: int)
    requires Within(OperationTree(o), depth) && o.node.Some?
    ensures 2 * Height([o.node.value]) + 3 <= depth
  {
    OperationPayload(o);
    WithinField(OperationTree(o), NodeField, depth);
    OneNodeWithin(o.node.value, depth - 1);
  }

  lemma {:induction false} OperationsShallow(os: seq<RawOperation>, i: nat, depth: int)
    requires Within(Arr(OperationTrees(os)), depth) && i < |os| && os[i].node.Some?
    ensures 2 * Height([os[i].node.value]) + 4 <= depth
  {
    OperationWithin(os, i, depth);
    NodeWithin(os[i], depth - 1);
  }

  lemma {:induction false} OperationsWithin(p: RawPatch, depth: int)
    requires Within(PatchTree(p), depth)
    ensures Within(Arr(OperationTrees(p.operations)), depth - 1)
  {
    FieldsOfPatch(p);
    WithinField(PatchTree(p), OperationsField, depth);
  }

  /** What parses back is nested less than half as deep as validation allows. */
  lemma {:induction false} ParsedIsShallow(p: RawPatch, limits: Limits, i: nat)
    requires Within(PatchTree(p), limits.maxDepth) && i < |p.operations| && p.operations[i].node.Some?
    ensures 2 * Height([p.operations[i].node.value]) + 5 <= limits.maxDepth
  {
    OperationsWithin(p, limits.maxDepth);
    OperationsShallow(p.operations, i, limits.maxDepth - 1);
  }

  lemma {:induction false} OneNodeWithin(t: RawNode, depth: int)
    requires Within(NodeTree(t), depth)
    ensures 2 * Height([t]) + 2 <= depth
  {
    assert NodeTrees([t]) == [NodeTree(t)];
    NestingCostsTwo([t], depth + 1);
  }

  lemma {:induction false} OperationAt(os: seq<RawOperation>, i: nat)
    requires i < |os|
    ensures |OperationTrees(os)| == |os| && OperationTrees(os)[i] == OperationTree(os[i])
  {
    assert OperationTrees(os)[1..] == OperationTrees(os[1..]);
    if i > 0 {
      OperationAt(os[1..], i - 1);
    } else if os[1..] != [] {
      OperationAt(os[1..], 0);
    }
  }

  // ---- A valid patch that its own text does not give back ----

  function Chain(n: nat): RawNode {
    RawNode("n", "paragraph", map[], "", if n == 0 then [] else [Chain(n - 1)], Place("f", 0, 0, 0, 0), [], map[], "")
  }

  function ChainPatch(n: nat): RawPatch {
    RawPatch(SCHEMA, "r", "v", [RawOperation("insert_after", "n", ZERO_HASH, None, None, "p", ZERO_HASH, Some(Chain(n)))],
             [], "why")
  }

  lemma {:induction false} ChainIsReadable(n: nat)
    ensures Readable([Chain(n)]) && Height([Chain(n)]) == n
  {
    StripEnds("n");
    StripEnds("f");
    StripEnds("paragraph");
    assert [Chain(n)][1..] == [];
    if n > 0 {
      ChainIsReadable(n - 1);
    }
  }

  lemma {:induction false} ChainTexts(n: nat)
    ensures TextsWithin([Chain(n)], 0)
  {
    assert [Chain(n)][1..] == [];
    if n > 0 {
      ChainTexts(n - 1);
    }
  }

  lemma {:induction false} TextsWithinMore(ts: seq<RawNode>, bytes: int, more: int)
    requires TextsWithin(ts, bytes) && bytes <= more
    ensures TextsWithin(ts, more)
  {
    if ts != [] {
      TextsWithinMore(ts[0].children, bytes, more);
      TextsWithinMore(ts[1..], bytes, more);
    }
  }

  lemma {:induction false} ChainOperation(n: nat, limits: Limits)
    requires limits.maxTextBytes >= 0
    ensures ValidOperation(ChainPatch(n).operations[0], limits) <==> n <= limits.maxDepth
    ensures ReadableOperation(ChainPatch(n).operations[0])
  {
    ChainIsReadable(n);
    if limits.maxDepth >= 0 {
      NestedIffHeight([Chain(n)], limits.maxDepth);
    }
    ChainTexts(n);
    TextsWithinMore([Chain(n)], 0, limits.maxTextBytes);
    StripEnds("n");
    StripEnds("p");
  }

  lemma {:induction false} ChainIsValid(n: nat, limits: Limits)
    requires limits.maxOperations >= 1 && limits.maxEvidence >= 0 && limits.maxTextBytes >= 0
    ensures WellFormed(ChainPatch(n), limits) <==> n <= limits.maxDepth
    ensures ReadableSet(ChainPatch(n))
  {
    ChainOperation(n, limits);
    StripEnds("r");
    StripEnds("v");
    StripEnds("why");
    var os := ChainPatch(n).operations;
    assert os == [os[0]] && os[1..] == [];
    assert AllValid(os, limits) <==> ValidOperation(os[0], limits);
  }

  lemma {:induction false} ObjectFits(fields: map<Field, Tree>, depth: int)
    requires depth >= 0 && forall f | f in fields :: Within(fields[f], depth - 1)
    ensures Within(Obj(fields), depth)
  {
  }

  /** A node's tree reaches as deep as its parts. */
  lemma {:induction false} NodeFits(t: RawNode, depth: int)
    requires depth >= 1
    requires Within(Free(t.attributes), depth - 1) && Within(Free(t.metadata), depth - 1)
    requires Within(PlaceTree(t.place), depth - 1) && Within(Arr(PageTrees(t.pages)), depth - 1)
    requires Within(Arr(NodeTrees(t.children)), depth - 1)
    ensures Within(NodeTree(t), depth)
  {
    var m := NodeTree(t).fields;
    forall f | f in m
      ensures Within(m[f], depth - 1)
    {
    }
    ObjectFits(m, depth);
  }

  lemma {:induction false} PlaceFits(p: Place, depth: int)
    requires depth >= 1
    ensures Within(PlaceTree(p), depth)
  {
    var m := PlaceTree(p).fields;
    forall f | f in m
      ensures Within(m[f], depth - 1)
    {
    }
    ObjectFits(m, depth);
  }

  lemma {:induction false} OneTree(t: RawNode)
    ensures NodeTrees([t]) == [NodeTree(t)]
  {
    assert [t][1..] == [];
  }

  /** A chain's text reaches no deeper than it must. */
  lemma {:induction false} ChainWithin(n: nat, depth: int)
    requires depth >= 2 * n + 2
    ensures Within(NodeTree(Chain(n)), depth)
  {
    PlaceFits(Chain(n).place, depth - 1);
    if n > 0 {
      ChainWithin(n - 1, depth - 2);
      OneTree(Chain(n - 1));
    }
    NodeFits(Chain(n), depth);
  }

  /** An operation's tree reaches as deep as its node and its attributes. */
  lemma {:induction false} OperationFits(o: RawOperation, depth: int)
    requires depth >= 1
    requires o.node.Some? ==> Within(NodeTree(o.node.value), depth - 1)
    requires o.attributes.Some? ==> Within(Free(o.attributes.value), depth - 1)
    ensures Within(OperationTree(o), depth)
  {
    var m := OperationTree(o).fields;
    forall f | f in m
      ensures Within(m[f], depth - 1)
    {
    }
    ObjectFits(m, depth);
  }

  lemma {:induction false} PatchFits(p: RawPatch, depth: int)
    requires depth >= 1
    requires Within(Arr(OperationTrees(p.operations)), depth - 1) && Within(Arr(Texts(p.evidence)), depth - 1)
    ensures Within(PatchTree(p), depth)
  {
    var m := PatchTree(p).fields;
    forall f | f in m
      ensures Within(m[f], depth - 1)
    {
    }
    ObjectFits(m, depth);
  }

  lemma {:induction false} OneOperationFits(os: seq<RawOperation>, depth: int)
    requires |os| == 1 && depth >= 1 && Within(OperationTree(os[0]), depth - 1)
    ensures Within(Arr(OperationTrees(os)), depth)
  {
    assert os[1..] == [] && OperationTrees(os) == [OperationTree(os[0])];
  }

  lemma {:induction false} ChainOperationWithin(n: nat, depth: int)
    requires depth >= 2 * n + 3
    ensures Within(OperationTree(ChainPatch(n).operations[0]), depth)
  {
    ChainWithin(n, depth - 1);
    OperationFits(ChainPatch(n).operations[0], depth);
  }

  lemma {:induction false} ChainPatchWithin(n: nat, depth: int)
    requires depth >= 2 * n + 5
    ensures Within(PatchTree(ChainPatch(n)), depth)
  {
    ChainOperationWithin(n, depth - 2);
    OneOperationFits(ChainPatch(n).operations, depth - 1);
    PatchFits(ChainPatch(n), depth);
  }

  /** A chain of nodes is valid as far as the limit on depth goes. Its text parses back
      exactly when that limit is twice its length and five more, and when it is within the
      default limit as well. */
  lemma {:induction false} ChainParsesIff(n: nat, limits: Limits)
    requires limits.maxOperations >= 1 && limits.maxEvidence >= 0 && limits.maxTextBytes >= 0
    ensures WellFormed(ChainPatch(n), limits) <==> n <= limits.maxDepth
    ensures ParseStrict(PatchTree(ChainPatch(n)), limits) == Some(ChainPatch(n))
       <==> 2 * n + 5 <= limits.maxDepth && n <= DEFAULT_LIMITS.maxDepth
  {
    ChainIsValid(n, limits);
    ChainIsValid(n, DEFAULT_LIMITS);
    ParsesBackIff(ChainPatch(n), limits);
    if 2 * n + 5 <= limits.maxDepth {
      ChainPatchWithin(n, limits.maxDepth);
    } else if Within(PatchTree(ChainPatch(n)), limits.maxDepth) {
      ChainIsReadable(n);
      ParsedIsShallow(ChainPatch(n), limits, 0);
    }
  }

  /** A valid chain deeper than half the limit, or than the default limit, and its text is
      refused. */
  lemma {:induction false} DeepChainIsRefused(n: nat, limits: Limits)
    requires limits.maxOperations >= 1 && limits.maxEvidence >= 0 && limits.maxTextBytes >= 0
    requires n <= limits.maxDepth && (limits.maxDepth < 2 * n + 5 || n > DEFAULT_LIMITS.maxDepth)
    ensures WellFormed(ChainPatch(n), limits) && ReadableSet(ChainPatch(n))
    ensures ParseStrict(PatchTree(ChainPatch(n)), limits) == None
  {
    ChainIsValid(n, limits);
    ChainParsesIff(n, limits);
    ParsesBackIff(ChainPatch(n), limits);
  }
}
