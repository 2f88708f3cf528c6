/** Patches on whole documents: application, validation and commit. */
module Patches {
  import opened Options
  import opened JsonValues
  import opened DocumentTree
  import opened PatchTree
  import opened PatchLaws
  import opened HashLaws
  import opened PatchLimits
  import opened TextLines

  const SCHEMA_VERSION := "1.0"

  predicate NonBlank(s: string) {
    exists i | 0 <= i < |s| :: s[i] !in " \t\n\r"
  }

  datatype DocumentHash = NoDocumentHash | DocumentHashOf(documentId: string, versionId: string, root: Node,
                                                          format: string, metadata: map<string, Json>, schema: string)

  datatype Document = Document(documentId: string, versionId: string, root: Node, format: string,
                               metadata: map<string, Json>, hash: DocumentHash, schema: string)

  function HashDocument(d: Document): DocumentHash {
    DocumentHashOf(d.documentId, d.versionId, d.root, d.format, d.metadata, d.schema)
  }

  function RehashedRoot(t: Node): Node {
    Rehashed([t])[0]
  }

  function RehashDocument(d: Document): Document {
    var r := d.(root := RehashedRoot(d.root));
    r.(hash := HashDocument(r))
  }

  // ---- Validity ----

  predicate JsonValid(j: Json) {
    match j
    case JList(items) => forall i | 0 <= i < |items| :: JsonValid(items[i])
    case JObject(fields) => forall k | k in fields :: NonBlank(k) && JsonValid(fields[k])
    case _ => true
  }

  predicate FieldsValid(fields: map<string, Json>) {
    forall k | k in fields :: NonBlank(k) && JsonValid(fields[k])
  }

  predicate PlaceValid(t: Node, file: string, end: int) {
    && t.location.file == file
    && 0 <= t.location.start <= t.location.end <= end
    && t.location.startLine >= 0 && t.location.endLine >= 0
    && (t.location.endLine != 0 ==> t.location.startLine <= t.location.endLine)
    && forall i | 0 <= i < |t.pages| ::
         t.pages[i].page >= 1 && t.location.start <= t.pages[i].start <= t.pages[i].end <= t.location.end
  }

  /** Everything validate asks of a node on its own, except its hash. */
  predicate NodeValid(t: Node, file: string, end: int) {
    NonBlank(t.id) && PlaceValid(t, file, end) && FieldsValid(t.attributes) && FieldsValid(t.metadata)
  }

  predicate ForestValid(f: seq<Node>, file: string, end: int) {
    f == [] || (NodeValid(f[0], file, end) && ForestValid(f[0].children, file, end) && ForestValid(f[1..], file, end))
  }

  predicate Valid(d: Document) {
    && NonBlank(d.documentId) && NonBlank(d.versionId)
    && d.schema == SCHEMA_VERSION && d.root.kind == DocumentRoot
    && FieldsValid(d.metadata)
    && NonBlank(d.root.location.file)
    && Unique([d.root])
    && ForestValid([d.root], d.root.location.file, d.root.location.end)
    && Hashed([d.root])
    && d.hash == HashDocument(d)
  }

  lemma {:induction false} ForestValidAppend(a: seq<Node>, b: seq<Node>, file: string, end: int)
    ensures ForestValid(a + b, file, end) <==> ForestValid(a, file, end) && ForestValid(b, file, end)
  {
    if a == [] {
      assert a + b == b;
    } else {
      assert (a + b)[1..] == a[1..] + b;
      ForestValidAppend(a[1..], b, file, end);
    }
  }

  lemma {:induction false} RehashedValid(f: seq<Node>, file: string, end: int)
    ensures ForestValid(Rehashed(f), file, end) <==> ForestValid(f, file, end)
  {
    if f != [] {
      RehashedValid(f[0].children, file, end);
      RehashedValid(f[1..], file, end);
      assert Rehashed(f)[1..] == Rehashed(f[1..]);
    }
  }

  lemma {:induction false} RootOfRehashed(t: Node)
    ensures RehashedRoot(t).kind == t.kind && RehashedRoot(t).location == t.location
  {
  }

  // ---- Application ----

  datatype PatchSet = PatchSet(resourceId: string, baseVersionId: string, operations: seq<Operation>,
                               evidenceRefs: seq<string>, reason: string)

  /** The nodes are nested no deeper than allowed, and each of their texts is within its limit. */
  predicate Budgeted(f: seq<Node>, depth: nat, limits: Limits) {
    f == [] || (
      && depth <= limits.maxDepth && TextBytes(f[0].content) <= limits.maxTextBytes
      && Budgeted(f[0].children, depth + 1, limits) && Budgeted(f[1..], depth, limits))
  }

  predicate OperationBudgeted(op: Operation, limits: Limits) {
    && (op.Replace? ==> TextBytes(op.content) <= limits.maxTextBytes)
    && Budgeted(op.Inserted(), 0, limits)
  }

  /** What the limits ask of a patch. */
  predicate WithinLimits(p: PatchSet, limits: Limits) {
    && |p.operations| <= limits.maxOperations && |p.evidenceRefs| <= limits.maxEvidence
    && forall i | 0 <= i < |p.operations| :: OperationBudgeted(p.operations[i], limits)
  }

  /** What every boundary asks of a patch before anything else. */
  predicate ValidSet(p: PatchSet, limits: Limits) {
    && NonBlank(p.resourceId) && NonBlank(p.baseVersionId) && NonBlank(p.reason)
    && p.operations != []
    && (forall i | 0 <= i < |p.evidenceRefs| :: Trim(p.evidenceRefs[i]))
    && (forall i, j | 0 <= i < j < |p.evidenceRefs| :: p.evidenceRefs[i] != p.evidenceRefs[j])
    && (forall i | 0 <= i < |p.operations| :: NonBlank(p.operations[i].target))
    && (forall i | 0 <= i < |p.operations| && p.operations[i].Inserts() :: NonBlank(p.operations[i].parentId))
    && WithinLimits(p, limits)
  }

  lemma {:induction false} CheckedRootStays(f: seq<Node>, op: Operation)
    requires |f| == 1 && Check(f, op).Ok?
    ensures |EditFirst(f, op)| == 1
  {
    assert f[1..] == [];
    assert Find([], None, op.target) == None;
    FindIff(f[0].children, Some(Parent(f[0].id, f[0].hash)), op.target);
  }

  lemma {:induction false} ApplyAllKeepsRoot(f: seq<Node>, ops: seq<Operation>)
    requires |f| == 1 && ApplyAll(f, ops).Ok?
    ensures |ApplyAll(f, ops).value| == 1
    decreases |ops|
  {
    if ops != [] {
      ApplyAllKeepsRoot(f, ops[..|ops| - 1]);
      CheckedRootStays(ApplyAll(f, ops[..|ops| - 1]).value, ops[|ops| - 1]);
    }
  }

  /** Whatever limits a caller has, application falls back to the default ones. */
  function ApplyPatch(d: Document, p: PatchSet): Result<Document> {
    if !ValidSet(p, DEFAULT_LIMITS) then Failed(Invalid)
    else if d.documentId != p.resourceId || d.versionId != p.baseVersionId then Failed(Mismatch)
    else
      var forest :- ApplyAll([d.root], p.operations);
      ApplyAllKeepsRoot([d.root], p.operations);
      var result := RehashDocument(d.(root := forest[0]));
      if Valid(result) then Ok(result) else Failed(Invalid)
  }

  lemma {:induction false} RehashedOne(t: Node)
    ensures Rehashed([t]) == [RehashedRoot(t)]
  {
    assert [t][1..] == [];
  }

  /** A successful patch gives a valid document of the same identity whose tree is the
      simultaneous rewrite, rehashed. */
  lemma {:induction false} PatchRewrites(d: Document, p: PatchSet)
    requires Plan([d.root], p.operations) && ApplyPatch(d, p).Ok?
    ensures var r := ApplyPatch(d, p).value;
      && Valid(r) && r.documentId == d.documentId && r.versionId == d.versionId
      && [r.root] == Rehashed(Rewrite([d.root], ByTarget(p.operations)))
      && AllAdmissible([d.root], p.operations)
  {
    SequentialIsSimultaneous([d.root], p.operations);
    ApplyAllKeepsRoot([d.root], p.operations);
    var forest := ApplyAll([d.root], p.operations).value;
    assert forest == [forest[0]];
    RehashedOne(forest[0]);
  }

  /** Patches that differ only in the order of their operations give the same document. */
  lemma {:induction false} PatchOrderDoesNotMatter(d: Document, p: PatchSet, q: PatchSet)
    requires q == p.(operations := q.operations) && Reordered(p.operations, q.operations)
    requires Plan([d.root], p.operations) && Plan([d.root], q.operations)
    requires ApplyPatch(d, p).Ok? && ApplyPatch(d, q).Ok?
    ensures ApplyPatch(d, p) == ApplyPatch(d, q)
  {
    OrderDoesNotMatter([d.root], p.operations, q.operations);
  }

  /** In the patched document a surviving node has its base hash exactly when its own
      fields and its child list came out unchanged. */
  lemma {:induction false} PatchedHashes(d: Document, p: PatchSet, id: string)
    requires Valid(d) && Plan([d.root], p.operations) && ApplyPatch(d, p).Ok?
    requires Survives([d.root], ByTarget(p.operations), id)
    ensures NodeOf([d.root], id).Some? && NodeOf([ApplyPatch(d, p).value.root], id).Some?
    ensures var m, before := ByTarget(p.operations), NodeOf([d.root], id).value;
      (NodeOf([ApplyPatch(d, p).value.root], id).value.hash == before.hash) <==>
        (Own(m, before).content == before.content
         && Own(m, before).attributes == before.attributes
         && !ChildListEdited(before.children, m))
  {
    PatchRewrites(d, p);
    ByTargetPlanned([d.root], p.operations);
    HashKeptIff([d.root], ByTarget(p.operations), id);
  }
}
