/** apply_patch, rehash and validate on mutable documents. */
module PatchInPlace {
  import opened JsonValues
  import opened DocumentTree
  import opened PatchTree
  import opened PatchLimits
  import opened Patches
  import opened PatchHeap

  class HeapDocument {
    var documentId: string
    var versionId: string
    var root: HeapNode
    var format: string
    var metadata: map<string, Json>
    var hash: DocumentHash
    var schema: string

    constructor (documentId: string, versionId: string, root: HeapNode, format: string,
                 metadata: map<string, Json>, hash: DocumentHash, schema: string)
      ensures this.documentId == documentId && this.versionId == versionId && this.root == root
      ensures this.format == format && this.metadata == metadata && this.hash == hash && this.schema == schema
    {
      this.documentId, this.versionId, this.root, this.format := documentId, versionId, root, format;
      this.metadata, this.hash, this.schema := metadata, hash, schema;
    }

    /** The document this object stands for. */
    ghost function Value(sk: Skeleton): Document
      reads this, Objs([sk])
    {
      Document(documentId, versionId, Abs([sk])[0], format, metadata, hash, schema)
    }

    /** The document as it is serialised. */
    function Read(ghost sk: Skeleton): (d: Document)
      requires root == sk.obj && Linked([sk])
      reads this, Objs([sk])
      ensures d == Value(sk)
    {
      assert Tops([sk]) == [root];
      Document(documentId, versionId, ReadAll([root], [sk])[0], format, metadata, hash, schema)
    }
  }

  function ReadAll(nodes: seq<HeapNode>, ghost f: seq<Skeleton>): (r: seq<Node>)
    requires nodes == Tops(f) && Linked(f)
    reads Objs(f)
    ensures r == Abs(f)
    decreases f
  {
    if nodes == [] then []
    else
      [nodes[0].Fields().(children := ReadAll(nodes[0].children, f[0].kids))] + ReadAll(nodes[1..], f[1..])
  }

  // ---- Validation ----

  /** What the walk asks of the rest of a document, given the identifiers already seen. */
  predicate WalkedWell(f: seq<Node>, seen: set<string>, file: string, end: int) {
    Unique(f) && Ids(f) !! seen && ForestValid(f, file, end) && Hashed(f)
  }

  lemma {:induction false} WalkFirst(f: seq<Node>, seen: set<string>, file: string, end: int)
    requires f != []
    ensures WalkedWell(f, seen, file, end) <==>
      (&& NodeValid(f[0], file, end) && f[0].id !in seen && f[0].hash == HashNode(f[0])
       && WalkedWell(f[0].children, seen + {f[0].id}, file, end)
       && WalkedWell(f[1..], seen + {f[0].id} + Ids(f[0].children), file, end))
  {
  }

  predicate Sound(node: HeapNode, file: string, end: int)
    reads node, node.children
  {
    && NodeValid(node.Fields(), file, end)
    && node.hash == HashOf(Shape(node.kind, node.attributes, node.content, IdsOf(node.children), node.location,
                                 node.pages, node.metadata))
  }

  lemma {:induction false} SoundIs(f: seq<Skeleton>, file: string, end: int)
    requires f != [] && Linked(f)
    ensures var t := Abs(f)[0];
      && t.id == f[0].obj.id && t.children == Abs(f[0].kids) && Abs(f)[1..] == Abs(f[1..])
      && (Sound(f[0].obj, file, end) <==> NodeValid(t, file, end) && t.hash == HashNode(t))
  {
    IdsOfTops(f[0].kids);
  }

  lemma {:induction false} WalkHeap(f: seq<Skeleton>, seen: set<string>, file: string, end: int)
    requires f != [] && Linked(f)
    ensures WalkedWell(Abs(f), seen, file, end) <==>
      (&& Sound(f[0].obj, file, end) && f[0].obj.id !in seen
       && WalkedWell(Abs(f[0].kids), seen + {f[0].obj.id}, file, end)
       && WalkedWell(Abs(f[1..]), seen + {f[0].obj.id} + Ids(Abs(f[0].kids)), file, end))
  {
    SoundIs(f, file, end);
    WalkFirst(Abs(f), seen, file, end);
  }

  /** Node by node, remembering the identifiers seen so far. */
  method Walk(nodes: seq<HeapNode>, seen: set<string>, file: string, end: int, ghost f: seq<Skeleton>)
    returns (ok: bool, met: set<string>)
    requires nodes == Tops(f) && Linked(f)
    ensures ok <==> WalkedWell(Abs(f), seen, file, end)
    ensures ok ==> met == seen + Ids(Abs(f))
    decreases f
  {
    if nodes == [] {
      return true, seen;
    }
    AllAllocated(f);
    var node := nodes[0];
    WalkHeap(f, seen, file, end);
    if !Sound(node, file, end) || node.id in seen {
      return false, seen;
    }
    ok, met := Walk(node.children, seen + {node.id}, file, end, f[0].kids);
    Untouched(f);
    if ok {
      label Below:
      ok, met := Walk(nodes[1..], met, file, end, f[1..]);
      Untouched@Below(f);
    }
  }

  method Validate(document: HeapDocument, ghost sk: Skeleton) returns (ok: bool)
    requires document.root == sk.obj && Linked([sk])
    ensures ok == Valid(document.Value(sk))
  {
    assert Tops([sk]) == [document.root];
    var file, end := document.root.location.file, document.root.location.end;
    if !NonBlank(document.documentId) || !NonBlank(document.versionId) || document.schema != SCHEMA_VERSION
       || document.root.kind != DocumentRoot || !FieldsValid(document.metadata) || !NonBlank(file) {
      return false;
    }
    AllAllocated([sk]);
    var met;
    ok, met := Walk([document.root], {}, file, end, [sk]);
    Untouched([sk]);
    assert Abs([sk]) == [Abs([sk])[0]];
    if ok {
      ok := document.hash == HashDocument(document.Read(sk));
    }
  }

  // ---- Application ----

  method Rehash(document: HeapDocument, ghost sk: Skeleton)
    requires Owned(document.root, sk)
    modifies document`hash, Objs([sk])
    ensures Owned(document.root, sk) && document.Value(sk) == RehashDocument(old(document.Value(sk)))
  {
    RehashNode(document.root, sk);
    SetDocumentHash(document, sk);
  }

  method SetDocumentHash(document: HeapDocument, ghost sk: Skeleton)
    requires Owned(document.root, sk)
    modifies document`hash
    ensures Owned(document.root, sk)
    ensures document.Value(sk) == old(document.Value(sk)).(hash := HashDocument(old(document.Value(sk))))
  {
    AllAllocated([sk]);
    document.hash := HashDocument(document.Read(sk));
    Untouched([sk]);
  }

  /** The patched tree rehashed, and accepted when it is valid. */
  method Finish(copy: HeapDocument, ghost sk: Skeleton) returns (r: Result<HeapDocument>)
    requires Owned(copy.root, sk)
    modifies copy`hash, Objs([sk])
    ensures Owned(copy.root, sk) && copy.Value(sk) == RehashDocument(old(copy.Value(sk)))
    ensures r == if Valid(copy.Value(sk)) then Ok(copy) else Failed(Invalid)
  {
    Rehash(copy, sk);
    AllAllocated([sk]);
    label Rehashed:
    var ok := Validate(copy, sk);
    Untouched@Rehashed([sk]);
    r := if ok then Ok(copy) else Failed(Invalid);
  }

  method CloneDocument(document: HeapDocument, ghost source: Skeleton)
    returns (copy: HeapDocument, ghost sk: Skeleton)
    requires document.root == source.obj && Linked([source])
    ensures Linked([source]) && document.Value(source) == old(document.Value(source))
    ensures fresh(copy) && fresh(Objs([sk])) && Owned(copy.root, sk)
    ensures copy.Value(sk) == document.Value(source) && Abs([sk]) == [document.Value(source).root]
    ensures copy.documentId == document.documentId && copy.versionId == document.versionId
  {
    AllAllocated([source]);
    var root;
    root, sk := Clone(document.root, source);
    AllAllocated([sk]);
    AllAllocated([source]);
    label Cloned:
    copy := new HeapDocument(document.documentId, document.versionId, root, document.format, document.metadata,
                             document.hash, document.schema);
    Untouched@Cloned([sk]);
    Untouched@Cloned([source]);
    assert Abs([source]) == [Abs([source])[0]];
  }

  /** The operations made on the copy itself, which is then rehashed and checked. */
  method PatchCopy(copy: HeapDocument, patch: PatchSet, ghost sk: Skeleton)
    returns (r: Result<HeapDocument>, ghost after: Skeleton)
    requires Owned(copy.root, sk)
    requires copy.documentId == patch.resourceId && copy.versionId == patch.baseVersionId
    requires ValidSet(patch, DEFAULT_LIMITS)
    modifies copy`hash, Objs([sk])
    ensures Owned(copy.root, after) && (forall o | o in Objs([after]) :: o in Objs([sk]) || fresh(o))
    ensures r.Failed? ==> ApplyPatch(old(copy.Value(sk)), patch) == Failed(r.error)
    ensures r.Ok? ==> r.value == copy && ApplyPatch(old(copy.Value(sk)), patch) == Ok(copy.Value(after))
  {
    assert [sk][1..] == [] && Abs([sk]) == [Abs([sk])[0]];
    var applied;
    applied, after := ApplyOperations(copy.root, patch.operations, sk);
    if applied.Failed? {
      return Failed(applied.error), after;
    }
    AllAllocated([after]);
    r := Finish(copy, after);
  }

  /** The patched copy of a document that the patch is for. */
  method PatchClone(document: HeapDocument, patch: PatchSet, ghost source: Skeleton)
    returns (r: Result<HeapDocument>, ghost sk: Skeleton)
    requires document.root == source.obj && Linked([source])
    requires document.documentId == patch.resourceId && document.versionId == patch.baseVersionId
    requires ValidSet(patch, DEFAULT_LIMITS)
    ensures r.Failed? ==> ApplyPatch(old(document.Value(source)), patch) == Failed(r.error)
    ensures r.Ok? ==> fresh(r.value) && fresh(Objs([sk])) && Owned(r.value.root, sk)
    ensures r.Ok? ==> ApplyPatch(old(document.Value(source)), patch) == Ok(r.value.Value(sk))
  {
    var copy;
    copy, sk := CloneDocument(document, source);
    r, sk := PatchCopy(copy, patch, sk);
  }

  /** The patched copy, or the error; the document handed in is left as it was. */
  method ApplyPatchInPlace(document: HeapDocument, patch: PatchSet, ghost source: Skeleton)
    returns (r: Result<HeapDocument>, ghost sk: Skeleton)
    requires document.root == source.obj && Linked([source])
    ensures Linked([source]) && document.Value(source) == old(document.Value(source))
    ensures r.Failed? ==> ApplyPatch(document.Value(source), patch) == Failed(r.error)
    ensures r.Ok? ==>
      && fresh(r.value) && fresh(Objs([sk])) && Owned(r.value.root, sk)
      && ApplyPatch(document.Value(source), patch) == Ok(r.value.Value(sk))
  {
    if !ValidSet(patch, DEFAULT_LIMITS) {
      return Failed(Invalid), source;
    }
    if document.documentId != patch.resourceId || document.versionId != patch.baseVersionId {
      return Failed(Mismatch), source;
    }
    AllAllocated([source]);
    r, sk := PatchClone(document, patch, source);
    Untouched([source]);
  }
}
