/** The commit boundary checks a patch again; a validated patch passes every check. */
module PatchCommit {
  import opened Options
  import opened DocumentTree
  import opened PatchTree
  import opened PatchLimits
  import opened Patches
  import opened PatchValidation
  import opened PatchRequests

  // ---- Commit ----

  datatype CommitResult = CommitResult(resourceId: string, versionId: string, outboxId: string, created: bool)

  datatype StoredCommit = StoredCommit(patchHash: PatchHash, result: CommitResult)

  datatype CommitSnapshot = CommitSnapshot(document: Document, currentVersionId: string,
                                           authorized: set<string>, evidence: set<string>)

  /** What is handed over to be written in one transaction. */
  datatype WriteOrder = WriteOrder(baseVersionId: string, patchHash: PatchHash, expectedHashes: map<string, Hash>,
                                   document: Document, actorId: string)

  datatype CommitOutcome = Refused | IdempotencyConflict | Replayed(result: CommitResult) | Writes(order: WriteOrder)

  function ExpectedHashes(ops: seq<Operation>): map<string, Hash> {
    if ops == [] then map[]
    else ExpectedHashes(ops[..|ops| - 1])[ops[|ops| - 1].target := ops[|ops| - 1].expected]
  }

  predicate WithinScope(s: CommitSnapshot, p: PatchSet) {
    && (forall i | 0 <= i < |p.operations| :: p.operations[i].target in s.authorized)
    && (forall i | 0 <= i < |p.operations| && p.operations[i].Inserts() && p.operations[i].parentId != "" ::
          p.operations[i].parentId in s.authorized)
    && (forall i | 0 <= i < |p.evidenceRefs| :: p.evidenceRefs[i] in s.evidence)
  }

  function Commit(workspaceId: string, resourceId: string, key: string, actorId: string, p: PatchSet,
                  existing: Option<StoredCommit>, s: CommitSnapshot, newVersionId: string): CommitOutcome {
    if !NonBlank(workspaceId) || !NonBlank(resourceId) || !NonBlank(key) || !NonBlank(actorId) then Refused
    else if !ValidSet(p, DEFAULT_LIMITS) || p.resourceId != resourceId then Refused
    else if existing.Some? then
      if existing.value.patchHash != PatchHashOf(p) then IdempotencyConflict
      else Replayed(existing.value.result.(created := false))
    else if s.currentVersionId != p.baseVersionId || s.document.versionId != p.baseVersionId then Refused
    else if !WithinScope(s, p) then Refused
    else
      var applied := ApplyPatch(s.document, p);
      if applied.Failed? then Refused
      else
        var document := RehashDocument(applied.value.(versionId := newVersionId));
        if !Valid(document) then Refused
        else Writes(WriteOrder(p.baseVersionId, PatchHashOf(p), ExpectedHashes(p.operations), document, actorId))
  }

  /** Giving a valid document a new version identifier keeps its tree and validity. */
  lemma {:induction false} NewVersionIsValid(d: Document, versionId: string)
    requires Valid(d) && NonBlank(versionId)
    ensures var v := RehashDocument(d.(versionId := versionId)); Valid(v) && v.root == d.root
  {
    RehashedKeepsHashed([d.root]);
  }

  lemma {:induction false} ExpectedHashesAreBase(f: seq<Node>, ops: seq<Operation>, id: string)
    requires forall i | 0 <= i < |ops| :: Check(f, ops[i]).Ok?
    requires id in ExpectedHashes(ops)
    ensures Find(f, None, id).Some? && Find(f, None, id).value.hash == ExpectedHashes(ops)[id]
  {
    var n := |ops| - 1;
    if ops[n].target == id {
      assert Check(f, ops[n]).Ok?;
    } else {
      ExpectedHashesAreBase(f, ops[..n], id);
    }
  }

  lemma {:induction false} ValidatedInScope(r: Request)
    requires Validated(r)
    ensures WithinScope(CommitSnapshot(r.snapshot.document.value, r.snapshot.currentVersionId, r.snapshot.authorized,
                                       ItemIds(r.snapshot.evidence)), r.patch)
  {
    var d, ops := r.snapshot.document.value, r.patch.operations;
    forall i | 0 <= i < |ops|
      ensures ops[i].target in r.snapshot.authorized
      ensures ops[i].Inserts() ==> ops[i].parentId in r.snapshot.authorized
    {
      assert OperationOk(d, ops, r.snapshot.authorized, r.limits, i);
    }
    forall i | 0 <= i < |r.patch.evidenceRefs|
      ensures r.patch.evidenceRefs[i] in ItemIds(r.snapshot.evidence)
    {
      assert ReferenceOk(r, d, r.patch.evidenceRefs[i]);
    }
  }

  /** The document that a validated patch is committed as. */
  lemma {:induction false} ValidatedDocument(r: Request, newVersionId: string)
    requires Validated(r) && NonBlank(newVersionId)
    ensures var applied := ApplyPatch(r.snapshot.document.value, r.patch).value;
      var document := RehashDocument(applied.(versionId := newVersionId));
      Valid(document) && document.versionId == newVersionId && document.root == applied.root
  {
    var d := r.snapshot.document.value;
    ValidatedIsPlan(d, r.patch.operations, r.snapshot.authorized, r.limits);
    PatchRewrites(d, r.patch);
    NewVersionIsValid(ApplyPatch(d, r.patch).value, newVersionId);
  }

  lemma {:induction false} ValidatedHashes(r: Request)
    requires Validated(r)
    ensures forall id | id in ExpectedHashes(r.patch.operations) ::
      && Find([r.snapshot.document.value.root], None, id).Some?
      && Find([r.snapshot.document.value.root], None, id).value.hash == ExpectedHashes(r.patch.operations)[id]
  {
    var d, ops := r.snapshot.document.value, r.patch.operations;
    ValidatedIsPlan(d, ops, r.snapshot.authorized, r.limits);
    forall id | id in ExpectedHashes(ops)
      ensures Find([d.root], None, id).Some? && Find([d.root], None, id).value.hash == ExpectedHashes(ops)[id]
    {
      ExpectedHashesAreBase([d.root], ops, id);
    }
  }

  /** What commit decides on the snapshot that a request was validated against. */
  function CommitOf(r: Request, actorId: string, newVersionId: string): CommitOutcome
    requires r.snapshot.document.Some?
  {
    Commit(r.workspaceId, r.resourceId, r.idempotencyKey, actorId, r.patch, None,
           CommitSnapshot(r.snapshot.document.value, r.snapshot.currentVersionId, r.snapshot.authorized,
                          ItemIds(r.snapshot.evidence)),
           newVersionId)
  }

  /** On the snapshot it was validated against and with a new key, a validated patch is
      always handed over for writing: as the validated result under its new version, with
      the hashes the base document really has. */
  lemma {:induction false} ValidatedCommits(r: Request, actorId: string, newVersionId: string)
    requires Validated(r) && NonBlank(actorId) && NonBlank(newVersionId)
    ensures CommitOf(r, actorId, newVersionId).Writes?
    ensures var order := CommitOf(r, actorId, newVersionId).order; var d := r.snapshot.document.value;
      && Valid(order.document) && order.document.versionId == newVersionId
      && order.document.root == ApplyPatch(d, r.patch).value.root
      && (forall id | id in order.expectedHashes ::
            Find([d.root], None, id).Some? && Find([d.root], None, id).value.hash == order.expectedHashes[id])
  {
    ValidatedInScope(r);
    ValidatedDocument(r, newVersionId);
    ValidatedHashes(r);
  }
}
