/** Validating a whole request: its scope, versions, evidence, operations and approval. */
module PatchRequests {
  import opened Options
  import opened DocumentTree
  import opened PatchLimits
  import opened Patches
  import opened PatchValidation

  // ---- Requests ----

  /** The patch hash determines the patch. */
  datatype PatchHash = PatchHashOf(patch: PatchSet)

  /** Evidence by name alone, or tied to a node of a version. */
  datatype EvidenceItem =
    | Plain(id: string)
    | Bound(id: string, workspaceId: string, resourceId: string, versionId: string, nodeId: string)

  datatype Approval = Approval(workspaceId: string, resourceId: string, versionId: string, principalType: string,
                               principalId: string, idempotencyKey: string, patchHash: PatchHash)

  datatype Snapshot = Snapshot(workspaceId: string, resourceId: string, currentVersionId: string,
                               document: Option<Document>, authorized: set<string>, evidence: seq<EvidenceItem>,
                               citations: seq<EvidenceItem>, needsApproval: bool, documentHash: Option<DocumentHash>)

  /** What the patch itself claims about where it belongs; empty where it claims nothing. */
  datatype Claims = Claims(workspaceId: string, principalType: string, principalId: string, author: string,
                           idempotencyKey: string, patchHash: Option<PatchHash>, documentHash: Option<DocumentHash>,
                           citations: seq<string>)

  datatype Request = Request(workspaceId: string, resourceId: string, principalType: string, principalId: string,
                             idempotencyKey: string, patch: PatchSet, claims: Claims, snapshot: Snapshot,
                             approval: Option<Approval>, patchHash: Option<PatchHash>,
                             documentHash: Option<DocumentHash>, limits: Limits)

  predicate Agrees(claim: string, truth: string) {
    claim == "" || claim == truth
  }

  predicate ClaimsHold(r: Request) {
    var c, digest := r.claims, PatchHashOf(r.patch);
    && (r.patchHash.Some? ==> r.patchHash.value == digest)
    && (c.patchHash.Some? ==> c.patchHash.value == digest)
    && Agrees(c.idempotencyKey, r.idempotencyKey) && NonBlank(r.idempotencyKey)
    && Agrees(c.workspaceId, r.workspaceId)
    && Agrees(c.principalType, r.principalType) && Agrees(c.principalId, r.principalId) && Agrees(c.author, r.principalId)
  }

  predicate ScopeHolds(r: Request) {
    && NonBlank(r.workspaceId) && r.workspaceId == r.snapshot.workspaceId
    && NonBlank(r.resourceId) && r.resourceId == r.snapshot.resourceId && r.patch.resourceId == r.resourceId
  }

  /** The first of the hashes that is given is the document's. */
  predicate DocumentHashHolds(r: Request, d: Document) {
    var expected := OrElse(r.documentHash, OrElse(r.claims.documentHash, r.snapshot.documentHash));
    expected.Some? ==> expected.value == d.hash
  }

  predicate VersionHolds(r: Request, d: Document) {
    r.patch.baseVersionId == r.snapshot.currentVersionId && d.versionId == r.snapshot.currentVersionId
  }

  // ---- Evidence ----

  function ItemIds(items: seq<EvidenceItem>): set<string> {
    set i | 0 <= i < |items| :: items[i].id
  }

  /** The last binding of the name, if it has one. */
  function BindingOf(items: seq<EvidenceItem>, id: string): Option<EvidenceItem> {
    if items == [] then None
    else
      var last := items[|items| - 1];
      if last.Bound? && last.id == id then Some(last) else BindingOf(items[..|items| - 1], id)
  }

  predicate BindingHolds(item: EvidenceItem, r: Request, d: Document)
    requires item.Bound?
  {
    && item.workspaceId == r.workspaceId && item.resourceId == r.resourceId
    && item.versionId == r.snapshot.currentVersionId && item.nodeId in Ids([d.root])
  }

  lemma {:induction false} BindingIsBound(items: seq<EvidenceItem>, id: string)
    ensures BindingOf(items, id).Some? ==> BindingOf(items, id).value.Bound?
  {
    if items != [] {
      BindingIsBound(items[..|items| - 1], id);
    }
  }

  predicate ReferenceOk(r: Request, d: Document, ref: string) {
    BindingIsBound(r.snapshot.evidence, ref);
    && ref in ItemIds(r.snapshot.evidence)
    && var binding := BindingOf(r.snapshot.evidence, ref);
       binding.Some? ==> BindingHolds(binding.value, r, d)
  }

  /** Every reference is known, and tied to this version of this document if it is tied at
      all; every citation is known. */
  predicate EvidenceHolds(r: Request, d: Document) {
    && (forall i | 0 <= i < |r.patch.evidenceRefs| :: ReferenceOk(r, d, r.patch.evidenceRefs[i]))
    && (forall i | 0 <= i < |r.claims.citations| :: r.claims.citations[i] in ItemIds(r.snapshot.citations))
  }

  method Bindings(items: seq<EvidenceItem>) returns (bound: map<string, EvidenceItem>)
    ensures forall id :: (if id in bound then Some(bound[id]) else None) == BindingOf(items, id)
  {
    bound := map[];
    for k := 0 to |items|
      invariant forall id :: (if id in bound then Some(bound[id]) else None) == BindingOf(items[..k], id)
    {
      assert items[..k + 1][..k] == items[..k];
      if items[k].Bound? {
        bound := bound[items[k].id := items[k]];
      }
    }
    assert items[..|items|] == items;
  }

  method CheckEvidence(r: Request, d: Document) returns (errors: nat)
    ensures errors == 0 <==> EvidenceHolds(r, d)
  {
    var bound := Bindings(r.snapshot.evidence);
    errors := 0;
    for k := 0 to |r.patch.evidenceRefs|
      invariant errors == 0 <==> forall i | 0 <= i < k :: ReferenceOk(r, d, r.patch.evidenceRefs[i])
    {
      var ref := r.patch.evidenceRefs[k];
      BindingIsBound(r.snapshot.evidence, ref);
      assert (if ref in bound then Some(bound[ref]) else None) == BindingOf(r.snapshot.evidence, ref);
      if ref !in ItemIds(r.snapshot.evidence) {
        errors := errors + 1;
      } else if ref in bound && !BindingHolds(bound[ref], r, d) {
        errors := errors + 1;
      }
    }
    for k := 0 to |r.claims.citations|
      invariant errors == 0 <==>
        (forall i | 0 <= i < |r.patch.evidenceRefs| :: ReferenceOk(r, d, r.patch.evidenceRefs[i]))
        && forall i | 0 <= i < k :: r.claims.citations[i] in ItemIds(r.snapshot.citations)
    {
      if r.claims.citations[k] !in ItemIds(r.snapshot.citations) {
        errors := errors + 1;
      }
    }
  }

  // ---- The whole request ----

  /** When approval is needed, it was given to this principal for this patch, version and key. */
  predicate ApprovalHolds(r: Request) {
    r.snapshot.needsApproval ==> r.approval == Some(Approval(
      r.workspaceId, r.resourceId, r.snapshot.currentVersionId, r.principalType, r.principalId, r.idempotencyKey,
      PatchHashOf(r.patch)))
  }

  /** All that the checks on a request demand of a document that is there. */
  predicate ChecksHold(r: Request, d: Document) {
    && ClaimsHold(r) && ScopeHolds(r) && VersionHolds(r, d) && DocumentHashHolds(r, d)
    && EvidenceHolds(r, d)
    && OperationsOk(d, r.patch.operations, r.snapshot.authorized, r.limits)
    && ApprovalHolds(r)
  }

  /** A patch reported valid: no check failed, and applying it to a private copy succeeded.
      Hashing and applying it go by the default limits, whatever those of the request. */
  predicate Validated(r: Request) {
    && ValidSet(r.patch, r.limits) && ValidSet(r.patch, DEFAULT_LIMITS)
    && r.snapshot.document.Some? && Valid(r.snapshot.document.value)
    && ChecksHold(r, r.snapshot.document.value)
    && ApplyPatch(r.snapshot.document.value, r.patch).Ok?
  }

  /** Errors are reported, except one that hashing the patch raises. */
  datatype Verdict = Raised | Reported | Accepted(affected: seq<string>)

  /** Check after check, with early returns where nothing further can be asked. */
  method ValidatePatch(r: Request) returns (verdict: Verdict)
    ensures verdict.Raised? <==> ValidSet(r.patch, r.limits) && !WithinLimits(r.patch, DEFAULT_LIMITS)
    ensures verdict.Accepted? <==> Validated(r)
    ensures verdict.Accepted? ==> verdict.affected == Targets(r.patch.operations)
  {
    var errors: nat := 0;
    if !ValidSet(r.patch, r.limits) {
      return Reported;
    }
    if !ValidSet(r.patch, DEFAULT_LIMITS) {
      return Raised;
    }
    if !ClaimsHold(r) {
      errors := errors + 1;
    }
    if r.snapshot.document.None? {
      return Reported;
    }
    var d := r.snapshot.document.value;
    if !ScopeHolds(r) {
      errors := errors + 1;
    }
    if !VersionHolds(r, d) || !DocumentHashHolds(r, d) {
      errors := errors + 1;
    }
    if !Valid(d) {
      return Reported;
    }
    var wrong := CheckEvidence(r, d);
    var failed, affected := CheckOperations(d, r.patch.operations, r.snapshot.authorized, r.limits);
    errors := errors + wrong + |failed|;
    if !ApprovalHolds(r) {
      errors := errors + 1;
    }
    if errors != 0 || ApplyPatch(d, r.patch).Failed? {
      return Reported;
    }
    return Accepted(affected);
  }

  /** Exactly when a request that passes every check is reported valid. */
  lemma {:induction false} ChecksSufficeIff(r: Request)
    requires ValidSet(r.patch, r.limits) && r.snapshot.document.Some? && Valid(r.snapshot.document.value)
    requires ChecksHold(r, r.snapshot.document.value)
    ensures var d := r.snapshot.document.value;
      Validated(r) <==>
        && d.documentId == r.resourceId && WithinLimits(r.patch, DEFAULT_LIMITS)
        && NoneBuried(d, r.patch.operations) && PayloadsReach(d, r.patch.operations)
  {
    if r.snapshot.document.value.documentId == r.resourceId {
      ValidatedAppliesIff(r.snapshot.document.value, r.patch, r.snapshot.authorized, r.limits);
    }
  }
}
