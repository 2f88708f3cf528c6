/** Approval records, the facts they are checked against, and what one call does to them. */
module ApprovalFacts {
  import opened Options

  datatype Error = Conflict | Invalid | NotFound | Denied | OutboxFailed

  datatype Result<+T> = Ok(value: T) | Failed(error: Error) {
    predicate IsFailure() { Failed? }
    function PropagateFailure<U>(): Result<U> requires Failed? { Failed(error) }
    function Extract(): T requires Ok? { value }
  }

  datatype Principal = Principal(kind: string, id: string)

  datatype ApprovalBinding = ApprovalBinding(
    workspaceId: string, runId: string, stepId: string, resourceId: string, patchId: string,
    patchHash: string, toolName: string, toolVersion: string, inputHash: string,
    idempotencyKey: string, targetVersionId: string)
  {
    function AsDict(): map<string, string> {
      map["workspace_id" := workspaceId, "run_id" := runId, "step_id" := stepId,
          "resource_id" := resourceId, "patch_id" := patchId, "patch_hash" := patchHash,
          "tool_name" := toolName, "tool_version" := toolVersion, "input_hash" := inputHash,
          "idempotency_key" := idempotencyKey, "target_version_id" := targetVersionId]
    }
  }

  datatype CreateCommand = CreateCommand(
    binding: ApprovalBinding, reason: string, payload: map<string, string>, requestedBy: Principal, requiredRole: string)

  datatype Decision = Approve | Reject

  datatype DecisionCommand = DecisionCommand(
    approvalId: string, workspaceId: string, decidedBy: Principal, decision: Decision,
    reason: string, decidedAt: Option<int>)

  datatype Status = Pending | Approved | Rejected

  function StatusOf(decision: Decision): Status {
    if decision.Approve? then Approved else Rejected
  }

  const TARGET_VERSION := "target_version_id"

  datatype Approval = Approval(
    approvalId: string, workspaceId: string, runId: string, stepId: string, resourceId: string,
    patchId: string, patchHash: string, toolName: string, toolVersion: string, inputHash: string,
    requestedBy: Principal, requiredRole: string, status: Status, decisionReason: Option<string>,
    decidedBy: Option<Principal>, createdAt: int, decidedAt: Option<int>, idempotencyKey: string,
    continuationStepId: Option<string>, payload: map<string, string>, reason: string)
  {
    function Binding(): ApprovalBinding {
      ApprovalBinding(workspaceId, runId, stepId, resourceId, patchId, patchHash, toolName, toolVersion,
                      inputHash, idempotencyKey,
                      if TARGET_VERSION in payload then payload[TARGET_VERSION] else "")
    }
  }

  datatype RunFact = RunFact(id: string, workspaceId: string, resourceId: string, status: string,
                             currentStep: Option<string>)

  /** The parts of a stored continuation that are read before it is released. */
  datatype WaitRequest = WaitRequest(operation: string, approvalId: string, targetKey: string)

  datatype WaitState = WaitState(approvalId: string, approvalStatus: string, patchValid: bool, targetKey: string)

  datatype DecisionNote = DecisionNote(approvalId: string, decision: Decision, patchHash: string,
                                       inputHash: string, targetVersionId: string)

  datatype Continuation = Continuation(
    approvalId: string, status: string, request: Option<WaitRequest>, state: Option<WaitState>,
    decision: Option<DecisionNote>)

  datatype StepFact = StepFact(id: string, runId: string, status: string, binding: map<string, string>,
                               continuation: Continuation, stepType: string, rejectedBy: Option<string>)

  datatype ResourceFact = ResourceFact(id: string, workspaceId: string)

  datatype PatchFact = PatchFact(id: string, resourceId: string, patchHash: string, targetVersionId: string)

  datatype MembershipFact = MembershipFact(role: string, status: string)

  datatype OutboxFact = OutboxFact(aggregateType: string, aggregateId: string, eventType: string,
                                   idempotencyKey: string, payload: map<string, string>)

  type Key = (string, string, string)

  /** What a transaction saves and restores. */
  datatype Store = Store(approvals: map<string, Approval>, keys: map<Key, string>, runs: map<string, RunFact>,
                         steps: map<string, StepFact>, outbox: seq<OutboxFact>)

  /** What no call changes. */
  datatype World = World(resources: map<string, ResourceFact>, patches: map<string, PatchFact>,
                         memberships: map<(string, string), MembershipFact>, failOutbox: bool)

  // ---- Checks ----

  const WAITING := "waiting_approval"

  predicate MayDecide(w: World, cmd: DecisionCommand) {
    && cmd.decidedBy.kind == "user"
    && (cmd.workspaceId, cmd.decidedBy.id) in w.memberships
    && var m := w.memberships[(cmd.workspaceId, cmd.decidedBy.id)];
       m.status == "active" && m.role in {"owner", "admin"}
  }

  predicate ScopeHolds(s: Store, w: World, b: ApprovalBinding) {
    && b.runId in s.runs && s.runs[b.runId].workspaceId == b.workspaceId
    && b.stepId in s.steps && s.steps[b.stepId].runId == b.runId
    && b.resourceId in w.resources && w.resources[b.resourceId].workspaceId == b.workspaceId
    && s.runs[b.runId].resourceId == b.resourceId
    && b.patchId in w.patches
    && w.patches[b.patchId] == PatchFact(w.patches[b.patchId].id, b.resourceId, b.patchHash, b.targetVersionId)
    && s.steps[b.stepId].binding == b.AsDict()
  }

  function KeyOf(b: ApprovalBinding): Key {
    (b.workspaceId, b.runId, b.idempotencyKey)
  }

  predicate SameCreate(a: Approval, cmd: CreateCommand) {
    && a.Binding() == cmd.binding
    && a.reason == cmd.reason
    && a.payload == cmd.payload[TARGET_VERSION := cmd.binding.targetVersionId]
    && a.requestedBy == cmd.requestedBy
    && a.requiredRole == cmd.requiredRole
  }

  // ---- Outbox ----

  const APPROVAL := "agent_tool_approval"

  function RequestedKey(id: string): string { "tool-approval-requested:" + id }

  function DecidedKey(id: string): string { "tool-approval-decided:" + id }

  function RequestedEvent(a: Approval): OutboxFact {
    OutboxFact(APPROVAL, a.approvalId, "agent.tool_approval.requested", RequestedKey(a.approvalId),
               map["approval_id" := a.approvalId, "run_id" := a.runId, "tool_name" := a.toolName])
  }

  function DecidedEvent(a: Approval, decision: Decision): OutboxFact {
    OutboxFact(APPROVAL, a.approvalId,
               if decision.Approve? then "agent.tool_approval.approved" else "agent.tool_approval.rejected",
               DecidedKey(a.approvalId),
               map["approval_id" := a.approvalId, "run_id" := a.runId, "tool_name" := a.toolName,
                   "status" := if decision.Approve? then "approved" else "rejected"])
  }

  predicate SameSlot(a: OutboxFact, b: OutboxFact) {
    a.aggregateType == b.aggregateType && a.aggregateId == b.aggregateId && a.idempotencyKey == b.idempotencyKey
  }

  /** The outbox after one more event: an equal event in the same slot is not repeated,
      a different one is a conflict. */
  function Enqueue(outbox: seq<OutboxFact>, event: OutboxFact, fail: bool): Result<seq<OutboxFact>> {
    if fail then Failed(OutboxFailed)
    else
      var k := FirstSlot(outbox, event);
      if k == |outbox| then Ok(outbox + [event])
      else if outbox[k] == event then Ok(outbox) else Failed(Conflict)
  }

  function FirstSlot(outbox: seq<OutboxFact>, event: OutboxFact): (k: nat)
    ensures k <= |outbox|
    ensures k < |outbox| ==> SameSlot(outbox[k], event)
    ensures forall i | 0 <= i < k :: !SameSlot(outbox[i], event)
  {
    if outbox == [] || SameSlot(outbox[0], event) then 0 else 1 + FirstSlot(outbox[1..], event)
  }

  // ---- Calls ----

  function NewApproval(cmd: CreateCommand, id: string, now: int): Approval {
    var b := cmd.binding;
    Approval(id, b.workspaceId, b.runId, b.stepId, b.resourceId, b.patchId, b.patchHash, b.toolName,
             b.toolVersion, b.inputHash, cmd.requestedBy, cmd.requiredRole, Pending, None, None, now, None,
             b.idempotencyKey, None, cmd.payload[TARGET_VERSION := b.targetVersionId], cmd.reason)
  }

  datatype Outcome = Outcome(store: Store, approval: Approval)

  /** Creating an approval under the identifier the factory offers. */
  function Create(s: Store, w: World, cmd: CreateCommand, id: string, now: int): Result<Outcome> {
    var key := KeyOf(cmd.binding);
    if cmd.requestedBy.kind !in {"user", "service"} || cmd.requestedBy.id == "" then Failed(Invalid)
    else if key in s.keys then
      if s.keys[key] !in s.approvals then Failed(NotFound)
      else
        var existing := s.approvals[s.keys[key]];
        if SameCreate(existing, cmd) then Ok(Outcome(s, existing)) else Failed(Conflict)
    else if !ScopeHolds(s, w, cmd.binding) then Failed(Invalid)
    else if id == "" || id in s.approvals then Failed(Conflict)
    else
      var a := NewApproval(cmd, id, now);
      var outbox :- Enqueue(s.outbox, RequestedEvent(a), w.failOutbox);
      Ok(Outcome(s.(approvals := s.approvals[id := a], keys := s.keys[key := id], outbox := outbox), a))
  }

  function ContinuationId(approvalId: string): string {
    "commit_patch:approval:" + approvalId
  }

  /** The continuation released by an approval; None when it is not this approval's. */
  function BuildContinuation(raw: Continuation, a: Approval, decision: Decision): Option<Continuation> {
    if raw.approvalId != a.approvalId || raw.status != "pending" || raw.request.None? || raw.state.None? then None
    else
      var request, state := raw.request.value, raw.state.value;
      if || request.operation != "await_approval"
         || request.approvalId != a.approvalId
         || request.targetKey != a.idempotencyKey
         || state.approvalId != a.approvalId
         || state.approvalStatus != "pending"
         || !state.patchValid
         || state.targetKey != a.idempotencyKey
      then None
      else Some(raw.(decision := Some(
        DecisionNote(a.approvalId, decision, a.patchHash, a.inputHash, a.Binding().targetVersionId))))
  }

  function CommitStep(a: Approval, continuation: Continuation): StepFact {
    StepFact(ContinuationId(a.approvalId), a.runId, "queued", a.Binding().AsDict(), continuation, "CommitPatch", None)
  }

  /** The record, steps and run after a decision that is allowed to happen. */
  function Settle(s: Store, a: Approval, cmd: DecisionCommand, now: int): Result<Outcome>
    requires a.stepId in s.steps && a.runId in s.runs
  {
    var step, run := s.steps[a.stepId], s.runs[a.runId];
    var decided := a.(status := StatusOf(cmd.decision), decisionReason := Some(cmd.reason),
                      decidedBy := Some(cmd.decidedBy),
                      decidedAt := Some(if cmd.decidedAt.Some? then cmd.decidedAt.value else now));
    if step.status != WAITING || run.status != WAITING then Failed(Conflict)
    else if cmd.decision.Reject? then
      Ok(Outcome(s.(steps := s.steps[step.id := step.(status := "failed", rejectedBy := Some(a.approvalId))],
                    runs := s.runs[run.id := run.(status := "failed", currentStep := None)],
                    approvals := s.approvals[a.approvalId := decided]), decided))
    else
      var continuation := BuildContinuation(step.continuation, a, cmd.decision);
      if continuation.None? then Failed(Conflict)
      else
        var id, expected := ContinuationId(a.approvalId), CommitStep(a, continuation.value);
        if id in s.steps && s.steps[id] != expected then Failed(Conflict)
        else
          var released := decided.(continuationStepId := Some(id));
          Ok(Outcome(s.(steps := s.steps[id := expected][step.id := step.(status := "succeeded")],
                        runs := s.runs[run.id := run.(status := "queued", currentStep := Some(id))],
                        approvals := s.approvals[a.approvalId := released]), released))
  }

  function Decide(s: Store, w: World, cmd: DecisionCommand, now: int): Result<Outcome> {
    if !MayDecide(w, cmd) then Failed(Denied)
    else if cmd.approvalId !in s.approvals || s.approvals[cmd.approvalId].workspaceId != cmd.workspaceId then
      Failed(NotFound)
    else
      var a := s.approvals[cmd.approvalId];
      if !a.status.Pending? then
        if a.status == StatusOf(cmd.decision) && a.decidedBy == Some(cmd.decidedBy)
           && a.decisionReason == Some(cmd.reason)
        then Ok(Outcome(s, a)) else Failed(Conflict)
      else if !ScopeHolds(s, w, a.Binding()) then Failed(Invalid)
      else
        var settled :- Settle(s, a, cmd, now);
        var outbox :- Enqueue(settled.store.outbox, DecidedEvent(a, cmd.decision), w.failOutbox);
        Ok(Outcome(settled.store.(outbox := outbox), settled.approval))
  }
}
