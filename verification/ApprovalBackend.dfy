/** The approval repository with its snapshot transactions, and the calls made on it. */
module ApprovalBackend {
  import opened Options
  import opened ApprovalFacts

  class Repository {
    var approvals: map<string, Approval>
    var keys: map<Key, string>
    var runs: map<string, RunFact>
    var steps: map<string, StepFact>
    var outbox: seq<OutboxFact>
    var resources: map<string, ResourceFact>
    var patches: map<string, PatchFact>
    var memberships: map<(string, string), MembershipFact>
    const failOutbox: bool

    constructor (failOutbox: bool)
      ensures Snapshot() == Store(map[], map[], map[], map[], [])
      ensures Facts() == World(map[], map[], map[], failOutbox)
    {
      approvals, keys, runs, steps, outbox := map[], map[], map[], map[], [];
      resources, patches, memberships := map[], map[], map[];
      this.failOutbox := failOutbox;
    }

    function Snapshot(): Store
      reads this
    {
      Store(approvals, keys, runs, steps, outbox)
    }

    function Facts(): World
      reads this
    {
      World(resources, patches, memberships, failOutbox)
    }

    /** Back to the state saved when the transaction began. */
    method Restore(saved: Store)
      modifies `approvals, `keys, `runs, `steps, `outbox
      ensures Snapshot() == saved
    {
      approvals, keys, runs, steps, outbox := saved.approvals, saved.keys, saved.runs, saved.steps, saved.outbox;
    }

    method EnqueueOutbox(event: OutboxFact) returns (r: Result<()>)
      modifies `outbox
      ensures var spec := Enqueue(old(outbox), event, failOutbox);
        if spec.Ok? then r == Ok(()) && outbox == spec.value else r == Failed(spec.error) && outbox == old(outbox)
    {
      if failOutbox {
        return Failed(OutboxFailed);
      }
      var k := 0;
      while k < |outbox| && !SameSlot(outbox[k], event)
        invariant 0 <= k <= |outbox|
        invariant forall i | 0 <= i < k :: !SameSlot(outbox[i], event)
      {
        k := k + 1;
      }
      ghost var first := FirstSlot(outbox, event);
      assert k == first;
      if k < |outbox| {
        return if outbox[k] == event then Ok(()) else Failed(Conflict);
      }
      outbox := outbox + [event];
      r := Ok(());
    }

    /** The body of create: it writes as it goes, and may fail half way. */
    method CreateInTransaction(cmd: CreateCommand, id: string, now: int) returns (r: Result<Approval>)
      modifies `approvals, `keys, `outbox
      ensures var spec := Create(old(Snapshot()), old(Facts()), cmd, id, now);
        if spec.Ok? then r == Ok(spec.value.approval) && Snapshot() == spec.value.store
        else r == Failed(spec.error)
    {
      if cmd.requestedBy.kind !in {"user", "service"} || cmd.requestedBy.id == "" {
        return Failed(Invalid);
      }
      var key := KeyOf(cmd.binding);
      if key in keys {
        if keys[key] !in approvals {
          return Failed(NotFound);
        }
        var existing := approvals[keys[key]];
        return if SameCreate(existing, cmd) then Ok(existing) else Failed(Conflict);
      }
      if !ScopeHolds(Snapshot(), Facts(), cmd.binding) {
        return Failed(Invalid);
      }
      if id == "" || id in approvals {
        return Failed(Conflict);
      }
      var value := NewApproval(cmd, id, now);
      approvals := approvals[id := value];
      keys := keys[key := id];
      var queued := EnqueueOutbox(RequestedEvent(value));
      r := if queued.Ok? then Ok(value) else Failed(queued.error);
    }

    method CreateApproval(cmd: CreateCommand, id: string, now: int) returns (r: Result<Approval>)
      modifies `approvals, `keys, `runs, `steps, `outbox
      ensures var spec := Create(old(Snapshot()), old(Facts()), cmd, id, now);
        if spec.Ok? then r == Ok(spec.value.approval) && Snapshot() == spec.value.store
        else r == Failed(spec.error) && Snapshot() == old(Snapshot())
    {
      var saved := Snapshot();
      r := CreateInTransaction(cmd, id, now);
      if r.Failed? {
        Restore(saved);
      }
    }

    /** Steps, run and record after a decision that is allowed to happen. */
    method SettleApproval(value: Approval, cmd: DecisionCommand, now: int) returns (r: Result<Approval>)
      requires value.stepId in steps && value.runId in runs
      modifies `approvals, `runs, `steps
      ensures var spec := Settle(old(Snapshot()), value, cmd, now);
        if spec.Ok? then r == Ok(spec.value.approval) && Snapshot() == spec.value.store
        else r == Failed(spec.error)
    {
      var decided := value.(status := StatusOf(cmd.decision), decisionReason := Some(cmd.reason),
                            decidedBy := Some(cmd.decidedBy),
                            decidedAt := Some(if cmd.decidedAt.Some? then cmd.decidedAt.value else now));
      var step, run := steps[value.stepId], runs[value.runId];
      if step.status != WAITING || run.status != WAITING {
        return Failed(Conflict);
      }
      if cmd.decision.Reject? {
        steps := steps[step.id := step.(status := "failed", rejectedBy := Some(value.approvalId))];
        runs := runs[run.id := run.(status := "failed", currentStep := None)];
      } else {
        var continuationId := ContinuationId(value.approvalId);
        var continuation := BuildContinuation(step.continuation, value, cmd.decision);
        if continuation.None? {
          return Failed(Conflict);
        }
        var expected := CommitStep(value, continuation.value);
        if continuationId in steps && steps[continuationId] != expected {
          return Failed(Conflict);
        }
        steps := steps[continuationId := expected];
        steps := steps[step.id := step.(status := "succeeded")];
        runs := runs[run.id := run.(status := "queued", currentStep := Some(continuationId))];
        decided := decided.(continuationStepId := Some(continuationId));
      }
      approvals := approvals[value.approvalId := decided];
      r := Ok(decided);
    }

    /** The body of a decision: steps, run and record are written before the event. */
    method DecideInTransaction(cmd: DecisionCommand, now: int) returns (r: Result<Approval>)
      modifies `approvals, `runs, `steps, `outbox
      ensures var spec := Decide(old(Snapshot()), old(Facts()), cmd, now);
        if spec.Ok? then r == Ok(spec.value.approval) && Snapshot() == spec.value.store
        else r == Failed(spec.error)
    {
      if !MayDecide(Facts(), cmd) {
        return Failed(Denied);
      }
      if cmd.approvalId !in approvals || approvals[cmd.approvalId].workspaceId != cmd.workspaceId {
        return Failed(NotFound);
      }
      var value := approvals[cmd.approvalId];
      if !value.status.Pending? {
        return if value.status == StatusOf(cmd.decision) && value.decidedBy == Some(cmd.decidedBy)
                  && value.decisionReason == Some(cmd.reason)
               then Ok(value) else Failed(Conflict);
      }
      if !ScopeHolds(Snapshot(), Facts(), value.Binding()) {
        return Failed(Invalid);
      }
      var settled := SettleApproval(value, cmd, now);
      if settled.Failed? {
        return settled;
      }
      var queued := EnqueueOutbox(DecidedEvent(value, cmd.decision));
      r := if queued.Ok? then settled else Failed(queued.error);
    }

    method DecideApproval(cmd: DecisionCommand, now: int) returns (r: Result<Approval>)
      modifies `approvals, `keys, `runs, `steps, `outbox
      ensures var spec := Decide(old(Snapshot()), old(Facts()), cmd, now);
        if spec.Ok? then r == Ok(spec.value.approval) && Snapshot() == spec.value.store
        else r == Failed(spec.error) && Snapshot() == old(Snapshot())
    {
      var saved := Snapshot();
      r := DecideInTransaction(cmd, now);
      if r.Failed? {
        Restore(saved);
      }
    }
  }
}
