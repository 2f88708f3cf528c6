/** What every sequence of calls on the approval repository keeps. */
module ApprovalLaws {
  import opened Options
  import opened ApprovalFacts

  datatype Call = CreateCall(create: CreateCommand, id: string, now: int)
                | DecideCall(decide: DecisionCommand, now: int)

  function CallOutcome(s: Store, w: World, call: Call): Result<Outcome> {
    match call
    case CreateCall(cmd, id, now) => Create(s, w, cmd, id, now)
    case DecideCall(cmd, now) => Decide(s, w, cmd, now)
  }

  /** The store after a call: a failing call leaves it as it was. */
  function After(s: Store, w: World, call: Call): Store {
    var r := CallOutcome(s, w, call);
    if r.Ok? then r.value.store else s
  }

  function AfterAll(s: Store, w: World, calls: seq<Call>): Store {
    if calls == [] then s else After(AfterAll(s, w, calls[..|calls| - 1]), w, calls[|calls| - 1])
  }

  // ---- Invariants ----

  /** Facts are filed under their own identifiers. */
  predicate Filed(s: Store) {
    && (forall k | k in s.steps :: s.steps[k].id == k)
    && (forall k | k in s.runs :: s.runs[k].id == k)
    && (forall k | k in s.approvals :: s.approvals[k].approvalId == k)
  }

  /** Idempotency keys and approvals correspond one to one. */
  predicate KeysMatch(s: Store) {
    && (forall k | k in s.keys :: s.keys[k] in s.approvals && KeyOf(s.approvals[s.keys[k]].Binding()) == k)
    && (forall id | id in s.approvals ::
          KeyOf(s.approvals[id].Binding()) in s.keys && s.keys[KeyOf(s.approvals[id].Binding())] == id)
  }

  /** The approval events about one approval, in order. */
  function EventsOf(outbox: seq<OutboxFact>, id: string): seq<OutboxFact> {
    if outbox == [] then []
    else
      var k := |outbox| - 1;
      EventsOf(outbox[..k], id)
      + if outbox[k].aggregateType == APPROVAL && outbox[k].aggregateId == id then [outbox[k]] else []
  }

  function Announced(a: Approval): seq<OutboxFact> {
    [RequestedEvent(a)]
    + match a.status
      case Pending => []
      case Approved => [DecidedEvent(a, Approve)]
      case Rejected => [DecidedEvent(a, Reject)]
  }

  /** Each approval was announced once, and its decision once, if it has one. */
  ghost predicate EventsMatch(s: Store) {
    forall id :: EventsOf(s.outbox, id) == if id in s.approvals then Announced(s.approvals[id]) else []
  }

  /** A decided approval's run has left the waiting state for good. */
  predicate RunsSettled(s: Store) {
    && (forall id | id in s.approvals && !s.approvals[id].status.Pending? ::
          s.approvals[id].runId in s.runs && s.runs[s.approvals[id].runId].status != WAITING)
    && (forall a, b | a in s.approvals && b in s.approvals && a != b
                      && !s.approvals[a].status.Pending? && !s.approvals[b].status.Pending? ::
          s.approvals[a].runId != s.approvals[b].runId)
  }

  predicate Released(s: Store, a: Approval) {
    && a.continuationStepId == Some(ContinuationId(a.approvalId))
    && ContinuationId(a.approvalId) in s.steps
    && var step := s.steps[ContinuationId(a.approvalId)];
       && step == CommitStep(a, step.continuation)
       && step.continuation.decision
          == Some(DecisionNote(a.approvalId, Approve, a.patchHash, a.inputHash, a.Binding().targetVersionId))
  }

  /** Each approved approval has its queued commit step, carrying its binding; no other
      approval has one recorded. */
  predicate CommitsReleased(s: Store) {
    forall id | id in s.approvals ::
      if s.approvals[id].status.Approved? then Released(s, s.approvals[id])
      else s.approvals[id].continuationStepId.None?
  }

  /** Decisions were made by active owners and administrators of the workspace. */
  predicate DecidersAuthorised(s: Store, w: World) {
    forall id | id in s.approvals && !s.approvals[id].status.Pending? ::
      var a := s.approvals[id];
      && a.decidedBy.Some? && a.decidedBy.value.kind == "user"
      && (a.workspaceId, a.decidedBy.value.id) in w.memberships
      && w.memberships[(a.workspaceId, a.decidedBy.value.id)].status == "active"
      && w.memberships[(a.workspaceId, a.decidedBy.value.id)].role in {"owner", "admin"}
  }

  predicate Consistent(s: Store, w: World) {
    && Filed(s) && KeysMatch(s) && RunsSettled(s) && CommitsReleased(s) && DecidersAuthorised(s, w)
  }

  /** A repository before its first approval. */
  predicate Fresh(s: Store) {
    && s.approvals == map[] && s.keys == map[]
    && Filed(s)
    && forall i | 0 <= i < |s.outbox| :: s.outbox[i].aggregateType != APPROVAL
  }

  // ---- Outbox ----

  lemma {:induction false} EventsOfAppend(outbox: seq<OutboxFact>, event: OutboxFact, id: string)
    ensures EventsOf(outbox + [event], id)
         == EventsOf(outbox, id) + if event.aggregateType == APPROVAL && event.aggregateId == id then [event] else []
  {
    assert (outbox + [event])[..|outbox|] == outbox;
  }

  lemma {:induction false} EventIsListed(outbox: seq<OutboxFact>, i: nat)
    requires i < |outbox| && outbox[i].aggregateType == APPROVAL
    ensures outbox[i] in EventsOf(outbox, outbox[i].aggregateId)
  {
    var k := |outbox| - 1;
    if i < k {
      EventIsListed(outbox[..k], i);
    }
  }

  lemma {:induction false} RequestedIsNotDecided(id: string)
    ensures RequestedKey(id) != DecidedKey(id)
  {
    assert RequestedKey(id)[14] == 'r' && DecidedKey(id)[14] == 'd';
  }

  /** A new kind of event about an approval is always appended. */
  lemma {:induction false} EnqueueAppends(outbox: seq<OutboxFact>, event: OutboxFact)
    requires event.aggregateType == APPROVAL
    requires forall e | e in EventsOf(outbox, event.aggregateId) :: e.idempotencyKey != event.idempotencyKey
    ensures Enqueue(outbox, event, false) == Ok(outbox + [event])
  {
    var k := FirstSlot(outbox, event);
    if k < |outbox| {
      EventIsListed(outbox, k);
    }
  }

  // ---- Creation ----

  /** One pending approval was added under a new identifier and a new key. */
  predicate Added(s: Store, next: Store, a: Approval) {
    && a.approvalId !in s.approvals && KeyOf(a.Binding()) !in s.keys
    && a.status.Pending? && a.continuationStepId.None?
    && next.approvals == s.approvals[a.approvalId := a]
    && next.keys == s.keys[KeyOf(a.Binding()) := a.approvalId]
    && next.runs == s.runs && next.steps == s.steps
  }

  lemma {:induction false} CreateAdds(s: Store, w: World, cmd: CreateCommand, id: string, now: int)
    requires Create(s, w, cmd, id, now).Ok?
    ensures var next := Create(s, w, cmd, id, now).value.store;
      next == s || (Added(s, next, NewApproval(cmd, id, now)) && !w.failOutbox
                    && Enqueue(s.outbox, RequestedEvent(NewApproval(cmd, id, now)), false) == Ok(next.outbox))
  {
    var a := NewApproval(cmd, id, now);
    assert a.Binding() == cmd.binding;
  }

  lemma {:induction false} AddedKeepsKeys(s: Store, next: Store, a: Approval)
    requires KeysMatch(s) && Added(s, next, a)
    ensures KeysMatch(next)
  {
  }

  lemma {:induction false} AddedKeepsRecords(s: Store, w: World, next: Store, a: Approval)
    requires Filed(s) && RunsSettled(s) && DecidersAuthorised(s, w) && Added(s, next, a)
    ensures Filed(next) && RunsSettled(next) && DecidersAuthorised(next, w)
  {
  }

  lemma {:induction false} AddedKeepsCommits(s: Store, next: Store, a: Approval)
    requires CommitsReleased(s) && Added(s, next, a)
    ensures CommitsReleased(next)
  {
    forall id | id in next.approvals
      ensures if next.approvals[id].status.Approved? then Released(next, next.approvals[id])
              else next.approvals[id].continuationStepId.None?
    {
      assert id != a.approvalId ==> id in s.approvals;
    }
  }

  lemma {:induction false} AddedKeepsEvents(s: Store, next: Store, a: Approval)
    requires EventsMatch(s) && Added(s, next, a)
    requires Enqueue(s.outbox, RequestedEvent(a), false) == Ok(next.outbox)
    ensures EventsMatch(next)
  {
    assert EventsOf(s.outbox, a.approvalId) == [];
    EnqueueAppends(s.outbox, RequestedEvent(a));
    forall other
      ensures EventsOf(next.outbox, other) == if other in next.approvals then Announced(next.approvals[other]) else []
    {
      EventsOfAppend(s.outbox, RequestedEvent(a), other);
    }
  }

  lemma {:induction false} CreateKeepsConsistent(s: Store, w: World, cmd: CreateCommand, id: string, now: int)
    requires Consistent(s, w) && EventsMatch(s) && Create(s, w, cmd, id, now).Ok?
    ensures var next := Create(s, w, cmd, id, now).value.store; Consistent(next, w) && EventsMatch(next)
  {
    var next, a := Create(s, w, cmd, id, now).value.store, NewApproval(cmd, id, now);
    CreateAdds(s, w, cmd, id, now);
    if next != s {
      AddedKeepsKeys(s, next, a);
      AddedKeepsRecords(s, w, next, a);
      AddedKeepsCommits(s, next, a);
      AddedKeepsEvents(s, next, a);
    }
  }

  // ---- Decision ----

  /** One pending approval was decided, its step and run left the waiting state, and an
      approval released its commit step. */
  predicate Settled(s: Store, next: Store, a: Approval, d: Approval, decision: Decision) {
    && a.approvalId in s.approvals && s.approvals[a.approvalId] == a && a.status.Pending?
    && a.stepId in s.steps && a.runId in s.runs
    && s.steps[a.stepId].status == WAITING && s.runs[a.runId].status == WAITING
    && d == a.(status := StatusOf(decision), decisionReason := d.decisionReason, decidedBy := d.decidedBy,
               decidedAt := d.decidedAt, continuationStepId := d.continuationStepId)
    && next.approvals == s.approvals[a.approvalId := d] && next.keys == s.keys
    && a.stepId in next.steps && a.runId in next.runs
    && next.runs == s.runs[a.runId := next.runs[a.runId]]
    && next.runs[a.runId].id == s.runs[a.runId].id && next.runs[a.runId].status != WAITING
    && next.steps[a.stepId].id == s.steps[a.stepId].id
    && if decision.Reject? then
         && d.continuationStepId.None?
         && next.steps == s.steps[a.stepId := next.steps[a.stepId]]
       else
         && Released(next, d)
         && (ContinuationId(a.approvalId) in s.steps ==> s.steps[ContinuationId(a.approvalId)].status != WAITING)
         && next.steps == s.steps[ContinuationId(a.approvalId) := next.steps[ContinuationId(a.approvalId)]]
                                 [a.stepId := next.steps[a.stepId]]
  }

  lemma {:induction false} SettleSettles(s: Store, a: Approval, cmd: DecisionCommand, now: int)
    requires Filed(s) && a.stepId in s.steps && a.runId in s.runs
    requires a.approvalId in s.approvals && s.approvals[a.approvalId] == a && a.status.Pending?
    requires a.continuationStepId.None?
    requires Settle(s, a, cmd, now).Ok?
    ensures var r := Settle(s, a, cmd, now).value;
      && Settled(s, r.store, a, r.approval, cmd.decision)
      && r.store.outbox == s.outbox && r.approval.decidedBy == Some(cmd.decidedBy)
  {
  }

  lemma {:induction false} SettledKeepsFiling(s: Store, next: Store, a: Approval, d: Approval, decision: Decision)
    requires Filed(s) && KeysMatch(s) && Settled(s, next, a, d, decision)
    ensures Filed(next) && KeysMatch(next)
  {
    assert KeyOf(d.Binding()) == KeyOf(a.Binding());
  }

  lemma {:induction false} SettledKeepsRuns(s: Store, next: Store, a: Approval, d: Approval, decision: Decision)
    requires RunsSettled(s) && Settled(s, next, a, d, decision)
    ensures RunsSettled(next)
  {
  }

  lemma {:induction false} ContinuationsDiffer(a: string, b: string)
    requires ContinuationId(a) == ContinuationId(b)
    ensures a == b
  {
    var n := |"commit_patch:approval:"|;
    assert ContinuationId(a)[n..] == a && ContinuationId(b)[n..] == b;
  }

  /** A step that waits is no commit step, so settling it touches none. */
  lemma {:induction false} SettledKeepsCommits(s: Store, next: Store, a: Approval, d: Approval, decision: Decision)
    requires CommitsReleased(s) && Filed(s) && Settled(s, next, a, d, decision)
    ensures CommitsReleased(next)
  {
    forall id | id in next.approvals
      ensures if next.approvals[id].status.Approved? then Released(next, next.approvals[id])
              else next.approvals[id].continuationStepId.None?
    {
      if id != a.approvalId {
        var other := s.approvals[id];
        assert next.approvals[id] == other;
        if other.status.Approved? {
          if ContinuationId(other.approvalId) == ContinuationId(a.approvalId) {
            ContinuationsDiffer(other.approvalId, a.approvalId);
          }
          assert s.steps[ContinuationId(other.approvalId)].status == "queued";
        }
      }
    }
  }

  lemma {:induction false} SettledKeepsDeciders(s: Store, w: World, next: Store, a: Approval, d: Approval, cmd: DecisionCommand)
    requires DecidersAuthorised(s, w) && Settled(s, next, a, d, cmd.decision)
    requires MayDecide(w, cmd) && cmd.workspaceId == a.workspaceId && d.decidedBy == Some(cmd.decidedBy)
    ensures DecidersAuthorised(next, w)
  {
  }

  lemma {:induction false} SettledKeepsEvents(s: Store, next: Store, a: Approval, d: Approval, decision: Decision)
    requires EventsMatch(s) && Filed(s) && Settled(s, s.(approvals := next.approvals, runs := next.runs, steps := next.steps), a, d, decision)
    requires Enqueue(s.outbox, DecidedEvent(a, decision), false) == Ok(next.outbox)
    ensures EventsMatch(next)
  {
    assert EventsOf(s.outbox, a.approvalId) == [RequestedEvent(a)];
    RequestedIsNotDecided(a.approvalId);
    EnqueueAppends(s.outbox, DecidedEvent(a, decision));
    assert Announced(d) == [RequestedEvent(a)] + [DecidedEvent(a, decision)];
    forall other
      ensures EventsOf(next.outbox, other) == if other in next.approvals then Announced(next.approvals[other]) else []
    {
      EventsOfAppend(s.outbox, DecidedEvent(a, decision), other);
    }
  }

  /** The cases of a successful decision. */
  lemma {:induction false} DecideSettles(s: Store, w: World, cmd: DecisionCommand, now: int)
    requires Consistent(s, w) && Decide(s, w, cmd, now).Ok?
    ensures var r := Decide(s, w, cmd, now).value;
      && MayDecide(w, cmd)
      && cmd.approvalId in s.approvals && s.approvals[cmd.approvalId].workspaceId == cmd.workspaceId
      && var a := s.approvals[cmd.approvalId];
         if !a.status.Pending? then r.store == s && r.approval == a
         else
           && Settled(s, r.store, a, r.approval, cmd.decision)
           && r.approval.decidedBy == Some(cmd.decidedBy) && r.approval.decisionReason == Some(cmd.reason)
           && Settled(s, r.store.(outbox := s.outbox), a, r.approval, cmd.decision)
           && Enqueue(s.outbox, DecidedEvent(a, cmd.decision), false) == Ok(r.store.outbox)
  {
    var a := s.approvals[cmd.approvalId];
    if a.status.Pending? {
      assert a.continuationStepId.None?;
      SettleSettles(s, a, cmd, now);
    }
  }

  lemma {:induction false} DecideKeepsConsistent(s: Store, w: World, cmd: DecisionCommand, now: int)
    requires Consistent(s, w) && EventsMatch(s) && Decide(s, w, cmd, now).Ok?
    ensures var next := Decide(s, w, cmd, now).value.store; Consistent(next, w) && EventsMatch(next)
  {
    DecideSettles(s, w, cmd, now);
    var r := Decide(s, w, cmd, now).value;
    var a := s.approvals[cmd.approvalId];
    if a.status.Pending? {
      SettledKeepsFiling(s, r.store, a, r.approval, cmd.decision);
      SettledKeepsRuns(s, r.store, a, r.approval, cmd.decision);
      SettledKeepsCommits(s, r.store, a, r.approval, cmd.decision);
      SettledKeepsDeciders(s, w, r.store, a, r.approval, cmd);
      SettledKeepsEvents(s, r.store, a, r.approval, cmd.decision);
    }
  }

  // ---- Runs of calls ----

  lemma {:induction false} FreshIsConsistent(s: Store, w: World)
    requires Fresh(s)
    ensures Consistent(s, w) && EventsMatch(s)
  {
    forall id
      ensures EventsOf(s.outbox, id) == []
    {
      NoApprovalEvents(s.outbox, id);
    }
  }

  lemma {:induction false} NoApprovalEvents(outbox: seq<OutboxFact>, id: string)
    requires forall i | 0 <= i < |outbox| :: outbox[i].aggregateType != APPROVAL
    ensures EventsOf(outbox, id) == []
  {
    if outbox != [] {
      NoApprovalEvents(outbox[..|outbox| - 1], id);
    }
  }

  lemma {:induction false} CallKeepsConsistent(s: Store, w: World, call: Call)
    requires Consistent(s, w) && EventsMatch(s)
    ensures Consistent(After(s, w, call), w) && EventsMatch(After(s, w, call))
  {
    match call
    case CreateCall(cmd, id, now) =>
      if Create(s, w, cmd, id, now).Ok? {
        CreateKeepsConsistent(s, w, cmd, id, now);
      }
    case DecideCall(cmd, now) =>
      if Decide(s, w, cmd, now).Ok? {
        DecideKeepsConsistent(s, w, cmd, now);
      }
  }

  /** Whatever calls are made, in whatever order, failing or not: keys and approvals stay
      in bijection, every approval was announced exactly once and its decision exactly
      once, a run sees at most one decision, made by someone allowed to make it, and every
      approved approval has its one queued commit step. */
  lemma {:induction false} RepositoryLaws(s: Store, w: World, calls: seq<Call>)
    requires Fresh(s)
    ensures Consistent(AfterAll(s, w, calls), w) && EventsMatch(AfterAll(s, w, calls))
    decreases |calls|
  {
    if calls == [] {
      FreshIsConsistent(s, w);
    } else {
      var k := |calls| - 1;
      var before := AfterAll(s, w, calls[..k]);
      RepositoryLaws(s, w, calls[..k]);
      CallKeepsConsistent(before, w, calls[k]);
    }
  }

  /** Records of the same request: they differ at most in what a decision writes. */
  predicate SameRequest(a: Approval, b: Approval) {
    b == a.(status := b.status, decisionReason := b.decisionReason, decidedBy := b.decidedBy,
            decidedAt := b.decidedAt, continuationStepId := b.continuationStepId)
  }

  lemma {:induction false} DecisionPersists(s: Store, w: World, cmd: DecisionCommand, now: int, id: string)
    requires Consistent(s, w) && id in s.approvals && Decide(s, w, cmd, now).Ok?
    ensures var next := Decide(s, w, cmd, now).value.store;
      && id in next.approvals
      && SameRequest(s.approvals[id], next.approvals[id])
      && (!s.approvals[id].status.Pending? ==> next.approvals[id] == s.approvals[id])
  {
    DecideSettles(s, w, cmd, now);
  }

  /** An approval never disappears, stays the request it was, and once decided never changes. */
  lemma {:induction false} RecordsPersist(s: Store, w: World, call: Call, id: string)
    requires Consistent(s, w) && id in s.approvals
    ensures var next := After(s, w, call);
      && id in next.approvals
      && SameRequest(s.approvals[id], next.approvals[id])
      && (!s.approvals[id].status.Pending? ==> next.approvals[id] == s.approvals[id])
  {
    match call
    case CreateCall(cmd, offered, now) =>
      if Create(s, w, cmd, offered, now).Ok? {
        CreateAdds(s, w, cmd, offered, now);
      }
    case DecideCall(cmd, now) =>
      if Decide(s, w, cmd, now).Ok? {
        DecisionPersists(s, w, cmd, now, id);
      }
  }

  /** No later calls remove an approval, alter its request or change its decision. */
  lemma {:induction false} RecordsAreFinal(s: Store, w: World, later: seq<Call>, id: string)
    requires Consistent(s, w) && EventsMatch(s) && id in s.approvals
    ensures var end := AfterAll(s, w, later);
      && Consistent(end, w) && EventsMatch(end)
      && id in end.approvals && SameRequest(s.approvals[id], end.approvals[id])
      && (!s.approvals[id].status.Pending? ==> end.approvals[id] == s.approvals[id])
    decreases |later|
  {
    if later != [] {
      var k := |later| - 1;
      RecordsAreFinal(s, w, later[..k], id);
      CallKeepsConsistent(AfterAll(s, w, later[..k]), w, later[k]);
      RecordsPersist(AfterAll(s, w, later[..k]), w, later[k], id);
    }
  }

  // ---- Replays ----

  lemma {:induction false} CreateFiles(s: Store, w: World, cmd: CreateCommand, id: string, now: int)
    requires Consistent(s, w) && Create(s, w, cmd, id, now).Ok?
    ensures var r := Create(s, w, cmd, id, now).value;
      && r.approval.approvalId in r.store.approvals && r.store.approvals[r.approval.approvalId] == r.approval
      && SameCreate(r.approval, cmd) && cmd.requestedBy.kind in {"user", "service"} && cmd.requestedBy.id != ""
  {
    var a := NewApproval(cmd, id, now);
    assert a.Binding() == cmd.binding;
  }

  /** Whatever happens after a create, repeating it gives the same approval, as it has
      become by then, and changes nothing. */
  lemma {:induction false} CreateReplays(s: Store, w: World, cmd: CreateCommand, id: string, now: int,
                                         later: seq<Call>, id': string, now': int)
    requires Consistent(s, w) && EventsMatch(s) && Create(s, w, cmd, id, now).Ok?
    ensures var r := Create(s, w, cmd, id, now).value;
      var end := AfterAll(r.store, w, later);
      && r.approval.approvalId in end.approvals
      && SameRequest(r.approval, end.approvals[r.approval.approvalId])
      && Create(end, w, cmd, id', now') == Ok(Outcome(end, end.approvals[r.approval.approvalId]))
  {
    var r := Create(s, w, cmd, id, now).value;
    CreateFiles(s, w, cmd, id, now);
    CreateKeepsConsistent(s, w, cmd, id, now);
    RecordsAreFinal(r.store, w, later, r.approval.approvalId);
    var end := AfterAll(r.store, w, later);
    assert end.approvals[r.approval.approvalId].Binding() == r.approval.Binding();
  }

  function Opposite(decision: Decision): Decision {
    if decision.Approve? then Reject else Approve
  }

  /** The record of a decision that was taken. */
  predicate Records(s: Store, cmd: DecisionCommand, a: Approval) {
    && cmd.approvalId in s.approvals && s.approvals[cmd.approvalId] == a
    && a.workspaceId == cmd.workspaceId
    && a.status == StatusOf(cmd.decision)
    && a.decidedBy == Some(cmd.decidedBy) && a.decisionReason == Some(cmd.reason)
  }

  lemma {:induction false} DecideRecords(s: Store, w: World, cmd: DecisionCommand, now: int)
    requires Consistent(s, w) && Decide(s, w, cmd, now).Ok?
    ensures var r := Decide(s, w, cmd, now).value;
      MayDecide(w, cmd) && Records(r.store, cmd, r.approval)
  {
    DecideSettles(s, w, cmd, now);
  }

  lemma {:induction false} RecordedReplays(s: Store, w: World, cmd: DecisionCommand, a: Approval, now: int)
    requires MayDecide(w, cmd) && Records(s, cmd, a)
    ensures Decide(s, w, cmd, now) == Ok(Outcome(s, a))
    ensures Decide(s, w, cmd.(decision := Opposite(cmd.decision)), now) == Failed(Conflict)
  {
  }

  /** Whatever happens after a decision, repeating it gives the same record and changes
      nothing, and the opposite decision is a conflict. */
  lemma {:induction false} DecideReplays(s: Store, w: World, cmd: DecisionCommand, now: int, later: seq<Call>, now': int)
    requires Consistent(s, w) && EventsMatch(s) && Decide(s, w, cmd, now).Ok?
    ensures var r := Decide(s, w, cmd, now).value;
      var end := AfterAll(r.store, w, later);
      && Decide(end, w, cmd, now') == Ok(Outcome(end, r.approval))
      && Decide(end, w, cmd.(decision := Opposite(cmd.decision)), now') == Failed(Conflict)
  {
    var r := Decide(s, w, cmd, now).value;
    DecideRecords(s, w, cmd, now);
    CallKeepsConsistent(s, w, DecideCall(cmd, now));
    RecordsAreFinal(r.store, w, later, cmd.approvalId);
    RecordedReplays(AfterAll(r.store, w, later), w, cmd, r.approval, now');
  }
}
