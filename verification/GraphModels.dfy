/** The facts the agent graph carries from node to node. */
module GraphModels {
  import opened Digests
  import opened Options
  import opened TextLines

  // ---- Texts the schema accepts ----

  const MAX_IDENTIFIER := 200

  /** Surrounding blanks are stripped before anything is checked, so values have none. */
  predicate Text(s: string, most: nat) {
    0 < |s| <= most && !Blank(s[0]) && !Blank(s[|s| - 1])
  }

  predicate Identifier(s: string) {
    Text(s, MAX_IDENTIFIER)
  }

  // ---- Facts ----

  datatype NodeName =
    | UnderstandGoal | AssembleContext | DecideNextAction | RetrieveEvidence | ReadDocumentNodes
    | AnalyzeEvidence | GeneratePatch | ValidatePatch | RequestApproval | AwaitApproval
    | CommitPatch | RenderOutcome | AwaitUserInput | End
  {
    function Name(): string {
      match this
      case UnderstandGoal => "UnderstandGoal"
      case AssembleContext => "AssembleContext"
      case DecideNextAction => "DecideNextAction"
      case RetrieveEvidence => "RetrieveEvidence"
      case ReadDocumentNodes => "ReadDocumentNodes"
      case AnalyzeEvidence => "AnalyzeEvidence"
      case GeneratePatch => "GeneratePatch"
      case ValidatePatch => "ValidatePatch"
      case RequestApproval => "RequestApproval"
      case AwaitApproval => "AwaitApproval"
      case CommitPatch => "CommitPatch"
      case RenderOutcome => "RenderOutcome"
      case AwaitUserInput => "AwaitUserInput"
      case End => "End"
    }
  }

  datatype ActionKind =
    | DoRetrieve | DoRead | DoAnalyze | DoGenerate | AskUser | DoApproval | Finish

  datatype Goal = Goal(objective: string, constraints: seq<string>, expectedOutput: string)
  {
    predicate WellFormed() {
      && Text(objective, 2_000) && Text(expectedOutput, 1_000)
      && |constraints| <= 32 && forall i | 0 <= i < |constraints| :: |constraints[i]| <= 500
    }
  }

  datatype Decision = Decision(action: ActionKind, reason: string, toolName: string,
                               toolInput: map<string, string>, expectedObservation: string)
  {
    predicate WellFormed() {
      Text(reason, 2_000) && (toolName == "" || Text(toolName, 120)) && Text(expectedObservation, 1_000)
    }
  }

  datatype Action = Action(kind: ActionKind, nextNode: NodeName, toolName: string, toolVersion: string,
                           toolInput: map<string, string>, waitsForInput: bool)

  datatype Observation = Observation(id: string, factId: string, contentHash: string, novel: bool)
  {
    predicate WellFormed() {
      Identifier(id) && Identifier(factId) && IsHash(contentHash)
    }
  }

  datatype FindingRef = FindingRef(findingId: string, factId: string, contentHash: string)
  {
    predicate WellFormed() {
      Identifier(findingId) && Identifier(factId) && IsHash(contentHash)
    }
  }

  datatype PatchRef = PatchRef(artifactId: string, factId: string, contentHash: string, resourceId: string,
                               baseVersionId: string, generated: bool, valid: bool, targetKey: Option<string>)
  {
    predicate WellFormed() {
      && Identifier(artifactId) && Identifier(factId) && IsHash(contentHash)
      && Identifier(resourceId) && Identifier(baseVersionId) && (targetKey.Some? ==> Identifier(targetKey.value))
    }
  }

  datatype ApprovalStatus = Pending | Approved | Rejected

  datatype ApprovalRef = ApprovalRef(approvalId: string, factId: string, status: ApprovalStatus)
  {
    predicate WellFormed() {
      Identifier(approvalId) && Identifier(factId)
    }
  }

  datatype CommitRef = CommitRef(factId: string, resourceId: string, versionId: string, outboxId: string)
  {
    predicate WellFormed() {
      Identifier(factId) && Identifier(resourceId) && Identifier(versionId) && Identifier(outboxId)
    }
  }

  datatype OutcomeRef = OutcomeRef(factId: string, artifactId: string, contentHash: string)
  {
    predicate WellFormed() {
      Identifier(factId) && Identifier(artifactId) && IsHash(contentHash)
    }
  }

  const MAX_REASON := 120

  datatype Budget = Budget(factId: string, stepsRemaining: nat, toolCallsRemaining: nat,
                           tokensRemaining: Option<nat>, costRemaining: Option<real>,
                           deadlineExceeded: bool, exhaustedReason: Option<string>)
  {
    predicate WellFormed() {
      && Identifier(factId) && (costRemaining.Some? ==> costRemaining.value >= 0.0)
      && (exhaustedReason.Some? ==> |exhaustedReason.value| <= MAX_REASON)
    }

    predicate Exhausted() {
      || deadlineExceeded
      || stepsRemaining == 0
      || toolCallsRemaining == 0
      || tokensRemaining == Some(0)
      || costRemaining == Some(0.0)
      || exhaustedReason.Some?
    }
  }

  datatype State = State(
    runId: string, requestFactId: string, node: NodeName,
    goal: Option<Goal>, manifest: Option<string>,
    observations: seq<Observation>, findings: seq<FindingRef>,
    patch: Option<PatchRef>, decision: Option<Decision>, action: Option<Action>,
    approval: Option<ApprovalRef>, commit: Option<CommitRef>, outcome: Option<OutcomeRef>,
    budget: Budget, noProgress: nat, cycles: nat, stopReason: Option<string>, sequence: nat)
  {
    /** What the schema asks of the facts in the state. */
    predicate Shaped() {
      && Identifier(runId) && Identifier(requestFactId) && (manifest.Some? ==> Identifier(manifest.value))
      && (goal.Some? ==> goal.value.WellFormed()) && |findings| <= 100
      && (patch.Some? ==> patch.value.WellFormed()) && (approval.Some? ==> approval.value.WellFormed())
      && budget.WellFormed() && (stopReason.Some? ==> |stopReason.value| <= MAX_REASON)
    }

    /** What it asks of the counters. */
    predicate Counted() {
      |observations| <= 32 && noProgress <= 100 && cycles <= 1_000 && sequence <= 10_000
    }
  }

  function Initial(runId: string, requestFactId: string, budget: Budget): State {
    State(runId, requestFactId, UnderstandGoal, None, None, [], [], None, None, None, None, None, None,
          budget, 0, 0, None, 0)
  }

  datatype Target = ModelGateway | ContextAssembler | ToolRuntime | Committer | Runtime

  /** What a request carries, as far as the approval path depends on it. */
  datatype Payload =
    | Facts
    | ToolInput(input: map<string, string>)
    | PatchFacts(artifactId: string, factId: string)
    | ApprovalCreation(artifactId: string, factId: string, targetKey: string)
    | ApprovalWait(approvalId: string, approvalFactId: string, patchFactId: string, targetKey: string)
    | CommitOrder(artifactId: string, factId: string, approvalId: string, approvalFactId: string, targetKey: string)

  datatype Request = Request(id: string, hint: string, node: NodeName, target: Target, operation: string,
                             payload: Payload, toolName: string, toolVersion: string)

  datatype Data =
    | GoalData(goal: Goal, manifest: string)
    | ContextData(manifest: string)
    | DecisionData(decision: Decision)
    | ToolData(observation: Observation)
    | UserInputData(factId: string, observation: Observation)
    | FindingsData(references: seq<FindingRef>, observation: Observation)
    | GeneratedData(reference: PatchRef, observation: Observation)
    | ValidationData(isValid: bool, reference: PatchRef, observation: Observation)
    | ApprovalCreatedData(approval: ApprovalRef, observation: Observation)
    | ApprovalDecidedData(approval: ApprovalRef)
    | CommitData(commit: CommitRef, observation: Observation)
    | RenderData(outcome: OutcomeRef)
  {
    predicate WellFormed() {
      match this
      case GoalData(goal, manifest) => goal.WellFormed() && Identifier(manifest)
      case ContextData(manifest) => Identifier(manifest)
      case DecisionData(decision) => decision.WellFormed()
      case ToolData(observation) => observation.WellFormed()
      case UserInputData(factId, observation) => Identifier(factId) && observation.WellFormed()
      case FindingsData(references, observation) =>
        && 1 <= |references| <= 100
        && (forall i | 0 <= i < |references| :: references[i].WellFormed())
        && (forall i, j | 0 <= i < j < |references| :: references[i].findingId != references[j].findingId)
        && observation.WellFormed()
      case GeneratedData(reference, observation) => reference.WellFormed() && observation.WellFormed()
      case ValidationData(_, reference, observation) => reference.WellFormed() && observation.WellFormed()
      case ApprovalCreatedData(approval, observation) => approval.WellFormed() && observation.WellFormed()
      case ApprovalDecidedData(approval) => approval.WellFormed()
      case CommitData(commit, observation) => commit.WellFormed() && observation.WellFormed()
      case RenderData(outcome) => outcome.WellFormed()
    }
  }

  datatype Response = Response(requestId: string, budget: Budget, data: Data) {
    predicate WellFormed() {
      budget.WellFormed() && data.WellFormed()
    }
  }

  datatype Limits = Limits(maxCycles: int, maxNoProgress: int, maxObservations: int) {
    predicate Valid() {
      maxCycles > 0 && maxNoProgress > 0 && maxObservations > 0
    }
  }
}
