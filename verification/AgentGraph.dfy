/** The bounded agent graph: one handler per node, each asking the runtime for one answer. */
module AgentGraph {
  import opened Options
  import opened Decimal
  import opened GraphModels

  // ---- Policy ----

  /** Deterministic check of a model decision; None is a refusal. */
  function ValidateAction(s: State, d: Decision): Option<Action> {
    if s.goal.None? then None
    else match d.action
      case DoRetrieve =>
        if d.toolName != "retrieval.search" then None
        else Some(Action(d.action, RetrieveEvidence, d.toolName, "2.0.0", d.toolInput, false))
      case DoRead =>
        if d.toolName != "document.read_nodes" then None
        else Some(Action(d.action, ReadDocumentNodes, d.toolName, "1.0.0", d.toolInput, false))
      case DoApproval =>
        if d.toolName != "workflow.request_approval" then None
        else if s.patch.None? || !s.patch.value.generated || !s.patch.value.valid then None
        else Some(Action(d.action, RequestApproval, d.toolName, "1.0.0", d.toolInput, false))
      case DoAnalyze =>
        if d.toolName != "" || d.toolInput != map[] || s.observations == [] then None
        else Some(Action(d.action, AnalyzeEvidence, "", "", map[], false))
      case DoGenerate =>
        if d.toolName != "" || d.toolInput != map[] || s.findings == [] then None
        else Some(Action(d.action, GeneratePatch, "", "", map[], false))
      case AskUser =>
        if d.toolName != "" || d.toolInput != map[] then None
        else Some(Action(d.action, AwaitUserInput, "", "", map[], true))
      case Finish =>
        if d.toolName != "" || d.toolInput != map[] then None
        else Some(Action(d.action, RenderOutcome, "", "", map[], false))
  }

  // ---- Requests ----

  function Suffix(node: NodeName): string {
    match node
    case AwaitUserInput => "input"
    case RequestApproval => "create"
    case AwaitApproval => "decision"
    case _ => "execute"
  }

  function RequestId(s: State): string {
    s.runId + ":" + (s.node.Name() + ":" + (Digits(s.sequence) + ":" + Suffix(s.node)))
  }

  /** The hint is longer than the identifier, and both are identifiers. */
  function Hint(s: State): string {
    "agent-graph:" + RequestId(s)
  }

  /** What a node does before it hears from the runtime: stop by itself, ask, or refuse
      because the state does not authorise it. */
  datatype Prepared = Stops(state: State) | Asks(request: Request) | Refuses

  function Ask(s: State, target: Target, operation: string, payload: Payload, tool: string, version: string): Prepared {
    if |Hint(s)| > MAX_IDENTIFIER then Refuses
    else Asks(Request(RequestId(s), Hint(s), s.node, target, operation, payload, tool, version))
  }

  function StopReason(limits: Limits, s: State): Option<string> {
    if s.stopReason.Some? then s.stopReason
    else if s.noProgress >= limits.maxNoProgress then Some("no_new_information")
    else if s.cycles >= limits.maxCycles then Some("graph_cycle_budget_exhausted")
    else if s.budget.Exhausted() then
      Some(if s.budget.exhaustedReason.Some? && s.budget.exhaustedReason.value != "" then s.budget.exhaustedReason.value
           else "runtime_budget_exhausted")
    else None
  }

  predicate PatchReady(s: State) {
    s.patch.Some? && s.patch.value.valid && s.patch.value.targetKey.Some?
  }

  predicate ToolAuthorised(s: State, expected: ActionKind) {
    s.action.Some? && s.action.value.kind == expected && s.action.value.nextNode == s.node
  }

  /** What the node's own handler does. */
  function Handle(limits: Limits, s: State): Prepared {
    match s.node
    case UnderstandGoal => Ask(s, ModelGateway, "understand_goal", Facts, "", "")
    case AssembleContext => Ask(s, ContextAssembler, "assemble_context", Facts, "", "")
    case DecideNextAction =>
      var reason := StopReason(limits, s);
      if reason.Some? then
        Stops(s.(stopReason := reason, node := RenderOutcome, sequence := s.sequence + 1))
      else if s.manifest.None? then Refuses
      else Ask(s, ModelGateway, "decide_next_action", Facts, "", "")
    case AwaitUserInput =>
      if s.decision.None? || s.action.None? || !s.decision.value.action.AskUser? || !s.action.value.waitsForInput
      then Refuses
      else Ask(s, Runtime, "await_user_input", Facts, "", "")
    case RetrieveEvidence =>
      if !ToolAuthorised(s, DoRetrieve) then Refuses
      else Ask(s, ToolRuntime, "retrieval.search", ToolInput(s.action.value.toolInput),
               s.action.value.toolName, s.action.value.toolVersion)
    case ReadDocumentNodes =>
      if !ToolAuthorised(s, DoRead) then Refuses
      else Ask(s, ToolRuntime, "document.read_nodes", ToolInput(s.action.value.toolInput),
               s.action.value.toolName, s.action.value.toolVersion)
    case AnalyzeEvidence =>
      if s.observations == [] then Refuses
      else Ask(s, ModelGateway, "analyze_evidence", Facts, "", "")
    case GeneratePatch =>
      if s.findings == [] then Refuses
      else Ask(s, ModelGateway, "generate_patch", Facts, "", "")
    case ValidatePatch =>
      if s.patch.None? || !s.patch.value.generated || s.patch.value.valid then Refuses
      else Ask(s, ToolRuntime, "patch.validate", PatchFacts(s.patch.value.artifactId, s.patch.value.factId),
               "patch.validate", "1.0.0")
    case RequestApproval =>
      if !PatchReady(s) then Refuses
      else Ask(s, ToolRuntime, "workflow.request_approval",
               ApprovalCreation(s.patch.value.artifactId, s.patch.value.factId, s.patch.value.targetKey.value),
               "workflow.request_approval", "1.0.0")
    case AwaitApproval =>
      if !PatchReady(s) || s.approval.None? || !s.approval.value.status.Pending? then Refuses
      else Ask(s, Runtime, "await_approval",
               ApprovalWait(s.approval.value.approvalId, s.approval.value.factId, s.patch.value.factId,
                            s.patch.value.targetKey.value), "", "")
    case CommitPatch =>
      if !PatchReady(s) || s.approval.None? || !s.approval.value.status.Approved? then Refuses
      else Ask(s, Committer, "commit_patch",
               CommitOrder(s.patch.value.artifactId, s.patch.value.factId, s.approval.value.approvalId,
                           s.approval.value.factId, s.patch.value.targetKey.value), "", "")
    case RenderOutcome => Ask(s, ModelGateway, "render_outcome", Facts, "", "")
    case End => Refuses
  }

  /** The state is checked against the schema before the node is entered. */
  function Prepare(limits: Limits, s: State): Prepared {
    if s.Shaped() && s.Counted() then Handle(limits, s) else Refuses
  }

  // ---- Answers ----

  /** The bounded observation history after one more observation; None when the
      observation's novelty claim disagrees with the history. */
  function Record(limits: Limits, s: State, o: Observation): Option<State>
    requires limits.Valid()
  {
    var known := exists k | 0 <= k < |s.observations| :: s.observations[k].contentHash == o.contentHash;
    if o.novel == known then None
    else
      var all := s.observations + [o];
      var drop := if |all| > limits.maxObservations then |all| - limits.maxObservations else 0;
      Some(s.(observations := all[drop..], noProgress := if known then s.noProgress + 1 else 0))
  }

  function Move(s: State, budget: Budget, node: NodeName): State {
    s.(budget := budget, node := node, sequence := s.sequence + 1)
  }

  function ThenMove(s: Option<State>, budget: Budget, node: NodeName): Option<State> {
    if s.None? then None else Some(Move(s.value, budget, node))
  }

  function Decide(s: State, proposed: Decision): Option<State> {
    var d := if s.findings != [] && proposed.action.DoAnalyze?
      then proposed.(action := Finish, reason := "findings are ready for the final answer",
                     toolName := "", toolInput := map[])
      else proposed;
    var action := ValidateAction(s, d);
    if action.None? then None
    else Some(s.(decision := Some(d), action := action, node := action.value.nextNode, cycles := s.cycles + 1))
  }

  /** The state after the runtime's answer; None when the answer is not acceptable. */
  function Resume(limits: Limits, s: State, data: Data, budget: Budget): Option<State>
    requires limits.Valid()
  {
    match (s.node, data)
    case (UnderstandGoal, GoalData(goal, manifest)) =>
      Some(Move(s.(goal := Some(goal), manifest := Some(manifest)), budget, AssembleContext))
    case (AssembleContext, ContextData(manifest)) =>
      Some(Move(s.(manifest := Some(manifest)), budget, DecideNextAction))
    case (DecideNextAction, DecisionData(proposed)) =>
      var decided := Decide(s, proposed);
      if decided.None? then None else Some(Move(decided.value, budget, decided.value.node))
    case (AwaitUserInput, UserInputData(_, o)) => ThenMove(Record(limits, s, o), budget, AssembleContext)
    case (RetrieveEvidence, ToolData(o)) => ThenMove(Record(limits, s, o), budget, AssembleContext)
    case (ReadDocumentNodes, ToolData(o)) => ThenMove(Record(limits, s, o), budget, AssembleContext)
    case (AnalyzeEvidence, FindingsData(references, o)) =>
      ThenMove(Record(limits, s.(findings := references), o), budget, AssembleContext)
    case (GeneratePatch, GeneratedData(reference, o)) =>
      if !reference.generated || reference.valid then None
      else ThenMove(Record(limits, s.(patch := Some(reference)), o), budget, ValidatePatch)
    case (ValidatePatch, ValidationData(isValid, reference, o)) =>
      if s.patch.None? then None
      else
        var p := s.patch.value;
        if reference.artifactId != p.artifactId || reference.factId != p.factId
           || reference.contentHash != p.contentHash || reference.valid != isValid
        then None
        else ThenMove(Record(limits, s.(patch := Some(reference)), o), budget,
                      if isValid then RequestApproval else AssembleContext)
    case (RequestApproval, ApprovalCreatedData(approval, o)) =>
      if !approval.status.Pending? then None
      else ThenMove(Record(limits, s.(approval := Some(approval)), o), budget, AwaitApproval)
    case (AwaitApproval, ApprovalDecidedData(approval)) =>
      if s.approval.None? || approval.approvalId != s.approval.value.approvalId
         || approval.factId != s.approval.value.factId || approval.status.Pending?
      then None
      else if approval.status.Approved? then Some(Move(s.(approval := Some(approval)), budget, CommitPatch))
      else Some(Move(s.(approval := Some(approval), stopReason := Some("approval_rejected")), budget, RenderOutcome))
    case (CommitPatch, CommitData(commit, o)) =>
      if s.patch.None? || commit.resourceId != s.patch.value.resourceId then None
      else ThenMove(Record(limits, s.(commit := Some(commit), stopReason := Some("goal_achieved")), o),
                    budget, RenderOutcome)
    case (RenderOutcome, RenderData(outcome)) => Some(Move(s.(outcome := Some(outcome)), budget, End))
    case _ => None
  }

  /** One node under any answer whatsoever; None is a raised error. */
  function Step(limits: Limits, s: State, response: Response): Option<State>
    requires limits.Valid()
  {
    match Prepare(limits, s)
    case Stops(next) => Some(next)
    case Refuses => None
    case Asks(request) =>
      if response.requestId != request.id || !response.WellFormed() then None
      else Resume(limits, s, response.data, response.budget)
  }
}
