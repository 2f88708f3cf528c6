/** What holds in every state of every run of the agent graph, under any answers. */
module GraphRuns {
  import opened Options
  import opened GraphModels
  import opened AgentGraph

  /** One step of a run. */
  predicate Moves(limits: Limits, states: seq<State>, answers: seq<Response>, i: nat)
    requires limits.Valid() && i < |answers| && |states| == |answers| + 1
  {
    Step(limits, states[i], answers[i]) == Some(states[i + 1])
  }

  /** A run: the states visited and the answers between them. */
  ghost predicate Run(limits: Limits, states: seq<State>, answers: seq<Response>)
    requires limits.Valid()
  {
    && |states| == |answers| + 1
    && states[0] == Initial(states[0].runId, states[0].requestFactId, states[0].budget)
    && Identifier(states[0].runId) && Identifier(states[0].requestFactId) && states[0].budget.WellFormed()
    && forall i | 0 <= i < |answers| :: Moves(limits, states, answers, i)
  }

  // ---- What each node may rely on ----

  predicate Closing(node: NodeName) {
    node.RenderOutcome? || node.End?
  }

  predicate Late(node: NodeName) {
    node.RequestApproval? || node.AwaitApproval? || node.CommitPatch? || Closing(node)
  }

  /** The patch is valid only between its validation and the end of the run. */
  predicate PatchFacts(s: State) {
    && (s.patch.Some? && s.patch.value.valid ==>
          Late(s.node))
    && (s.node.ValidatePatch? ==> s.patch.Some? && s.patch.value.generated && !s.patch.value.valid)
    && (s.node.RequestApproval? ==> s.patch.Some? && s.patch.value.valid)
    && (s.node.AwaitApproval? ==> PatchReady(s) && s.approval.Some? && s.approval.value.status.Pending?)
    && (s.node.CommitPatch? ==> PatchReady(s) && s.approval.Some? && s.approval.value.status.Approved?)
  }

  predicate CommitFacts(s: State) {
    && (s.commit.Some? ==>
          && Closing(s.node)
          && PatchReady(s) && s.approval.Some? && s.approval.value.status.Approved?
          && s.commit.value.resourceId == s.patch.value.resourceId
          && s.stopReason == Some("goal_achieved"))
    && (s.stopReason.Some? ==> Closing(s.node))
    && (s.node.End? <==> s.outcome.Some?)
  }

  predicate ActionFacts(s: State) {
    && (!s.node.UnderstandGoal? ==> s.goal.Some? && s.manifest.Some?)
    && (s.node.RetrieveEvidence? ==> ToolAuthorised(s, DoRetrieve))
    && (s.node.ReadDocumentNodes? ==> ToolAuthorised(s, DoRead))
    && (s.node.AwaitUserInput? ==>
          s.decision.Some? && s.decision.value.action.AskUser? && s.action.Some? && s.action.value.waitsForInput)
    && (s.node.AnalyzeEvidence? ==> s.observations != [] && s.findings == [])
    && (s.node.GeneratePatch? ==> s.findings != [])
  }

  /** How far past the start of its cycle a node can be. */
  function Lag(node: NodeName): int {
    match node
    case UnderstandGoal => 0
    case AssembleContext => 1
    case DecideNextAction => 2
    case RetrieveEvidence => -1
    case ReadDocumentNodes => -1
    case AnalyzeEvidence => -1
    case AwaitUserInput => -1
    case GeneratePatch => -1
    case ValidatePatch => 0
    case RequestApproval => 1
    case AwaitApproval => 2
    case CommitPatch => 3
    case RenderOutcome => 4
    case End => 5
  }

  /** How many observations without news a node can be past the limit. */
  function Stale(node: NodeName): int {
    match node
    case AssembleContext => 1
    case DecideNextAction => 1
    case ValidatePatch => 0
    case RequestApproval => 1
    case AwaitApproval => 2
    case CommitPatch => 2
    case RenderOutcome => 3
    case End => 3
    case _ => -1
  }

  predicate Counters(limits: Limits, s: State) {
    && s.cycles <= limits.maxCycles
    && s.sequence <= 4 * s.cycles + Lag(s.node)
    && (s.node.UnderstandGoal? ==> s.noProgress == 0)
    && s.noProgress <= limits.maxNoProgress + Stale(s.node)
    && |s.observations| <= limits.maxObservations
  }

  predicate Good(limits: Limits, s: State) {
    PatchFacts(s) && CommitFacts(s) && ActionFacts(s) && Counters(limits, s)
  }

  /** Nodes in the order a cycle can visit them, last first. */
  function Rank(node: NodeName): nat {
    match node
    case End => 0
    case RenderOutcome => 1
    case DecideNextAction => 2
    case AssembleContext => 3
    case CommitPatch => 3
    case AwaitApproval => 4
    case RequestApproval => 5
    case ValidatePatch => 6
    case _ => 7
  }

  /** How a step may change the node, the counters and the commit. */
  predicate Edge(limits: Limits, s: State, next: State) {
    && next.sequence == s.sequence + 1
    && next.runId == s.runId
    && (s.cycles < next.cycles <= limits.maxCycles || (next.cycles == s.cycles && Rank(next.node) < Rank(s.node)))
    && (next.node.ValidatePatch? ==> s.node.GeneratePatch?)
    && (next.node.RequestApproval? ==> s.node.ValidatePatch?)
    && (next.node.AwaitApproval? ==> s.node.RequestApproval?)
    && (next.node.CommitPatch? ==> s.node.AwaitApproval?)
    && (next.commit != s.commit ==> s.node.CommitPatch?)
    && (s.findings != [] || s.node.AnalyzeEvidence? ==> next.findings != [])
  }

  lemma {:induction false} StopsOnlyHere(limits: Limits, s: State)
    requires Prepare(limits, s).Stops?
    ensures s.node.DecideNextAction? && StopReason(limits, s).Some?
    ensures Prepare(limits, s).state
         == s.(stopReason := StopReason(limits, s), node := RenderOutcome, sequence := s.sequence + 1)
  {
  }

  lemma {:induction false} StepIs(limits: Limits, s: State, response: Response)
    requires limits.Valid() && Step(limits, s, response).Some?
    ensures if Prepare(limits, s).Stops? then Step(limits, s, response) == Some(Prepare(limits, s).state)
            else && Prepare(limits, s).Asks? && response.WellFormed()
                 && Step(limits, s, response) == Resume(limits, s, response.data, response.budget)
  {
  }

  lemma {:induction false} OpeningKeeps(limits: Limits, s: State, data: Data, budget: Budget)
    requires limits.Valid() && Good(limits, s) && Resume(limits, s, data, budget).Some?
    requires s.node.UnderstandGoal? || s.node.AssembleContext?
    ensures Good(limits, Resume(limits, s, data, budget).value)
    ensures Edge(limits, s, Resume(limits, s, data, budget).value)
  {
  }

  /** The node stops the run by itself, or takes the model's decision. */
  lemma {:induction false} StoppingKeeps(limits: Limits, s: State)
    requires limits.Valid() && Good(limits, s) && Prepare(limits, s).Stops?
    ensures Good(limits, Prepare(limits, s).state)
    ensures Edge(limits, s, Prepare(limits, s).state)
  {
    StopsOnlyHere(limits, s);
  }

  /** What asking shows of the state. */
  predicate Asked(limits: Limits, s: State) {
    (s.node.DecideNextAction? ==> StopReason(limits, s).None?) && (s.node.RequestApproval? ==> PatchReady(s))
  }

  lemma {:induction false} AskingShows(limits: Limits, s: State)
    requires Prepare(limits, s).Asks?
    ensures Asked(limits, s)
  {
  }

  lemma {:induction false} SomethingFound(data: Data)
    requires data.WellFormed() && data.FindingsData?
    ensures data.references != []
  {
  }

  lemma {:induction false} DecisionFacts(limits: Limits, s: State, proposed: Decision, budget: Budget, next: State)
    requires limits.Valid() && Good(limits, s) && s.node.DecideNextAction? && StopReason(limits, s).None?
    requires Decide(s, proposed).Some? && next == Move(Decide(s, proposed).value, budget, Decide(s, proposed).value.node)
    ensures PatchFacts(next) && CommitFacts(next) && ActionFacts(next)
  {
  }

  lemma {:induction false} DecisionKeeps(limits: Limits, s: State, proposed: Decision, budget: Budget, next: State)
    requires limits.Valid() && Good(limits, s) && s.node.DecideNextAction? && StopReason(limits, s).None?
    requires Decide(s, proposed).Some? && next == Move(Decide(s, proposed).value, budget, Decide(s, proposed).value.node)
    ensures Good(limits, next) && Edge(limits, s, next)
  {
    DecisionFacts(limits, s, proposed, budget, next);
  }

  lemma {:induction false} DecisionTaken(limits: Limits, s: State, data: Data, budget: Budget)
    requires limits.Valid() && Resume(limits, s, data, budget).Some? && s.node.DecideNextAction?
    ensures data.DecisionData? && Decide(s, data.decision).Some?
    ensures var decided := Decide(s, data.decision).value;
      Resume(limits, s, data, budget).value == Move(decided, budget, decided.node)
  {
  }

  lemma {:induction false} EvidenceKeeps(limits: Limits, s: State, data: Data, budget: Budget)
    requires limits.Valid() && Good(limits, s) && Resume(limits, s, data, budget).Some?
    requires s.node.RetrieveEvidence? || s.node.ReadDocumentNodes? || s.node.AnalyzeEvidence? || s.node.AwaitUserInput?
    requires data.FindingsData? ==> data.references != []
    ensures Good(limits, Resume(limits, s, data, budget).value)
    ensures Edge(limits, s, Resume(limits, s, data, budget).value)
  {
  }

  lemma {:induction false} PatchingKeeps(limits: Limits, s: State, data: Data, budget: Budget)
    requires limits.Valid() && Good(limits, s) && Resume(limits, s, data, budget).Some?
    requires s.node.GeneratePatch? || s.node.ValidatePatch?
    ensures Good(limits, Resume(limits, s, data, budget).value)
    ensures Edge(limits, s, Resume(limits, s, data, budget).value)
  {
  }

  lemma {:induction false} RequestKeeps(limits: Limits, s: State, data: Data, budget: Budget)
    requires limits.Valid() && Good(limits, s) && Resume(limits, s, data, budget).Some?
    requires s.node.RequestApproval? && PatchReady(s)
    ensures Good(limits, Resume(limits, s, data, budget).value)
    ensures Edge(limits, s, Resume(limits, s, data, budget).value)
  {
  }

  lemma {:induction false} AwaitKeeps(limits: Limits, s: State, data: Data, budget: Budget)
    requires limits.Valid() && Good(limits, s) && Resume(limits, s, data, budget).Some?
    requires s.node.AwaitApproval?
    ensures Good(limits, Resume(limits, s, data, budget).value)
    ensures Edge(limits, s, Resume(limits, s, data, budget).value)
  {
  }

  lemma {:induction false} FinishingKeeps(limits: Limits, s: State, data: Data, budget: Budget)
    requires limits.Valid() && Good(limits, s) && Resume(limits, s, data, budget).Some?
    requires s.node.CommitPatch? || s.node.RenderOutcome? || s.node.End?
    ensures Good(limits, Resume(limits, s, data, budget).value)
    ensures Edge(limits, s, Resume(limits, s, data, budget).value)
  {
  }

  lemma {:induction false} ResumeKeeps(limits: Limits, s: State, data: Data, budget: Budget)
    requires limits.Valid() && Good(limits, s) && Resume(limits, s, data, budget).Some?
    requires Asked(limits, s) && (data.FindingsData? ==> data.references != [])
    ensures Good(limits, Resume(limits, s, data, budget).value)
    ensures Edge(limits, s, Resume(limits, s, data, budget).value)
  {
    match s.node
    case UnderstandGoal => OpeningKeeps(limits, s, data, budget);
    case AssembleContext => OpeningKeeps(limits, s, data, budget);
    case DecideNextAction =>
      DecisionTaken(limits, s, data, budget);
      DecisionKeeps(limits, s, data.decision, budget, Resume(limits, s, data, budget).value);
    case GeneratePatch => PatchingKeeps(limits, s, data, budget);
    case ValidatePatch => PatchingKeeps(limits, s, data, budget);
    case RequestApproval => RequestKeeps(limits, s, data, budget);
    case AwaitApproval => AwaitKeeps(limits, s, data, budget);
    case CommitPatch => FinishingKeeps(limits, s, data, budget);
    case RenderOutcome => FinishingKeeps(limits, s, data, budget);
    case End => FinishingKeeps(limits, s, data, budget);
    case _ => EvidenceKeeps(limits, s, data, budget);
  }

  /** No answer, however hostile, leads from a good state to a bad one. */
  lemma {:induction false} StepKeepsGood(limits: Limits, s: State, response: Response)
    requires limits.Valid() && Good(limits, s) && Step(limits, s, response).Some?
    ensures Good(limits, Step(limits, s, response).value)
    ensures Edge(limits, s, Step(limits, s, response).value)
  {
    StepIs(limits, s, response);
    if Prepare(limits, s).Stops? {
      StoppingKeeps(limits, s);
    } else {
      AskingShows(limits, s);
      if response.data.FindingsData? {
        SomethingFound(response.data);
      }
      ResumeKeeps(limits, s, response.data, response.budget);
    }
  }

  lemma {:induction false} StepTo(limits: Limits, s: State, response: Response, next: State)
    requires limits.Valid() && Good(limits, s) && Step(limits, s, response) == Some(next)
    ensures Good(limits, next) && Edge(limits, s, next)
  {
    StepKeepsGood(limits, s, response);
  }

  lemma {:induction false} StepAt(limits: Limits, states: seq<State>, answers: seq<Response>, i: nat)
    returns (s: State, a: Response, next: State)
    requires limits.Valid() && Run(limits, states, answers) && i < |answers|
    ensures s == states[i] && a == answers[i] && next == states[i + 1] && Step(limits, s, a) == Some(next)
  {
    assert Moves(limits, states, answers, i);
    s, a, next := states[i], answers[i], states[i + 1];
  }

  lemma {:induction false} RunIsGood(limits: Limits, states: seq<State>, answers: seq<Response>, n: nat)
    requires limits.Valid() && Run(limits, states, answers) && n < |states|
    ensures Good(limits, states[n])
  {
    if n > 0 {
      RunIsGood(limits, states, answers, n - 1);
      var s, a, next := StepAt(limits, states, answers, n - 1);
      StepTo(limits, s, a, next);
    }
  }

  /** A step of a run, between good states. */
  lemma {:induction false} GoodStep(limits: Limits, states: seq<State>, answers: seq<Response>, i: nat)
    returns (s: State, next: State)
    requires limits.Valid() && Run(limits, states, answers) && i < |answers|
    ensures s == states[i] && next == states[i + 1] && Good(limits, s) && Good(limits, next) && Edge(limits, s, next)
  {
    RunIsGood(limits, states, answers, i);
    var a;
    s, a, next := StepAt(limits, states, answers, i);
    StepTo(limits, s, a, next);
  }

  // ---- Runs end ----

  /** Every step spends a cycle or moves down the ranks. */
  lemma {:induction false} StepDescends(limits: Limits, s: State, response: Response)
    requires limits.Valid() && Good(limits, s) && Step(limits, s, response).Some?
    ensures var next := Step(limits, s, response).value;
      && next.sequence == s.sequence + 1
      && next.runId == s.runId
      && next.cycles <= limits.maxCycles
      && (limits.maxCycles - next.cycles < limits.maxCycles - s.cycles
          || (next.cycles == s.cycles && Rank(next.node) < Rank(s.node)))
  {
    StepKeepsGood(limits, s, response);
  }

  lemma {:induction false} SequenceCounts(limits: Limits, states: seq<State>, answers: seq<Response>, n: nat)
    requires limits.Valid() && Run(limits, states, answers) && n < |states|
    ensures states[n].sequence == n && states[n].runId == states[0].runId
  {
    if n > 0 {
      SequenceCounts(limits, states, answers, n - 1);
      RunIsGood(limits, states, answers, n - 1);
      assert Moves(limits, states, answers, n - 1);
      StepDescends(limits, states[n - 1], answers[n - 1]);
    }
  }

  /** No run is longer than four steps a cycle and five more. */
  lemma {:induction false} RunsAreShort(limits: Limits, states: seq<State>, answers: seq<Response>)
    requires limits.Valid() && Run(limits, states, answers)
    ensures |answers| <= 4 * limits.maxCycles + 5
  {
    RunIsGood(limits, states, answers, |answers|);
    SequenceCounts(limits, states, answers, |answers|);
  }

  // ---- The schema ----

  lemma {:induction false} ReasonShaped(limits: Limits, s: State)
    requires s.Shaped() && StopReason(limits, s).Some?
    ensures |StopReason(limits, s).value| <= MAX_REASON
  {
  }

  /** Each fact after an answer is the one before, or came with the answer. */
  predicate Follows(s: State, data: Data, budget: Budget, next: State) {
    && next.runId == s.runId && next.requestFactId == s.requestFactId && next.budget == budget
    && (next.goal == s.goal || (data.GoalData? && next.goal == Some(data.goal)))
    && (next.manifest == s.manifest || ((data.GoalData? || data.ContextData?) && next.manifest == Some(data.manifest)))
    && (next.findings == s.findings || (data.FindingsData? && next.findings == data.references))
    && (next.patch == s.patch || ((data.GeneratedData? || data.ValidationData?) && next.patch == Some(data.reference)))
    && (next.approval == s.approval
        || ((data.ApprovalCreatedData? || data.ApprovalDecidedData?) && next.approval == Some(data.approval)))
    && (next.stopReason == s.stopReason || next.stopReason in {Some("approval_rejected"), Some("goal_achieved")})
  }

  lemma {:induction false} OpeningFollows(limits: Limits, s: State, data: Data, budget: Budget)
    requires limits.Valid() && Resume(limits, s, data, budget).Some?
    requires s.node.UnderstandGoal? || s.node.AssembleContext? || s.node.DecideNextAction?
    ensures Follows(s, data, budget, Resume(limits, s, data, budget).value)
  {
  }

  lemma {:induction false} EvidenceFollows(limits: Limits, s: State, data: Data, budget: Budget)
    requires limits.Valid() && Resume(limits, s, data, budget).Some?
    requires s.node.AwaitUserInput? || s.node.RetrieveEvidence? || s.node.ReadDocumentNodes? || s.node.AnalyzeEvidence?
    ensures Follows(s, data, budget, Resume(limits, s, data, budget).value)
  {
  }

  lemma {:induction false} PatchFollows(limits: Limits, s: State, data: Data, budget: Budget)
    requires limits.Valid() && Resume(limits, s, data, budget).Some?
    requires s.node.GeneratePatch? || s.node.ValidatePatch?
    ensures Follows(s, data, budget, Resume(limits, s, data, budget).value)
  {
  }

  lemma {:induction false} ApprovalFollows(limits: Limits, s: State, data: Data, budget: Budget)
    requires limits.Valid() && Resume(limits, s, data, budget).Some?
    requires s.node.RequestApproval? || s.node.AwaitApproval?
    ensures Follows(s, data, budget, Resume(limits, s, data, budget).value)
  {
  }

  lemma {:induction false} EndingFollows(limits: Limits, s: State, data: Data, budget: Budget)
    requires limits.Valid() && Resume(limits, s, data, budget).Some?
    requires s.node.CommitPatch? || s.node.RenderOutcome? || s.node.End?
    ensures Follows(s, data, budget, Resume(limits, s, data, budget).value)
  {
  }

  lemma {:induction false} ResumeFollows(limits: Limits, s: State, data: Data, budget: Budget)
    requires limits.Valid() && Resume(limits, s, data, budget).Some?
    ensures Follows(s, data, budget, Resume(limits, s, data, budget).value)
  {
    match s.node
    case UnderstandGoal => OpeningFollows(limits, s, data, budget);
    case AssembleContext => OpeningFollows(limits, s, data, budget);
    case DecideNextAction => OpeningFollows(limits, s, data, budget);
    case GeneratePatch => PatchFollows(limits, s, data, budget);
    case ValidatePatch => PatchFollows(limits, s, data, budget);
    case RequestApproval => ApprovalFollows(limits, s, data, budget);
    case AwaitApproval => ApprovalFollows(limits, s, data, budget);
    case CommitPatch => EndingFollows(limits, s, data, budget);
    case RenderOutcome => EndingFollows(limits, s, data, budget);
    case End => EndingFollows(limits, s, data, budget);
    case _ => EvidenceFollows(limits, s, data, budget);
  }

  lemma {:induction false} FollowsShaped(s: State, data: Data, budget: Budget, next: State)
    requires s.Shaped() && data.WellFormed() && budget.WellFormed() && Follows(s, data, budget, next)
    ensures next.Shaped()
  {
  }

  /** Answers the schema accepts keep the facts of the state as it wants them. */
  lemma {:induction false} StepKeepsShape(limits: Limits, s: State, response: Response)
    requires limits.Valid() && s.Shaped() && Step(limits, s, response).Some?
    ensures Step(limits, s, response).value.Shaped()
  {
    StepIs(limits, s, response);
    if Prepare(limits, s).Stops? {
      StopsOnlyHere(limits, s);
      ReasonShaped(limits, s);
    } else {
      ResumeFollows(limits, s, response.data, response.budget);
      FollowsShaped(s, response.data, response.budget, Step(limits, s, response).value);
    }
  }

  lemma {:induction false} RunIsShaped(limits: Limits, states: seq<State>, answers: seq<Response>, n: nat)
    requires limits.Valid() && Run(limits, states, answers) && n < |states|
    ensures states[n].Shaped()
  {
    if n > 0 {
      RunIsShaped(limits, states, answers, n - 1);
      assert Moves(limits, states, answers, n - 1);
      StepKeepsShape(limits, states[n - 1], answers[n - 1]);
    }
  }

  /** Limits that keep the counters within the schema's bounds. */
  predicate Bounded(limits: Limits) {
    limits.maxCycles <= 1_000 && limits.maxNoProgress <= 97 && limits.maxObservations <= 32
  }

  lemma {:induction false} GoodIsCounted(limits: Limits, s: State)
    requires limits.Valid() && Good(limits, s) && Bounded(limits)
    ensures s.Counted() && s.sequence <= 4_005
  {
  }

  lemma {:induction false} RunsFitTheSchema(limits: Limits, states: seq<State>, answers: seq<Response>, n: nat)
    requires limits.Valid() && Run(limits, states, answers) && n < |states|
    requires Bounded(limits)
    ensures states[n].Shaped() && states[n].Counted()
  {
    RunIsShaped(limits, states, answers, n);
    RunIsGood(limits, states, answers, n);
    GoodIsCounted(limits, states[n]);
  }

  // ---- Which nodes can refuse ----

  /** The node has a request to make. */
  predicate Asking(limits: Limits, s: State) {
    s.node.DecideNextAction? ==> StopReason(limits, s).None?
  }

  /** In a run, a node refuses its own state only at the end, when validation accepted a
      patch without naming the key to commit it under, when a counter is past its bound, or
      when its request would need too long an identifier. */
  lemma {:induction false} RefusesIff(limits: Limits, s: State)
    requires limits.Valid() && Good(limits, s) && s.Shaped()
    ensures Prepare(limits, s).Refuses?
       <==> || s.node.End? || (s.node.RequestApproval? && s.patch.value.targetKey.None?)
            || !s.Counted() || (Asking(limits, s) && |Hint(s)| > MAX_IDENTIFIER)
  {
  }

  // ---- Evidence is analysed once ----

  /** What one step of a run does to the findings and the commit. */
  lemma {:induction false} Progress(limits: Limits, states: seq<State>, answers: seq<Response>, i: nat)
    requires limits.Valid() && Run(limits, states, answers) && 0 < i < |states|
    ensures states[i - 1].findings != [] || states[i - 1].node.AnalyzeEvidence? ==> states[i].findings != []
    ensures states[i].node.AnalyzeEvidence? ==> states[i].findings == []
    ensures states[i].commit != states[i - 1].commit ==> states[i - 1].node.CommitPatch?
  {
    var s, next := GoodStep(limits, states, answers, i - 1);
  }

  lemma {:induction false} AnalyzesOnce(limits: Limits, states: seq<State>, answers: seq<Response>, i: nat, j: nat)
    requires limits.Valid() && Run(limits, states, answers) && i < j < |states|
    requires states[i].node.AnalyzeEvidence?
    ensures states[j].findings != [] && !states[j].node.AnalyzeEvidence?
  {
    Progress(limits, states, answers, j);
    if i < j - 1 {
      AnalyzesOnce(limits, states, answers, i, j - 1);
    }
  }

  // ---- A commit needs a validated patch and a human decision ----

  predicate SameArtifact(a: PatchRef, b: PatchRef) {
    a.artifactId == b.artifactId && a.factId == b.factId && a.contentHash == b.contentHash
  }

  /** The five steps that end in a commit, with the answers they took. */
  ghost predicate CommitSteps(limits: Limits, s0: State, a0: Response, s1: State, a1: Response, s2: State, a2: Response,
                        s3: State, a3: Response, s4: State, a4: Response, s5: State)
    requires limits.Valid()
  {
    && s0.node.GeneratePatch? && s1.node.ValidatePatch? && s2.node.RequestApproval?
    && s3.node.AwaitApproval? && s4.node.CommitPatch?
    && a0.data.GeneratedData? && a1.data.ValidationData? && a2.data.ApprovalCreatedData?
    && a3.data.ApprovalDecidedData? && a4.data.CommitData?
    && var generated, validated := a0.data.reference, a1.data.reference;
       var created, decided := a2.data.approval, a3.data.approval;
    && generated.generated && !generated.valid
    && a1.data.isValid && validated.valid && validated.targetKey.Some?
    && SameArtifact(generated, validated)
    && created.status.Pending? && decided == created.(status := Approved)
    && Prepare(limits, s4).Asks?
    && Prepare(limits, s4).request.payload
       == CommitOrder(generated.artifactId, generated.factId, created.approvalId, created.factId,
                      validated.targetKey.value)
    && s5.commit == Some(a4.data.commit)
    && a4.data.commit.resourceId == validated.resourceId
  }

  /** The commit of states[n] came out of the five steps from states[k]. */
  ghost predicate CommittedFrom(limits: Limits, states: seq<State>, answers: seq<Response>, k: nat, n: nat)
    requires limits.Valid() && |states| == |answers| + 1 && n < |states|
  {
    && k + 5 <= n
    && CommitSteps(limits, states[k], answers[k], states[k + 1], answers[k + 1], states[k + 2], answers[k + 2],
                   states[k + 3], answers[k + 3], states[k + 4], answers[k + 4], states[k + 5])
    && states[n].commit == states[k + 5].commit
  }

  lemma {:induction false} Before(limits: Limits, states: seq<State>, answers: seq<Response>, i: nat)
    requires limits.Valid() && Run(limits, states, answers) && 0 < i < |states|
    ensures Good(limits, states[i - 1]) && Good(limits, states[i]) && Edge(limits, states[i - 1], states[i])
  {
    var s, next := GoodStep(limits, states, answers, i - 1);
  }

  lemma {:induction false} GenerateAnswer(limits: Limits, s: State, a: Response, next: State)
    requires limits.Valid() && Step(limits, s, a) == Some(next) && s.node.GeneratePatch?
    ensures a.data.GeneratedData? && a.data.reference.generated && !a.data.reference.valid
    ensures next.patch == Some(a.data.reference)
  {
    StepIs(limits, s, a);
  }

  lemma {:induction false} ValidateAnswer(limits: Limits, s: State, a: Response, next: State)
    requires limits.Valid() && Step(limits, s, a) == Some(next)
    requires s.node.ValidatePatch? && next.node.RequestApproval? && s.patch.Some?
    ensures a.data.ValidationData? && a.data.isValid && a.data.reference.valid
    ensures SameArtifact(s.patch.value, a.data.reference) && next.patch == Some(a.data.reference)
  {
    StepIs(limits, s, a);
  }

  lemma {:induction false} PatchAnswers(limits: Limits, s0: State, a0: Response, s1: State, a1: Response, s2: State)
    requires limits.Valid() && Step(limits, s0, a0) == Some(s1) && Step(limits, s1, a1) == Some(s2)
    requires s0.node.GeneratePatch? && s1.node.ValidatePatch? && s2.node.RequestApproval?
    ensures a0.data.GeneratedData? && a1.data.ValidationData?
    ensures var generated, validated := a0.data.reference, a1.data.reference;
      && generated.generated && !generated.valid && a1.data.isValid && validated.valid
      && SameArtifact(generated, validated) && s2.patch == Some(validated)
  {
    GenerateAnswer(limits, s0, a0, s1);
    ValidateAnswer(limits, s1, a1, s2);
  }

  lemma {:induction false} CreateAnswer(limits: Limits, s: State, a: Response, next: State)
    requires limits.Valid() && Step(limits, s, a) == Some(next) && s.node.RequestApproval?
    ensures a.data.ApprovalCreatedData? && a.data.approval.status.Pending?
    ensures next.approval == Some(a.data.approval) && next.patch == s.patch
    ensures s.patch.Some? && s.patch.value.targetKey.Some?
  {
    StepIs(limits, s, a);
  }

  lemma {:induction false} DecideAnswer(limits: Limits, s: State, a: Response, next: State)
    requires limits.Valid() && Step(limits, s, a) == Some(next)
    requires s.node.AwaitApproval? && next.node.CommitPatch? && s.approval.Some? && s.approval.value.status.Pending?
    ensures a.data.ApprovalDecidedData? && a.data.approval == s.approval.value.(status := Approved)
    ensures next.approval == Some(a.data.approval) && next.patch == s.patch
  {
    StepIs(limits, s, a);
  }

  lemma {:induction false} ApprovalAnswers(limits: Limits, s2: State, a2: Response, s3: State, a3: Response, s4: State)
    requires limits.Valid() && Step(limits, s2, a2) == Some(s3) && Step(limits, s3, a3) == Some(s4)
    requires s2.node.RequestApproval? && s3.node.AwaitApproval? && s4.node.CommitPatch?
    ensures a2.data.ApprovalCreatedData? && a3.data.ApprovalDecidedData?
    ensures var created, decided := a2.data.approval, a3.data.approval;
      created.status.Pending? && decided == created.(status := Approved) && s4.approval == Some(decided)
    ensures s4.patch == s2.patch && s2.patch.Some? && s2.patch.value.targetKey.Some?
  {
    CreateAnswer(limits, s2, a2, s3);
    DecideAnswer(limits, s3, a3, s4);
  }

  lemma {:induction false} CommitAnswer(limits: Limits, s4: State, a4: Response, s5: State)
    requires limits.Valid() && Step(limits, s4, a4) == Some(s5) && s4.node.CommitPatch?
    requires s4.patch.Some? && s4.approval.Some? && s4.patch.value.targetKey.Some?
    ensures a4.data.CommitData? && s5.commit == Some(a4.data.commit)
    ensures a4.data.commit.resourceId == s4.patch.value.resourceId
    ensures Prepare(limits, s4).Asks? && Prepare(limits, s4).request.payload
         == CommitOrder(s4.patch.value.artifactId, s4.patch.value.factId, s4.approval.value.approvalId,
                        s4.approval.value.factId, s4.patch.value.targetKey.value)
  {
  }

  lemma {:induction false} FiveSteps(limits: Limits, s0: State, a0: Response, s1: State, a1: Response, s2: State, a2: Response,
                  s3: State, a3: Response, s4: State, a4: Response, s5: State)
    requires limits.Valid()
    requires Step(limits, s0, a0) == Some(s1) && Step(limits, s1, a1) == Some(s2) && Step(limits, s2, a2) == Some(s3)
    requires Step(limits, s3, a3) == Some(s4) && Step(limits, s4, a4) == Some(s5)
    requires s0.node.GeneratePatch? && s1.node.ValidatePatch? && s2.node.RequestApproval?
    requires s3.node.AwaitApproval? && s4.node.CommitPatch?
    ensures CommitSteps(limits, s0, a0, s1, a1, s2, a2, s3, a3, s4, a4, s5)
  {
    PatchAnswers(limits, s0, a0, s1, a1, s2);
    ApprovalAnswers(limits, s2, a2, s3, a3, s4);
    CommitAnswer(limits, s4, a4, s5);
  }

  lemma {:induction false} ApprovalRefused(limits: Limits, s: State, response: Response)
    requires limits.Valid() && Good(limits, s) && s.node.DecideNextAction? && Prepare(limits, s).Asks?
    requires response.data.DecisionData? && response.data.decision.action.DoApproval?
    ensures Step(limits, s, response).None?
  {
  }

  lemma {:induction false} RequestedAfter(limits: Limits, s: State, a: Response, next: State)
    requires limits.Valid() && Good(limits, s) && Step(limits, s, a) == Some(next) && next.node.RequestApproval?
    ensures s.node.ValidatePatch? && a.data.ValidationData? && a.data.isValid
  {
    StepTo(limits, s, a, next);
    ValidateAnswer(limits, s, a, next);
  }

  /** A model decision alone never opens the approval path: in a run no patch is valid where
      the model decides, no decision for approval is ever taken, and approval is requested
      only in the step after a validation that accepted the patch. */
  lemma {:induction false} DecisionNeverApproves(limits: Limits, states: seq<State>, answers: seq<Response>, n: nat)
    requires limits.Valid() && Run(limits, states, answers) && n < |answers|
    ensures states[n].node.DecideNextAction? ==>
      && !(states[n].patch.Some? && states[n].patch.value.valid)
      && (Prepare(limits, states[n]).Asks? && answers[n].data.DecisionData? ==>
            !answers[n].data.decision.action.DoApproval?)
    ensures states[n + 1].node.RequestApproval? ==>
      states[n].node.ValidatePatch? && answers[n].data.ValidationData? && answers[n].data.isValid
  {
    RunIsGood(limits, states, answers, n);
    var s, a, next := StepAt(limits, states, answers, n);
    if next.node.RequestApproval? {
      RequestedAfter(limits, s, a, next);
    }
    if states[n].node.DecideNextAction? && Prepare(limits, states[n]).Asks? && answers[n].data.DecisionData?
       && answers[n].data.decision.action.DoApproval? {
      ApprovalRefused(limits, states[n], answers[n]);
    }
  }

  /** Where the nodes of the patch path are entered from. */
  lemma {:induction false} CameFrom(limits: Limits, states: seq<State>, answers: seq<Response>, i: nat)
    requires limits.Valid() && Run(limits, states, answers) && i < |states|
    ensures states[i].node.CommitPatch? ==>
      i > 0 && states[i - 1].node.AwaitApproval? && PatchReady(states[i]) && states[i].approval.Some?
    ensures states[i].node.AwaitApproval? ==> i > 0 && states[i - 1].node.RequestApproval?
    ensures states[i].node.RequestApproval? ==> i > 0 && states[i - 1].node.ValidatePatch?
    ensures states[i].node.ValidatePatch? ==> i > 0 && states[i - 1].node.GeneratePatch?
  {
    if i > 0 {
      Before(limits, states, answers, i);
    }
  }

  lemma {:induction false} ApprovalPath(limits: Limits, states: seq<State>, answers: seq<Response>, m: nat)
    requires limits.Valid() && Run(limits, states, answers) && m < |answers|
    requires states[m].node.CommitPatch?
    ensures m >= 4 && states[m - 4].node.GeneratePatch? && states[m - 3].node.ValidatePatch?
    ensures states[m - 2].node.RequestApproval? && states[m - 1].node.AwaitApproval?
    ensures PatchReady(states[m]) && states[m].approval.Some?
  {
    CameFrom(limits, states, answers, m);
    CameFrom(limits, states, answers, m - 1);
    CameFrom(limits, states, answers, m - 2);
    CameFrom(limits, states, answers, m - 3);
  }

  lemma {:induction false} CommitPathAnswers(limits: Limits, states: seq<State>, answers: seq<Response>, m: nat)
    requires limits.Valid() && Run(limits, states, answers) && m < |answers|
    requires states[m].node.CommitPatch?
    ensures m >= 4 && CommittedFrom(limits, states, answers, m - 4, m + 1)
  {
    ApprovalPath(limits, states, answers, m);
    var k := m - 4;
    assert Moves(limits, states, answers, k) && Moves(limits, states, answers, k + 1);
    assert Moves(limits, states, answers, k + 2) && Moves(limits, states, answers, k + 3);
    assert Moves(limits, states, answers, k + 4);
    FiveSteps(limits, states[k], answers[k], states[k + 1], answers[k + 1], states[k + 2], answers[k + 2],
              states[k + 3], answers[k + 3], states[k + 4], answers[k + 4], states[k + 5]);
  }

  /** A commit exists only at the end of a run that generated the patch, had that very
      patch validated, created a pending approval and had that very approval approved. */
  lemma {:induction false} CommitProvenance(limits: Limits, states: seq<State>, answers: seq<Response>, n: nat)
    requires limits.Valid() && Run(limits, states, answers) && n < |states|
    requires states[n].commit.Some?
    ensures exists k :: CommittedFrom(limits, states, answers, k, n)
  {
    var m := Committed(limits, states, answers, n);
    CommitPathAnswers(limits, states, answers, m);
    assert CommittedFrom(limits, states, answers, m - 4, n);
  }

  lemma {:induction false} Committed(limits: Limits, states: seq<State>, answers: seq<Response>, n: nat)
    returns (m: nat)
    requires limits.Valid() && Run(limits, states, answers) && n < |states|
    requires states[n].commit.Some?
    ensures m < n && states[m].node.CommitPatch? && states[m + 1].commit == states[n].commit
  {
    if n > 0 {
      Progress(limits, states, answers, n);
    }
    if states[n - 1].commit == states[n].commit {
      m := Committed(limits, states, answers, n - 1);
    } else {
      m := n - 1;
    }
  }
}
