/** What runs can reach: a commit, and the state that can never move again. */
module GraphReach {
  import opened Options
  import opened Decimal
  import opened Digests
  import opened GraphModels
  import opened AgentGraph
  import opened GraphRuns
  import opened GraphProgress

  // ---- The patch path takes three cycles ----

  /** Evidence, findings and a patch are each the fruit of a cycle of their own. */
  predicate Spent(s: State) {
    && (s.observations != [] ==> s.cycles >= 1)
    && (s.findings != [] ==> s.cycles >= 2)
    && (s.patch.Some? || s.commit.Some? ==> s.cycles >= 3)
    && match s.node
       case RetrieveEvidence => s.cycles >= 1
       case ReadDocumentNodes => s.cycles >= 1
       case AwaitUserInput => s.cycles >= 1
       case AnalyzeEvidence => s.cycles >= 2
       case GeneratePatch => s.cycles >= 3
       case ValidatePatch => s.cycles >= 3
       case RequestApproval => s.cycles >= 3
       case AwaitApproval => s.cycles >= 3
       case CommitPatch => s.cycles >= 3
       case _ => true
  }

  lemma {:induction false} DecisionSpends(s: State, proposed: Decision, budget: Budget, next: State)
    requires Spent(s) && s.node.DecideNextAction? && Decide(s, proposed).Some?
    requires next == Move(Decide(s, proposed).value, budget, Decide(s, proposed).value.node)
    ensures Spent(next)
  {
  }

  lemma {:induction false} CollectingSpends(limits: Limits, s: State, data: Data, budget: Budget)
    requires limits.Valid() && Spent(s) && Resume(limits, s, data, budget).Some?
    requires s.node.RetrieveEvidence? || s.node.ReadDocumentNodes? || s.node.AnalyzeEvidence? || s.node.AwaitUserInput?
    ensures Spent(Resume(limits, s, data, budget).value)
  {
  }

  lemma {:induction false} PatchingSpends(limits: Limits, s: State, data: Data, budget: Budget)
    requires limits.Valid() && Spent(s) && Resume(limits, s, data, budget).Some?
    requires s.node.GeneratePatch? || s.node.ValidatePatch? || s.node.RequestApproval?
    ensures Spent(Resume(limits, s, data, budget).value)
  {
  }

  lemma {:induction false} OthersSpend(limits: Limits, s: State, data: Data, budget: Budget)
    requires limits.Valid() && Spent(s) && Resume(limits, s, data, budget).Some?
    requires s.node.UnderstandGoal? || s.node.AssembleContext? || s.node.AwaitApproval?
    ensures Spent(Resume(limits, s, data, budget).value)
  {
  }

  lemma {:induction false} EndingSpends(limits: Limits, s: State, data: Data, budget: Budget)
    requires limits.Valid() && Spent(s) && Resume(limits, s, data, budget).Some?
    requires s.node.CommitPatch? || s.node.RenderOutcome? || s.node.End?
    ensures Spent(Resume(limits, s, data, budget).value)
  {
  }

  lemma {:induction false} ResumeSpends(limits: Limits, s: State, data: Data, budget: Budget)
    requires limits.Valid() && Spent(s) && Resume(limits, s, data, budget).Some?
    ensures Spent(Resume(limits, s, data, budget).value)
  {
    match s.node
    case DecideNextAction =>
      DecisionTaken(limits, s, data, budget);
      DecisionSpends(s, data.decision, budget, Resume(limits, s, data, budget).value);
    case RetrieveEvidence => CollectingSpends(limits, s, data, budget);
    case ReadDocumentNodes => CollectingSpends(limits, s, data, budget);
    case AnalyzeEvidence => CollectingSpends(limits, s, data, budget);
    case AwaitUserInput => CollectingSpends(limits, s, data, budget);
    case GeneratePatch => PatchingSpends(limits, s, data, budget);
    case ValidatePatch => PatchingSpends(limits, s, data, budget);
    case RequestApproval => PatchingSpends(limits, s, data, budget);
    case CommitPatch => EndingSpends(limits, s, data, budget);
    case RenderOutcome => EndingSpends(limits, s, data, budget);
    case End => EndingSpends(limits, s, data, budget);
    case _ => OthersSpend(limits, s, data, budget);
  }

  lemma {:induction false} StepSpends(limits: Limits, s: State, answer: Response)
    requires limits.Valid() && Spent(s) && Step(limits, s, answer).Some?
    ensures Spent(Step(limits, s, answer).value)
  {
    StepIs(limits, s, answer);
    if Prepare(limits, s).Stops? {
      StopsOnlyHere(limits, s);
    } else {
      ResumeSpends(limits, s, answer.data, answer.budget);
    }
  }

  lemma {:induction false} RunSpends(limits: Limits, states: seq<State>, answers: seq<Response>, n: nat)
    requires limits.Valid() && Run(limits, states, answers) && n < |states|
    ensures Spent(states[n])
  {
    if n > 0 {
      RunSpends(limits, states, answers, n - 1);
      assert Moves(limits, states, answers, n - 1);
      StepSpends(limits, states[n - 1], answers[n - 1]);
    }
  }

  // ---- A run that commits ----

  const BUDGET := Budget("budget", 1, 1, None, None, false, None)

  /** Where the run stands after k steps. */
  function NodeAt(k: nat): NodeName {
    match k
    case 0 => UnderstandGoal
    case 1 => AssembleContext
    case 2 => DecideNextAction
    case 3 => RetrieveEvidence
    case 4 => AssembleContext
    case 5 => DecideNextAction
    case 6 => AnalyzeEvidence
    case 7 => AssembleContext
    case 8 => DecideNextAction
    case 9 => GeneratePatch
    case 10 => ValidatePatch
    case 11 => RequestApproval
    case 12 => AwaitApproval
    case 13 => CommitPatch
    case 14 => RenderOutcome
    case _ => End
  }

  function HexDigit(k: nat): (digit: char)
    requires k < 16
    ensures '0' <= digit <= '9' || 'a' <= digit <= 'f'
  {
    if k < 10 then ('0' as int + k) as char else ('a' as int + k - 10) as char
  }

  /** News at every step: a hash that starts with the number of the step. */
  function News(k: nat): Observation
    requires k < 16
  {
    Observation("note", "fact", HashFrom(HexDigit(k)), true)
  }

  function Found(key: Option<string>, valid: bool): PatchRef {
    PatchRef("patch", "fact", ZERO_HASH, "resource", "version", true, valid, key)
  }

  function Asked(action: ActionKind, tool: string): Data {
    DecisionData(Decision(action, "reason", tool, map[], "output"))
  }

  /** What the runtime answers to step k. */
  function Script(key: Option<string>, k: nat): Data {
    match k
    case 0 => GoalData(Goal("objective", [], "output"), "manifest")
    case 2 => Asked(DoRetrieve, "retrieval.search")
    case 3 => ToolData(News(k))
    case 5 => Asked(DoAnalyze, "")
    case 6 => FindingsData([FindingRef("finding", "fact", ZERO_HASH)], News(k))
    case 8 => Asked(DoGenerate, "")
    case 9 => GeneratedData(Found(key, false), News(k))
    case 10 => ValidationData(true, Found(key, true), News(k))
    case 11 => ApprovalCreatedData(ApprovalRef("approval", "fact", Pending), News(k))
    case 12 => ApprovalDecidedData(ApprovalRef("approval", "fact", Approved))
    case 13 => CommitData(CommitRef("fact", "resource", "version", "outbox"), News(k))
    case _ => ContextData("manifest")
  }

  lemma {:induction false} NewsFits(k: nat)
    requires k < 16
    ensures News(k).WellFormed()
  {
    NameFits("note");
    NameFits("fact");
  }

  lemma {:induction false} ChoiceFits(key: Option<string>, k: nat)
    requires k == 2 || k == 5 || k == 8
    ensures Script(key, k).WellFormed()
  {
    NameFits("retrieval.search");
    match k
    case 2 => DecisionFits(DoRetrieve, "retrieval.search");
    case 5 => DecisionFits(DoAnalyze, "");
    case _ => DecisionFits(DoGenerate, "");
  }

  lemma {:induction false} SearchFits(key: Option<string>, k: nat)
    requires k <= 8
    ensures Script(key, k).WellFormed()
  {
    match k
    case 2 => ChoiceFits(key, k);
    case 3 => NewsFits(k);
    case 5 => ChoiceFits(key, k);
    case 6 =>
      NewsFits(k);
      FindingFits();
    case 8 => ChoiceFits(key, k);
    case _ => GoalFits();
  }

  lemma {:induction false} ChangeFits(key: Option<string>, k: nat)
    requires key.Some? ==> Identifier(key.value)
    requires 9 <= k <= 11
    ensures Script(key, k).WellFormed()
  {
    NewsFits(k);
    NameFits("patch");
    match k
    case 9 => PatchFits("patch", key, false);
    case 10 => PatchFits("patch", key, true);
    case _ => ApprovalFits(Pending);
  }

  /** The schema accepts every answer of the script. */
  lemma {:induction false} ScriptFits(key: Option<string>, k: nat)
    requires key.Some? ==> Identifier(key.value)
    requires k < 16
    ensures Script(key, k).WellFormed()
  {
    if k <= 8 {
      SearchFits(key, k);
    } else if k <= 11 {
      ChangeFits(key, k);
    } else if k == 12 {
      ApprovalFits(Approved);
    } else if k == 13 {
      NewsFits(k);
      NameFits("resource");
      CommitFits("resource");
    } else {
      GoalFits();
    }
  }

  lemma {:induction false} BudgetFits()
    ensures BUDGET.WellFormed()
  {
    NameFits("budget");
  }

  /** What was observed before step k. */
  predicate Heard(observations: seq<Observation>, k: nat)
    requires k < 16
  {
    && |observations| <= k
    && forall i | 0 <= i < |observations| ::
         |observations[i].contentHash| == 71 && observations[i].contentHash[7] < HexDigit(k)
  }

  /** The state after k steps of the script. */
  predicate At(key: Option<string>, s: State, k: nat) {
    && k < 15 && s.node == NodeAt(k) && s.cycles <= k / 3 && s.sequence == k
    && s.budget == BUDGET && s.noProgress == 0
    && (k <= 13 ==> s.stopReason.None?)
    && (k >= 1 ==> s.goal.Some? && s.manifest.Some?)
    && Heard(s.observations, k)
    && (k == 3 ==> ToolAuthorised(s, DoRetrieve))
    && (k >= 4 ==> s.observations != [])
    && (if k <= 6 then s.findings == [] else s.findings != [])
    && (k == 10 ==> s.patch == Some(Found(key, false)))
    && (k >= 11 ==> s.patch == Some(Found(key, true)))
    && (k == 12 ==> s.approval == Some(ApprovalRef("approval", "fact", Pending)))
    && (k == 13 ==> s.approval == Some(ApprovalRef("approval", "fact", Approved)))
    && (k == 14 ==> s.commit.Some?)
  }

  lemma {:induction false} HeardOn(observations: seq<Observation>, k: nat)
    requires k < 15 && Heard(observations, k)
    ensures Heard(observations, k + 1)
  {
  }

  lemma {:induction false} NewsIsNew(limits: Limits, s: State, k: nat)
    requires limits.Valid() && s.noProgress == 0 && k < 15 && Heard(s.observations, k)
    ensures Record(limits, s, News(k)).Some?
    ensures var next := Record(limits, s, News(k)).value;
      next == s.(observations := next.observations) && next.observations != [] && Heard(next.observations, k + 1)
  {
    assert News(k).contentHash[7] == HexDigit(k);
  }

  lemma {:induction false} Opens(limits: Limits, key: Option<string>, s: State, k: nat)
    requires limits.Valid() && At(key, s, k) && |Hint(s)| <= MAX_IDENTIFIER
    requires k == 0 || k == 1 || k == 4 || k == 7
    ensures Handle(limits, s).Asks? && Resume(limits, s, Script(key, k), BUDGET).Some?
    ensures At(key, Resume(limits, s, Script(key, k), BUDGET).value, k + 1)
  {
    HeardOn(s.observations, k);
  }

  lemma {:induction false} Decides(limits: Limits, key: Option<string>, s: State, k: nat)
    requires limits.Valid() && At(key, s, k) && |Hint(s)| <= MAX_IDENTIFIER
    requires limits.maxCycles >= 3 && (k == 2 || k == 5 || k == 8)
    ensures Handle(limits, s).Asks? && Resume(limits, s, Script(key, k), BUDGET).Some?
    ensures At(key, Resume(limits, s, Script(key, k), BUDGET).value, k + 1)
  {
    HeardOn(s.observations, k);
  }

  lemma {:induction false} Retrieves(limits: Limits, key: Option<string>, s: State, k: nat)
    requires limits.Valid() && At(key, s, k) && |Hint(s)| <= MAX_IDENTIFIER
    requires k == 3
    ensures Handle(limits, s).Asks? && Resume(limits, s, Script(key, k), BUDGET).Some?
    ensures At(key, Resume(limits, s, Script(key, k), BUDGET).value, k + 1)
  {
    NewsIsNew(limits, s, k);
  }

  lemma {:induction false} Analyzes(limits: Limits, key: Option<string>, s: State, k: nat)
    requires limits.Valid() && At(key, s, k) && |Hint(s)| <= MAX_IDENTIFIER
    requires k == 6
    ensures Handle(limits, s).Asks? && Resume(limits, s, Script(key, k), BUDGET).Some?
    ensures At(key, Resume(limits, s, Script(key, k), BUDGET).value, k + 1)
  {
    NewsIsNew(limits, s.(findings := [FindingRef("finding", "fact", ZERO_HASH)]), k);
  }

  lemma {:induction false} Generates(limits: Limits, key: Option<string>, s: State, k: nat)
    requires limits.Valid() && At(key, s, k) && |Hint(s)| <= MAX_IDENTIFIER
    requires k == 9
    ensures Handle(limits, s).Asks? && Resume(limits, s, Script(key, k), BUDGET).Some?
    ensures At(key, Resume(limits, s, Script(key, k), BUDGET).value, k + 1)
  {
    NewsIsNew(limits, s.(patch := Some(Found(key, false))), k);
  }

  lemma {:induction false} Validates(limits: Limits, key: Option<string>, s: State, k: nat)
    requires limits.Valid() && At(key, s, k) && |Hint(s)| <= MAX_IDENTIFIER
    requires k == 10
    ensures Handle(limits, s).Asks? && Resume(limits, s, Script(key, k), BUDGET).Some?
    ensures At(key, Resume(limits, s, Script(key, k), BUDGET).value, k + 1)
  {
    NewsIsNew(limits, s.(patch := Some(Found(key, true))), k);
  }

  lemma {:induction false} Requests(limits: Limits, key: Option<string>, s: State, k: nat)
    requires limits.Valid() && At(key, s, k) && |Hint(s)| <= MAX_IDENTIFIER
    requires k == 11 && key.Some?
    ensures Handle(limits, s).Asks? && Resume(limits, s, Script(key, k), BUDGET).Some?
    ensures At(key, Resume(limits, s, Script(key, k), BUDGET).value, k + 1)
  {
    NewsIsNew(limits, s.(approval := Some(ApprovalRef("approval", "fact", Pending))), k);
  }

  lemma {:induction false} Awaits(limits: Limits, key: Option<string>, s: State, k: nat)
    requires limits.Valid() && At(key, s, k) && |Hint(s)| <= MAX_IDENTIFIER
    requires k == 12 && key.Some?
    ensures Handle(limits, s).Asks? && Resume(limits, s, Script(key, k), BUDGET).Some?
    ensures At(key, Resume(limits, s, Script(key, k), BUDGET).value, k + 1)
  {
    HeardOn(s.observations, k);
  }

  lemma {:induction false} Commits(limits: Limits, key: Option<string>, s: State, k: nat)
    requires limits.Valid() && At(key, s, k) && |Hint(s)| <= MAX_IDENTIFIER
    requires k == 13 && key.Some?
    ensures Handle(limits, s).Asks? && Resume(limits, s, Script(key, k), BUDGET).Some?
    ensures At(key, Resume(limits, s, Script(key, k), BUDGET).value, k + 1)
  {
    NewsIsNew(limits, s.(commit := Some(CommitRef("fact", "resource", "version", "outbox")),
                         stopReason := Some("goal_achieved")), k);
  }

  lemma {:induction false} ScriptHandled(limits: Limits, key: Option<string>, s: State, k: nat)
    requires limits.Valid() && limits.maxCycles >= 3 && k <= 13 && (k >= 11 ==> key.Some?) && At(key, s, k)
    requires |Hint(s)| <= MAX_IDENTIFIER
    ensures Handle(limits, s).Asks? && Resume(limits, s, Script(key, k), BUDGET).Some?
    ensures At(key, Resume(limits, s, Script(key, k), BUDGET).value, k + 1)
  {
    match k
    case 2 => Decides(limits, key, s, k);
    case 3 => Retrieves(limits, key, s, k);
    case 5 => Decides(limits, key, s, k);
    case 6 => Analyzes(limits, key, s, k);
    case 8 => Decides(limits, key, s, k);
    case 9 => Generates(limits, key, s, k);
    case 10 => Validates(limits, key, s, k);
    case 11 => Requests(limits, key, s, k);
    case 12 => Awaits(limits, key, s, k);
    case 13 => Commits(limits, key, s, k);
    case _ => Opens(limits, key, s, k);
  }

  lemma {:induction false} AskedStep(limits: Limits, s: State, answer: Response)
    requires limits.Valid() && s.Shaped() && s.Counted() && Handle(limits, s).Asks?
    requires answer.WellFormed() && answer.requestId == Handle(limits, s).request.id
    ensures Step(limits, s, answer) == Resume(limits, s, answer.data, answer.budget)
  {
  }

  /** Within the script the run identifier leaves room, and the counters are small. */
  lemma {:induction false} ScriptHasRoom(limits: Limits, key: Option<string>, s: State, k: nat)
    requires limits.Valid() && At(key, s, k) && |s.runId| <= 157
    ensures s.Counted() && |Hint(s)| <= MAX_IDENTIFIER
  {
    HintLength(s);
    NamesAreShort(s.node);
    FewDigits(k);
  }

  lemma {:induction false} NextState(limits: Limits, key: Option<string>, s: State, k: nat)
    returns (answer: Response, next: State)
    requires limits.Valid() && limits.maxCycles >= 3 && k <= 13 && (k >= 11 ==> key.Some?) && At(key, s, k)
    requires s.Shaped() && |s.runId| <= 157 && (key.Some? ==> Identifier(key.value))
    ensures Step(limits, s, answer) == Some(next) && At(key, next, k + 1) && next.Shaped() && next.runId == s.runId
  {
    ScriptHasRoom(limits, key, s, k);
    ScriptHandled(limits, key, s, k);
    ScriptFits(key, k);
    BudgetFits();
    answer := Response(Handle(limits, s).request.id, BUDGET, Script(key, k));
    AskedStep(limits, s, answer);
    next := Resume(limits, s, Script(key, k), BUDGET).value;
    ResumeFollows(limits, s, Script(key, k), BUDGET);
    FollowsShaped(s, Script(key, k), BUDGET, next);
  }

  lemma {:induction false} RunOn(limits: Limits, states: seq<State>, answers: seq<Response>, answer: Response, next: State)
    returns (all: seq<State>, given: seq<Response>)
    requires limits.Valid() && Run(limits, states, answers)
    requires Step(limits, states[|answers|], answer) == Some(next)
    ensures Run(limits, all, given) && |given| == |answers| + 1 && all[0] == states[0] && all[|given|] == next
  {
    all, given := states + [next], answers + [answer];
    forall i | 0 <= i < |given|
      ensures Moves(limits, all, given, i)
    {
      if i < |answers| {
        assert Moves(limits, states, answers, i);
      }
    }
  }

  lemma {:induction false} FirstState()
    ensures var s := Initial("run", "request", BUDGET); s.Shaped() && |s.runId| <= 157
    ensures Identifier("run") && Identifier("request") && Identifier("key") && BUDGET.WellFormed()
  {
    NameFits("run");
    NameFits("request");
    NameFits("key");
    BudgetFits();
  }

  lemma {:induction false} Play(limits: Limits, key: Option<string>, n: nat)
    returns (states: seq<State>, answers: seq<Response>)
    requires limits.Valid() && limits.maxCycles >= 3 && n <= 14 && (n >= 12 ==> key.Some?)
    requires key.Some? ==> Identifier(key.value)
    ensures |answers| == n && Run(limits, states, answers)
    ensures At(key, states[n], n) && states[n].Shaped() && states[n].runId == "run"
  {
    if n == 0 {
      FirstState();
      return [Initial("run", "request", BUDGET)], [];
    }
    var played, given := Play(limits, key, n - 1);
    var answer, next := NextState(limits, key, played[n - 1], n - 1);
    states, answers := RunOn(limits, played, given, answer, next);
  }

  // ---- What can be reached ----

  /** A commit can be reached, whatever the other limits, exactly when three cycles are allowed. */
  lemma {:induction false} CommitReachableIff(limits: Limits)
    requires limits.Valid()
    ensures (exists states: seq<State>, answers :: Run(limits, states, answers) && states[|answers|].commit.Some?)
       <==> limits.maxCycles >= 3
  {
    if limits.maxCycles >= 3 {
      FirstState();
      var states, answers := Play(limits, Some("key"), 14);
      assert Run(limits, states, answers) && states[|answers|].commit.Some?;
    } else {
      forall states: seq<State>, answers | Run(limits, states, answers)
        ensures states[|answers|].commit.None?
      {
        RunSpends(limits, states, answers, |answers|);
        RunIsGood(limits, states, answers, |answers|);
      }
    }
  }

  /** So can the state that never moves again: it is no artefact of the limits. */
  lemma {:induction false} StrandedReachableIff(limits: Limits)
    requires limits.Valid()
    ensures (exists states: seq<State>, answers :: Run(limits, states, answers) && Stranded(states[|answers|]))
       <==> limits.maxCycles >= 3
  {
    if limits.maxCycles >= 3 {
      var states, answers := Play(limits, None, 11);
      assert Run(limits, states, answers) && Stranded(states[|answers|]);
    } else {
      forall states: seq<State>, answers | Run(limits, states, answers)
        ensures !Stranded(states[|answers|])
      {
        RunSpends(limits, states, answers, |answers|);
        RunIsGood(limits, states, answers, |answers|);
      }
    }
  }

  // ---- The end ----

  const TIRED := Budget("budget", 0, 0, None, None, false, None)

  /** The shortest way to the end: the budget is spent before the model is asked to decide. */
  function Tired(runId: string, requestFactId: string, k: nat): State {
    var s := Initial(runId, requestFactId, TIRED);
    var informed := s.(goal := Some(Goal("objective", [], "output")), manifest := Some("manifest"));
    match k
    case 0 => s
    case 1 => informed.(node := AssembleContext, sequence := 1)
    case 2 => informed.(node := DecideNextAction, sequence := 2)
    case 3 => informed.(node := RenderOutcome, sequence := 3, stopReason := Some("runtime_budget_exhausted"))
    case _ =>
      informed.(node := End, sequence := 4, stopReason := Some("runtime_budget_exhausted"),
                outcome := Some(OutcomeRef("fact", "artifact", ZERO_HASH)))
  }

  function TiredData(k: nat): Data {
    match k
    case 0 => GoalData(Goal("objective", [], "output"), "manifest")
    case 3 => RenderData(OutcomeRef("fact", "artifact", ZERO_HASH))
    case _ => ContextData("manifest")
  }

  lemma {:induction false} TiredFits(runId: string, requestFactId: string, k: nat)
    requires Identifier(runId) && Identifier(requestFactId) && k <= 3
    ensures Tired(runId, requestFactId, k).Shaped() && Tired(runId, requestFactId, k).Counted()
    ensures TIRED.WellFormed() && TiredData(k).WellFormed()
  {
    NameFits("budget");
    GoalFits();
    OutcomeFits();
  }

  lemma {:induction false} TiredHint(runId: string, requestFactId: string, k: nat)
    requires |runId| <= 162 && (k == 0 || k == 1 || k == 3)
    ensures |Hint(Tired(runId, requestFactId, k))| <= MAX_IDENTIFIER
  {
    HintLength(Tired(runId, requestFactId, k));
    FewDigits(k);
  }

  lemma {:induction false} TiredResumes(limits: Limits, runId: string, requestFactId: string, k: nat)
    requires limits.Valid() && (k == 0 || k == 1 || k == 3)
    requires |Hint(Tired(runId, requestFactId, k))| <= MAX_IDENTIFIER
    ensures var s := Tired(runId, requestFactId, k);
      && Handle(limits, s).Asks? && Handle(limits, s).request.id == RequestId(s)
      && Resume(limits, s, TiredData(k), TIRED) == Some(Tired(runId, requestFactId, k + 1))
  {
  }

  lemma {:induction false} TiredStops(limits: Limits, runId: string, requestFactId: string)
    requires limits.Valid()
    ensures Handle(limits, Tired(runId, requestFactId, 2)) == Stops(Tired(runId, requestFactId, 3))
  {
  }

  lemma {:induction false} TiredStep(limits: Limits, runId: string, requestFactId: string, k: nat)
    returns (s: State, answer: Response, next: State)
    requires limits.Valid() && Identifier(runId) && Identifier(requestFactId) && |runId| <= 162 && k <= 3
    ensures s == Tired(runId, requestFactId, k) && next == Tired(runId, requestFactId, k + 1)
    ensures Step(limits, s, answer) == Some(next)
  {
    s, next := Tired(runId, requestFactId, k), Tired(runId, requestFactId, k + 1);
    TiredFits(runId, requestFactId, k);
    answer := Response(RequestId(s), TIRED, TiredData(k));
    if k == 2 {
      TiredStops(limits, runId, requestFactId);
    } else {
      TiredHint(runId, requestFactId, k);
      TiredResumes(limits, runId, requestFactId, k);
      AskedStep(limits, s, answer);
    }
  }

  lemma {:induction false} TiredRun(limits: Limits, runId: string, requestFactId: string, n: nat)
    returns (states: seq<State>, answers: seq<Response>)
    requires limits.Valid() && Identifier(runId) && Identifier(requestFactId) && |runId| <= 162 && n <= 4
    ensures |answers| == n && Run(limits, states, answers)
    ensures states[0].runId == runId && states[0].requestFactId == requestFactId
    ensures states[n] == Tired(runId, requestFactId, n)
  {
    if n == 0 {
      TiredFits(runId, requestFactId, 0);
      return [Initial(runId, requestFactId, TIRED)], [];
    }
    var tired, given := TiredRun(limits, runId, requestFactId, n - 1);
    var s, answer, next := TiredStep(limits, runId, requestFactId, n - 1);
    states, answers := RunOn(limits, tired, given, answer, next);
  }

  /** Nobody gets past the context with a longer run identifier. */
  lemma {:induction false} ContextAsks(limits: Limits, states: seq<State>, answers: seq<Response>)
    requires limits.Valid() && Run(limits, states, answers) && states[|answers|].node.End?
    ensures |states[0].runId| <= 162
  {
    assert states[0].node.UnderstandGoal? && |answers| > 0;
    assert Moves(limits, states, answers, 0);
    assert states[1].node.AssembleContext? && |answers| > 1;
    assert Moves(limits, states, answers, 1);
    StepIs(limits, states[1], answers[1]);
    SequenceCounts(limits, states, answers, 1);
    HintLength(states[1]);
    FewDigits(1);
  }

  /** Some run comes to its end exactly when its identifier has at most 162 characters. */
  lemma {:induction false} EndReachableIff(limits: Limits, runId: string, requestFactId: string)
    requires limits.Valid() && Identifier(runId) && Identifier(requestFactId)
    ensures (exists states: seq<State>, answers ::
               && Run(limits, states, answers) && states[0].runId == runId && states[0].requestFactId == requestFactId
               && states[|answers|].node.End?)
       <==> |runId| <= 162
  {
    if |runId| <= 162 {
      var states, answers := TiredRun(limits, runId, requestFactId, 4);
      assert Run(limits, states, answers) && states[|answers|].node.End?;
    } else {
      forall states: seq<State>, answers | Run(limits, states, answers) && states[0].runId == runId
        ensures !states[|answers|].node.End?
      {
        if states[|answers|].node.End? {
          ContextAsks(limits, states, answers);
        }
      }
    }
  }
}
