/** No dead ends but one, and no request identifier used twice. */
module GraphProgress {
  import opened Options
  import opened Decimal
  import opened Digests
  import opened GraphModels
  import opened AgentGraph
  import opened GraphRuns
  import opened TextLines

  /** Validation accepted the patch but named no key to commit it under. */
  predicate Stranded(s: State) {
    s.node.RequestApproval? && s.patch.Some? && s.patch.value.targetKey.None?
  }

  function Note(s: State): Observation {
    Observation("note", "fact", ZERO_HASH,
                !exists k | 0 <= k < |s.observations| :: s.observations[k].contentHash == ZERO_HASH)
  }

  const DRAFT := PatchRef("patch", "fact", ZERO_HASH, "resource", "version", true, false, None)

  /** An acceptable answer at every node. */
  function Reply(s: State): Data {
    match s.node
    case UnderstandGoal => GoalData(Goal("objective", [], "output"), "manifest")
    case AssembleContext => ContextData("manifest")
    case DecideNextAction => DecisionData(Decision(Finish, "reason", "", map[], "output"))
    case AwaitUserInput => UserInputData("fact", Note(s))
    case RetrieveEvidence => ToolData(Note(s))
    case ReadDocumentNodes => ToolData(Note(s))
    case AnalyzeEvidence => FindingsData([FindingRef("finding", "fact", ZERO_HASH)], Note(s))
    case GeneratePatch => GeneratedData(DRAFT, Note(s))
    case ValidatePatch => ValidationData(false, if s.patch.Some? then s.patch.value else DRAFT, Note(s))
    case RequestApproval => ApprovalCreatedData(ApprovalRef("approval", "fact", Pending), Note(s))
    case AwaitApproval =>
      ApprovalDecidedData(if s.approval.Some? then s.approval.value.(status := Rejected)
                          else ApprovalRef("approval", "fact", Rejected))
    case CommitPatch =>
      var resourceId := if s.patch.Some? then s.patch.value.resourceId else "resource";
      CommitData(CommitRef("fact", resourceId, "version", "outbox"), Note(s))
    case RenderOutcome => RenderData(OutcomeRef("fact", "artifact", ZERO_HASH))
    case End => RenderData(OutcomeRef("fact", "artifact", ZERO_HASH))
  }

  /** Short texts without surrounding blanks are identifiers. */
  lemma {:induction false} NameFits(s: string)
    requires 0 < |s| <= 100 && !Blank(s[0]) && !Blank(s[|s| - 1])
    ensures Identifier(s) && Text(s, 120)
  {
  }

  lemma {:induction false} NoteFits(s: State)
    ensures Note(s).WellFormed()
  {
    NameFits("note");
    NameFits("fact");
  }

  lemma {:induction false} PatchFits(artifactId: string, key: Option<string>, valid: bool)
    requires Identifier(artifactId) && (key.Some? ==> Identifier(key.value))
    ensures PatchRef(artifactId, "fact", ZERO_HASH, "resource", "version", true, valid, key).WellFormed()
  {
    NameFits("fact");
    NameFits("resource");
    NameFits("version");
  }

  lemma {:induction false} GoalFits()
    ensures GoalData(Goal("objective", [], "output"), "manifest").WellFormed()
    ensures ContextData("manifest").WellFormed()
  {
    NameFits("objective");
    NameFits("output");
    NameFits("manifest");
  }

  lemma {:induction false} DecisionFits(action: ActionKind, tool: string)
    requires tool == "" || Text(tool, 120)
    ensures DecisionData(Decision(action, "reason", tool, map[], "output")).WellFormed()
  {
    NameFits("reason");
    NameFits("output");
  }

  lemma {:induction false} ApprovalFits(status: ApprovalStatus)
    ensures ApprovalRef("approval", "fact", status).WellFormed()
  {
    NameFits("approval");
    NameFits("fact");
  }

  lemma {:induction false} FindingFits()
    ensures FindingRef("finding", "fact", ZERO_HASH).WellFormed()
  {
    NameFits("finding");
    NameFits("fact");
  }

  lemma {:induction false} CommitFits(resourceId: string)
    requires Identifier(resourceId)
    ensures CommitRef("fact", resourceId, "version", "outbox").WellFormed()
  {
    NameFits("fact");
    NameFits("version");
    NameFits("outbox");
  }

  lemma {:induction false} OutcomeFits()
    ensures OutcomeRef("fact", "artifact", ZERO_HASH).WellFormed()
  {
    NameFits("fact");
    NameFits("artifact");
  }

  /** Replies that take nothing over from the state. */
  lemma {:induction false} FreshReplyFits(s: State)
    requires !s.node.ValidatePatch? && !s.node.AwaitApproval? && !s.node.CommitPatch?
    ensures Reply(s).WellFormed()
  {
    NoteFits(s);
    match s.node
    case UnderstandGoal => GoalFits();
    case AssembleContext => GoalFits();
    case DecideNextAction => DecisionFits(Finish, "");
    case AwaitUserInput => NameFits("fact");
    case AnalyzeEvidence => FindingFits();
    case GeneratePatch =>
      NameFits("patch");
      PatchFits("patch", None, false);
    case RequestApproval => ApprovalFits(Pending);
    case RenderOutcome => OutcomeFits();
    case End => OutcomeFits();
    case _ =>
  }

  lemma {:induction false} PatchReplyFits(s: State)
    requires s.node.ValidatePatch? && (s.patch.Some? ==> s.patch.value.WellFormed())
    ensures Reply(s).WellFormed()
  {
    NoteFits(s);
    NameFits("patch");
    PatchFits("patch", None, false);
  }

  lemma {:induction false} ApprovalReplyFits(s: State)
    requires s.node.AwaitApproval? && (s.approval.Some? ==> s.approval.value.WellFormed())
    ensures Reply(s).WellFormed()
  {
    ApprovalFits(Rejected);
  }

  lemma {:induction false} CommitReplyFits(s: State)
    requires s.node.CommitPatch? && (s.patch.Some? ==> Identifier(s.patch.value.resourceId))
    ensures Reply(s).WellFormed()
  {
    NoteFits(s);
    NameFits("resource");
    CommitFits(if s.patch.Some? then s.patch.value.resourceId else "resource");
  }

  lemma {:induction false} ReplyFits(s: State)
    requires s.Shaped()
    ensures Reply(s).WellFormed()
  {
    match s.node
    case ValidatePatch => PatchReplyFits(s);
    case AwaitApproval => ApprovalReplyFits(s);
    case CommitPatch => CommitReplyFits(s);
    case _ => FreshReplyFits(s);
  }

  function Answer(limits: Limits, s: State): Response {
    var prepared := Prepare(limits, s);
    Response(if prepared.Asks? then prepared.request.id else "", s.budget, Reply(s))
  }

  lemma {:induction false} AskedAccepted(limits: Limits, s: State)
    requires limits.Valid() && Good(limits, s) && !s.node.End? && !Stranded(s)
    ensures Resume(limits, s, Reply(s), s.budget).Some?
    ensures !Resume(limits, s, Reply(s), s.budget).value.node.RequestApproval?
  {
  }

  /** The node's request needs a longer identifier than there can be. */
  predicate Crowded(limits: Limits, s: State) {
    Asking(limits, s) && |Hint(s)| > MAX_IDENTIFIER
  }

  /** Nothing in the state stands in the way. */
  predicate Free(limits: Limits, s: State) {
    !s.node.End? && !Stranded(s) && s.Shaped() && s.Counted() && !Crowded(limits, s)
  }

  lemma {:induction false} ReplyAccepted(limits: Limits, s: State)
    requires limits.Valid() && Good(limits, s) && Free(limits, s)
    ensures Step(limits, s, Answer(limits, s)).Some?
  {
    RefusesIff(limits, s);
    if Prepare(limits, s).Asks? {
      ReplyFits(s);
      AskedAccepted(limits, s);
    }
  }

  lemma {:induction false} ReplyFrees(limits: Limits, s: State)
    requires limits.Valid() && Good(limits, s) && !s.node.End? && !Stranded(s)
    requires Step(limits, s, Answer(limits, s)).Some?
    ensures !Stranded(Step(limits, s, Answer(limits, s)).value)
  {
    StepIs(limits, s, Answer(limits, s));
    if Prepare(limits, s).Stops? {
      StopsOnlyHere(limits, s);
    } else {
      AskedAccepted(limits, s);
    }
  }

  /** The acceptable answer leads to a good state nearer the end. */
  lemma {:induction false} ReplyMovesOn(limits: Limits, s: State)
    requires limits.Valid() && Good(limits, s) && Free(limits, s)
    ensures Step(limits, s, Answer(limits, s)).Some?
    ensures var next := Step(limits, s, Answer(limits, s)).value;
      && Good(limits, next) && next.Shaped() && !Stranded(next) && next.runId == s.runId && next.cycles <= limits.maxCycles
      && (limits.maxCycles - next.cycles < limits.maxCycles - s.cycles
          || (next.cycles == s.cycles && Rank(next.node) < Rank(s.node)))
  {
    ReplyAccepted(limits, s);
    ReplyFrees(limits, s);
    StepKeepsGood(limits, s, Answer(limits, s));
    StepKeepsShape(limits, s, Answer(limits, s));
    StepDescends(limits, s, Answer(limits, s));
  }

  // ---- How long identifiers get ----

  lemma {:induction false} HintLength(s: State)
    ensures |Hint(s)| == |s.runId| + |s.node.Name()| + |Suffix(s.node)| + |Digits(s.sequence)| + 15
  {
  }

  lemma {:induction false} NamesAreShort(node: NodeName)
    ensures |node.Name()| + |Suffix(node)| <= 24
  {
  }

  /** A run identifier of 157 characters leaves room for every request. */
  lemma {:induction false} RoomForHints(limits: Limits, s: State)
    requires s.sequence < 10_000 && |s.runId| <= 157
    ensures !Crowded(limits, s)
  {
    HintLength(s);
    NamesAreShort(s.node);
    FewDigits(s.sequence);
  }

  /** From every state of a run that is not stranded there is a way to the end, when the run
      identifier is not too long and the limits keep the counters within bounds. */
  lemma {:induction false} CanFinish(limits: Limits, s: State) returns (states: seq<State>, answers: seq<Response>)
    requires limits.Valid() && Good(limits, s) && s.Shaped() && !Stranded(s)
    requires Bounded(limits) && |s.runId| <= 157
    ensures |states| == |answers| + 1 && states[0] == s && states[|answers|].node.End?
    ensures forall i | 0 <= i < |answers| :: Step(limits, states[i], answers[i]) == Some(states[i + 1])
    decreases limits.maxCycles - s.cycles, Rank(s.node)
  {
    if s.node.End? {
      return [s], [];
    }
    GoodIsCounted(limits, s);
    RoomForHints(limits, s);
    var answer := Answer(limits, s);
    ReplyMovesOn(limits, s);
    states, answers := CanFinish(limits, Step(limits, s, answer).value);
    states, answers := [s] + states, [answer] + answers;
  }

  // ---- Where nothing moves on ----

  lemma {:induction false} RefusedIsStuck(limits: Limits, s: State)
    requires limits.Valid() && Prepare(limits, s).Refuses?
    ensures forall answer :: Step(limits, s, answer).None?
  {
  }

  /** In a run, no answer at all moves on exactly at the end, from a stranded state, past a
      bound of the schema, and where the request would need too long an identifier. */
  lemma {:induction false} StuckIff(limits: Limits, states: seq<State>, answers: seq<Response>, n: nat)
    requires limits.Valid() && Run(limits, states, answers) && n < |states|
    ensures (forall answer :: Step(limits, states[n], answer).None?)
       <==> states[n].node.End? || Stranded(states[n]) || !states[n].Counted() || Crowded(limits, states[n])
  {
    var s := states[n];
    RunIsGood(limits, states, answers, n);
    RunIsShaped(limits, states, answers, n);
    RefusesIff(limits, s);
    if Free(limits, s) {
      ReplyAccepted(limits, s);
    } else {
      RefusedIsStuck(limits, s);
    }
  }

  /** With limits and run identifiers that leave room, only two states are stuck. */
  lemma {:induction false} RoomyStuckIff(limits: Limits, states: seq<State>, answers: seq<Response>, n: nat)
    requires limits.Valid() && Run(limits, states, answers) && n < |states|
    requires Bounded(limits) && |states[0].runId| <= 157
    ensures (forall answer :: Step(limits, states[n], answer).None?) <==> states[n].node.End? || Stranded(states[n])
  {
    StuckIff(limits, states, answers, n);
    RunIsGood(limits, states, answers, n);
    GoodIsCounted(limits, states[n]);
    SequenceCounts(limits, states, answers, n);
    RoomForHints(limits, states[n]);
  }

  /** A run identifier can be so long that the very first node is stuck. */
  lemma {:induction false} FirstNodeStuckIff(limits: Limits, runId: string, requestFactId: string, budget: Budget)
    requires limits.Valid() && Identifier(runId) && Identifier(requestFactId) && budget.WellFormed()
    ensures (forall answer :: Step(limits, Initial(runId, requestFactId, budget), answer).None?) <==> |runId| >= 164
  {
    var s := Initial(runId, requestFactId, budget);
    StuckIff(limits, [s], [], 0);
    HintLength(s);
    FewDigits(0);
  }

  // ---- Request identifiers ----

  predicate NoColon(s: string) {
    forall i | 0 <= i < |s| :: s[i] != ':'
  }

  lemma {:induction false} FirstColon(a: string, x: string, b: string, y: string)
    requires NoColon(a) && NoColon(b)
    requires a + ":" + x == b + ":" + y
    ensures a == b && x == y
  {
    var s, t := a + ":" + x, b + ":" + y;
    assert s[|a|] == ':' && t[|b|] == ':';
    assert |a| == |b|;
    assert s[..|a|] == a && t[..|a|] == b;
    assert s[|a| + 1..] == x && t[|a| + 1..] == y;
  }

  lemma {:induction false} NameHasNoColon(node: NodeName)
    ensures NoColon(node.Name())
  {
    match node
    case UnderstandGoal => assert NoColon("UnderstandGoal");
    case AssembleContext => assert NoColon("AssembleContext");
    case DecideNextAction => assert NoColon("DecideNextAction");
    case RetrieveEvidence => assert NoColon("RetrieveEvidence");
    case ReadDocumentNodes => assert NoColon("ReadDocumentNodes");
    case AnalyzeEvidence => assert NoColon("AnalyzeEvidence");
    case GeneratePatch => assert NoColon("GeneratePatch");
    case ValidatePatch => assert NoColon("ValidatePatch");
    case RequestApproval => assert NoColon("RequestApproval");
    case AwaitApproval => assert NoColon("AwaitApproval");
    case CommitPatch => assert NoColon("CommitPatch");
    case RenderOutcome => assert NoColon("RenderOutcome");
    case AwaitUserInput => assert NoColon("AwaitUserInput");
    case End => assert NoColon("End");
  }

  /** Requests of one run have different identifiers as soon as their positions differ. */
  lemma {:induction false} RequestIdsDiffer(s: State, t: State)
    requires s.runId == t.runId && s.sequence != t.sequence
    ensures RequestId(s) != RequestId(t)
  {
    if RequestId(s) == RequestId(t) {
      var x := s.node.Name() + ":" + (Digits(s.sequence) + ":" + Suffix(s.node));
      var y := t.node.Name() + ":" + (Digits(t.sequence) + ":" + Suffix(t.node));
      var prefix := s.runId + ":";
      assert RequestId(s) == prefix + x;
      assert RequestId(t) == prefix + y;
      assert (prefix + x)[|prefix|..] == x && (prefix + y)[|prefix|..] == y;
      NameHasNoColon(s.node);
      NameHasNoColon(t.node);
      FirstColon(s.node.Name(), Digits(s.sequence) + ":" + Suffix(s.node),
                 t.node.Name(), Digits(t.sequence) + ":" + Suffix(t.node));
      DigitsRead(s.sequence);
      DigitsRead(t.sequence);
      FirstColon(Digits(s.sequence), Suffix(s.node), Digits(t.sequence), Suffix(t.node));
    }
  }

  lemma {:induction false} IdOfRequest(limits: Limits, s: State)
    requires Prepare(limits, s).Asks?
    ensures Prepare(limits, s).request.id == RequestId(s)
  {
  }

  lemma {:induction false} RunRequestsDiffer(limits: Limits, states: seq<State>, answers: seq<Response>, i: nat, j: nat)
    requires limits.Valid() && Run(limits, states, answers) && i < j < |states|
    requires Prepare(limits, states[i]).Asks? && Prepare(limits, states[j]).Asks?
    ensures Prepare(limits, states[i]).request.id != Prepare(limits, states[j]).request.id
  {
    SequenceCounts(limits, states, answers, i);
    SequenceCounts(limits, states, answers, j);
    IdOfRequest(limits, states[i]);
    IdOfRequest(limits, states[j]);
    RequestIdsDiffer(states[i], states[j]);
  }
}
