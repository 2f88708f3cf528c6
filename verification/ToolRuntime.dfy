/** One tool execution against boundaries that may answer anything: what is asked, in which
    order, how often, and what a success is worth. */
module ToolRuntime {
  import opened Options

  datatype Category = InvalidInput | Unauthorized | ApprovalRequired | IdempotencyConflict | RateLimited
                    | RetryableUpstream | PermanentFailure | Timeout | Cancelled | InvalidOutput

  datatype Definition = Definition(name: string, version: string, requiresResource: bool, documentResource: bool,
                                   requiresApproval: bool, sideEffecting: bool, maxAttempts: int,
                                   maxInline: int, maxTokens: Option<int>, maxSummary: int)
  {
    predicate Valid() { 1 <= maxAttempts <= 10 }
  }

  datatype Context = Context(workspaceId: string, runId: string, stepId: string, resourceId: string)

  datatype Intent = Intent(idempotencyKey: string, approvalId: Option<string>, patchHash: Option<string>)

  /** What an approval is an approval of; the step that asked for it is not part of it. */
  datatype Authority = Authority(workspaceId: string, runId: string, resourceId: string, name: string, version: string,
                                 idempotencyKey: string, inputHash: string, patchHash: string)

  datatype Grant = Grant(approvalId: string, approved: bool, authority: Authority)

  datatype Output = Output(bytes: int, tokens: int, hash: string)

  datatype Reference = Reference(workspaceId: string, runId: string, stepId: string, name: string, version: string,
                                 hash: string, bytes: int)

  datatype ToolResult = Inline(output: Output) | Stored(reference: Reference, summaryBytes: int)

  datatype Claim = Claim(acquired: bool, running: bool, recovered: bool, result: Option<ToolResult>)

  datatype Answer<+T> = Raised | Answered(value: T)

  datatype ClaimAnswer = ClaimConflict | ClaimRaised | Claimed(claim: Claim)

  datatype Reply = Result(output: Output) | NoResult | TimedOut | Stopped | Failure(category: Category) | Crashed

  datatype Persisted = PersistStopped | PersistRaised | Persisted(reference: Reference)

  /** Every answer the boundaries will give; attempts are answered one by one. */
  datatype World = World(decoded: bool, resource: Option<string>, inputHash: string, policy: Answer<bool>,
                         approval: Answer<Option<Grant>>, rate: Answer<bool>, claim: ClaimAnswer,
                         recovery: Reply, attempts: nat -> Reply, sleepStopped: nat -> bool,
                         outputValid: Output -> bool, counterReady: bool, persisted: Persisted,
                         summaryBytes: Reference -> int, finished: bool)

  /** Calls made on the boundaries. */
  datatype Step = AskPolicy | LoadApproval | CheckRate | ClaimCall | Recover | Execute(attempt: nat) | Sleep
                | Persist | FinishCall

  datatype Observation = Refused(category: Category) | Replayed(claim: Claim)
                       | Finished(result: Option<ToolResult>, failure: Option<Category>, attempts: nat)

  // ---- What must hold before the backend is called ----

  function Key(context: Context, intent: Intent): string {
    if intent.idempotencyKey != "" then intent.idempotencyKey else "agent-step:" + context.stepId
  }

  predicate ResourceFits(w: World, d: Definition, context: Context) {
    d.requiresResource ==> w.resource.Some? && (d.documentResource ==> w.resource.value == context.resourceId)
  }

  function Needed(w: World, d: Definition, context: Context, intent: Intent): Authority
    requires intent.patchHash.Some?
  {
    Authority(context.workspaceId, context.runId, context.resourceId, d.name, d.version, Key(context, intent),
              w.inputHash, intent.patchHash.value)
  }

  predicate ApprovalFits(w: World, d: Definition, context: Context, intent: Intent) {
    d.requiresApproval ==>
      && intent.approvalId.Some? && intent.patchHash.Some?
      && w.approval.Answered? && w.approval.value.Some?
      && w.approval.value.value.approved
      && w.approval.value.value.approvalId == intent.approvalId.value
      && w.approval.value.value.authority == Needed(w, d, context, intent)
  }

  /** Everything that stands before the backend. */
  predicate MayRun(w: World, d: Definition, context: Context, intent: Intent) {
    && w.decoded && ResourceFits(w, d, context)
    && w.policy == Answered(true)
    && ApprovalFits(w, d, context, intent)
    && w.rate == Answered(true)
    && w.claim.Claimed? && w.claim.claim.acquired
  }

  /** The boundaries asked before the backend, in order. */
  function Opening(d: Definition): seq<Step> {
    [AskPolicy] + (if d.requiresApproval then [LoadApproval] else []) + [CheckRate, ClaimCall]
  }

  /** None, when the execution may go on; otherwise why it stops, with nothing run. */
  method Preflight(w: World, d: Definition, context: Context, intent: Intent)
    returns (stop: Option<Observation>, trace: seq<Step>)
    ensures stop.None? <==> MayRun(w, d, context, intent)
    ensures stop.None? ==> trace == Opening(d)
    ensures trace <= Opening(d)
    ensures stop.Some? ==>
      (stop.value.Refused? || (stop.value.Replayed? && w.claim == Claimed(stop.value.claim) && !stop.value.claim.acquired))
    ensures stop == Some(Refused(InvalidInput)) <==> !w.decoded
    ensures stop == Some(Refused(RateLimited)) <==>
      w.decoded && ResourceFits(w, d, context) && w.policy == Answered(true) && ApprovalFits(w, d, context, intent)
      && w.rate == Answered(false)
  {
    trace := [];
    if !w.decoded {
      return Some(Refused(InvalidInput)), trace;
    }
    if !ResourceFits(w, d, context) {
      return Some(Refused(Unauthorized)), trace;
    }
    trace := [AskPolicy];
    if w.policy.Raised? || !w.policy.value {
      return Some(Refused(Unauthorized)), trace;
    }
    if d.requiresApproval {
      if intent.approvalId.None? || intent.patchHash.None? {
        return Some(Refused(ApprovalRequired)), trace;
      }
      trace := trace + [LoadApproval];
      if w.approval.Raised? {
        return Some(Refused(Unauthorized)), trace;
      }
      if w.approval.value.None? || !w.approval.value.value.approved {
        return Some(Refused(ApprovalRequired)), trace;
      }
      var grant := w.approval.value.value;
      if grant.approvalId != intent.approvalId.value || grant.authority != Needed(w, d, context, intent) {
        return Some(Refused(IdempotencyConflict)), trace;
      }
    }
    trace := trace + [CheckRate];
    if w.rate.Raised? {
      return Some(Refused(PermanentFailure)), trace;
    }
    if !w.rate.value {
      return Some(Refused(RateLimited)), trace;
    }
    trace := trace + [ClaimCall];
    match w.claim
    case ClaimConflict => stop := Some(Refused(IdempotencyConflict));
    case ClaimRaised => stop := Some(Refused(PermanentFailure));
    case Claimed(claim) => stop := if claim.acquired then None else Some(Replayed(claim));
  }

  // ---- Running the backend ----

  datatype Ran = Got(output: Output) | Broke(category: Category)

  predicate Retried(w: World, n: nat) {
    w.attempts(n) == Failure(RetryableUpstream) && !w.sleepStopped(n)
  }

  /** Attempts 1 to n with a pause between them. */
  function Attempts(n: nat): seq<Step> {
    if n == 0 then [] else if n == 1 then [Execute(1)] else Attempts(n - 1) + [Sleep, Execute(n)]
  }

  function Verdict(w: World, d: Definition, n: nat): Ran {
    match w.attempts(n)
    case Result(output) => Got(output)
    case NoResult => Broke(PermanentFailure)
    case TimedOut => Broke(Timeout)
    case Stopped => Broke(Cancelled)
    case Failure(category) =>
      if category.RetryableUpstream? && n < d.maxAttempts && w.sleepStopped(n) then Broke(Cancelled)
      else Broke(category)
    case Crashed => Broke(PermanentFailure)
  }

  /** Attempts are made until one is not to be retried: all before the last failed
      retryably, the last decides, and there are never more than the definition allows. */
  method RunAttempts(w: World, d: Definition) returns (ran: Ran, n: nat, trace: seq<Step>)
    requires d.Valid()
    ensures 1 <= n <= d.maxAttempts
    ensures forall k | 1 <= k < n :: Retried(w, k)
    ensures n < d.maxAttempts ==> !Retried(w, n)
    ensures ran == Verdict(w, d, n)
    ensures trace == Attempts(n) || (ran == Broke(Cancelled) && trace == Attempts(n) + [Sleep])
  {
    n := 0;
    trace := [];
    while true
      invariant n < d.maxAttempts && (forall k | 1 <= k <= n :: Retried(w, k))
      invariant trace == if n == 0 then [] else Attempts(n) + [Sleep]
      decreases d.maxAttempts - n
    {
      n := n + 1;
      trace := trace + [Execute(n)];
      assert trace == Attempts(n);
      match w.attempts(n)
      case Result(output) => return Got(output), n, trace;
      case NoResult => return Broke(PermanentFailure), n, trace;
      case TimedOut => return Broke(Timeout), n, trace;
      case Stopped => return Broke(Cancelled), n, trace;
      case Crashed => return Broke(PermanentFailure), n, trace;
      case Failure(category) =>
        if !category.RetryableUpstream? || n >= d.maxAttempts {
          return Broke(category), n, trace;
        }
        trace := trace + [Sleep];
        if w.sleepStopped(n) {
          return Broke(Cancelled), n, trace;
        }
    }
  }

  /** A recovered call asks the backend for a receipt first; without one a tool with side
      effects is not run again. */
  method RunBackend(w: World, d: Definition, recovered: bool) returns (ran: Ran, n: nat, trace: seq<Step>)
    requires d.Valid()
    ensures n <= d.maxAttempts && Executes(trace) == n
    ensures recovered && d.sideEffecting ==> n == 0
    ensures recovered && w.recovery.Result? ==> n == 0 && ran == Got(w.recovery.output)
    ensures n > 0 ==> (forall k | 1 <= k < n :: Retried(w, k)) && ran == Verdict(w, d, n)
    ensures n == 0 ==> recovered && (ran.Got? ==> w.recovery == Result(ran.output))
    ensures (if recovered then [Recover] else []) <= trace
    ensures forall k | 0 <= k < |trace| :: trace[k].Recover? || trace[k].Execute? || trace[k].Sleep?
  {
    trace := [];
    n := 0;
    if recovered {
      trace := [Recover];
      match w.recovery
      case Result(output) => return Got(output), 0, trace;
      case TimedOut => return Broke(Timeout), 0, trace;
      case Stopped => return Broke(Cancelled), 0, trace;
      case _ =>
        if d.sideEffecting {
          return Broke(PermanentFailure), 0, trace;
        }
    }
    var more;
    ran, n, more := RunAttempts(w, d);
    AttemptSteps(n);
    ExecutesAppend(trace, more);
    ExecutesAppend(Attempts(n), [Sleep]);
    trace := trace + more;
  }

  function Executes(trace: seq<Step>): nat {
    if trace == [] then 0
    else Executes(trace[..|trace| - 1]) + if trace[|trace| - 1].Execute? then 1 else 0
  }

  lemma {:induction false} ExecutesAppend(a: seq<Step>, b: seq<Step>)
    ensures Executes(a + b) == Executes(a) + Executes(b)
  {
    if b == [] {
      assert a + b == a;
    } else {
      assert (a + b)[..|a + b| - 1] == a + b[..|b| - 1];
      ExecutesAppend(a, b[..|b| - 1]);
    }
  }

  lemma {:induction false} AttemptSteps(n: nat)
    ensures Executes(Attempts(n)) == n
    ensures forall k | 0 <= k < |Attempts(n)| :: Attempts(n)[k].Execute? || Attempts(n)[k].Sleep?
  {
    if n == 1 {
      assert [Execute(1)][..0] == [];
    } else if n > 1 {
      AttemptSteps(n - 1);
      ExecutesAppend(Attempts(n - 1), [Sleep, Execute(n)]);
      assert [Sleep, Execute(n)][..1] == [Sleep] && [Sleep][..0] == [];
    }
  }

  // ---- Bounding a result ----

  predicate WithinTokens(d: Definition, output: Output) {
    d.maxTokens.Some? ==> 0 <= output.tokens <= d.maxTokens.value
  }

  predicate BoundTo(reference: Reference, d: Definition, context: Context, output: Output) {
    && reference.workspaceId == context.workspaceId && reference.runId == context.runId
    && reference.stepId == context.stepId && reference.name == d.name && reference.version == d.version
    && reference.hash == output.hash && reference.bytes == output.bytes
  }

  /** Small enough to be handed on, or stored under its own hash and summarised in bounds. */
  predicate Bounded(result: ToolResult, d: Definition, context: Context, output: Output) {
    match result
    case Inline(o) => o == output && output.bytes <= d.maxInline && WithinTokens(d, output)
    case Stored(reference, summaryBytes) => BoundTo(reference, d, context, output) && summaryBytes <= d.maxSummary
  }

  method BoundResult(w: World, d: Definition, context: Context, output: Output)
    returns (result: Option<ToolResult>, category: Category, trace: seq<Step>)
    ensures result.Some? ==> Bounded(result.value, d, context, output)
    ensures trace == [] || trace == [Persist]
    ensures trace == [Persist] ==> output.bytes > d.maxInline || !WithinTokens(d, output)
    ensures result.None? ==> category.PermanentFailure? || category.Cancelled?
  {
    trace, category := [], PermanentFailure;
    if d.maxTokens.Some? && (!w.counterReady || output.tokens < 0) {
      return None, category, trace;
    }
    if output.bytes <= d.maxInline && (d.maxTokens.None? || output.tokens <= d.maxTokens.value) {
      return Some(Inline(output)), category, trace;
    }
    trace := [Persist];
    if w.persisted.PersistStopped? {
      return None, Cancelled, trace;
    }
    if w.persisted.PersistRaised? || !BoundTo(w.persisted.reference, d, context, output) {
      return None, category, trace;
    }
    var summaryBytes := w.summaryBytes(w.persisted.reference);
    if summaryBytes > d.maxSummary {
      return None, category, trace;
    }
    result := Some(Stored(w.persisted.reference, summaryBytes));
  }

  // ---- A whole execution ----

  function Finishes(trace: seq<Step>): nat {
    if trace == [] then 0
    else Finishes(trace[..|trace| - 1]) + if trace[|trace| - 1].FinishCall? then 1 else 0
  }

  lemma {:induction false} FinishesOnce(before: seq<Step>)
    requires forall k | 0 <= k < |before| :: !before[k].FinishCall?
    ensures Finishes(before) == 0 && Finishes(before + [FinishCall]) == 1
    ensures Executes(before + [FinishCall]) == Executes(before)
  {
    if before != [] {
      FinishesOnce(before[..|before| - 1]);
    }
    assert (before + [FinishCall])[..|before|] == before;
  }

  lemma {:induction false} NothingRuns(trace: seq<Step>)
    requires forall k | 0 <= k < |trace| :: !trace[k].Execute? && !trace[k].FinishCall?
    ensures Executes(trace) == 0 && Finishes(trace) == 0
  {
    if trace != [] {
      NothingRuns(trace[..|trace| - 1]);
    }
  }

  /** What is found out between the claim and its finish. */
  method RunClaimed(w: World, d: Definition, context: Context, recovered: bool)
    returns (result: Option<ToolResult>, category: Option<Category>, attempts: nat, trace: seq<Step>)
    requires d.Valid()
    ensures Executes(trace) <= d.maxAttempts && Executes(trace) <= attempts <= Executes(trace) + 1
    ensures recovered && d.sideEffecting ==> Executes(trace) == 0
    ensures recovered ==> trace != [] && trace[0].Recover?
    ensures result.Some? <==> category.None?
    ensures result.Some? ==> exists output ::
      && Bounded(result.value, d, context, output) && w.outputValid(output)
      && (if Executes(trace) == 0 then w.recovery == Result(output) else w.attempts(Executes(trace)) == Result(output))
    ensures forall k | 1 <= k < Executes(trace) :: Retried(w, k)
    ensures forall k | 0 <= k < |trace| :: !trace[k].FinishCall?
  {
    var ran, n;
    ran, n, trace := RunBackend(w, d, recovered);
    if ran.Broke? {
      return None, Some(ran.category), n, trace;
    }
    attempts := if n < 1 then 1 else n;
    if !w.outputValid(ran.output) {
      return None, Some(InvalidOutput), attempts, trace;
    }
    var bounded, why, more := BoundResult(w, d, context, ran.output);
    ExecutesAppend(trace, more);
    PersistRunsNothing(more);
    trace := trace + more;
    result, category := bounded, if bounded.Some? then None else Some(why);
  }

  /** Past every gate: the claim is used and then finished, once. */
  method RunAndFinish(w: World, d: Definition, context: Context, opening: seq<Step>)
    returns (o: Observation, trace: seq<Step>)
    requires d.Valid() && w.claim.Claimed?
    requires forall k | 0 <= k < |opening| :: !opening[k].Execute? && !opening[k].FinishCall?
    ensures opening <= trace && trace != [] && trace[|trace| - 1].FinishCall? && Finishes(trace) == 1
    ensures Executes(trace) <= d.maxAttempts && forall k | 1 <= k < Executes(trace) :: Retried(w, k)
    ensures w.claim.claim.recovered && d.sideEffecting ==> Executes(trace) == 0
    ensures o.Finished? && (o.result.Some? ==> o.failure.None? && exists output ::
      && Bounded(o.result.value, d, context, output) && w.outputValid(output)
      && (if Executes(trace) == 0 then w.recovery == Result(output) else w.attempts(Executes(trace)) == Result(output)))
  {
    NothingRuns(opening);
    var result, category, attempts, more := RunClaimed(w, d, context, w.claim.claim.recovered);
    ExecutesAppend(opening, more);
    trace := opening + more;
    FinishesOnce(trace);
    trace := trace + [FinishCall];
    o := if w.finished then Finished(result, category, attempts) else Finished(None, Some(PermanentFailure), attempts);
  }

  lemma {:induction false} PersistRunsNothing(trace: seq<Step>)
    requires trace == [] || trace == [Persist]
    ensures Executes(trace) == 0
  {
    NothingRuns(trace);
  }

  method ExecuteTool(w: World, d: Definition, context: Context, intent: Intent)
    returns (o: Observation, trace: seq<Step>)
    requires d.Valid()
    // the backend and the audit's end are reached only past every gate, asked in order
    ensures MayRun(w, d, context, intent) ==> Opening(d) <= trace && trace[|trace| - 1].FinishCall? && Finishes(trace) == 1
    ensures !MayRun(w, d, context, intent) ==> trace <= Opening(d) && Executes(trace) == 0 && Finishes(trace) == 0
    // attempts are bounded, and none is made blindly after a recovery
    ensures Executes(trace) <= d.maxAttempts && forall k | 1 <= k < Executes(trace) :: Retried(w, k)
    ensures MayRun(w, d, context, intent) && w.claim.claim.recovered && d.sideEffecting ==> Executes(trace) == 0
    // a success is a valid output of the last attempt or the receipt, within its bounds
    ensures o.Finished? && o.result.Some? ==> MayRun(w, d, context, intent) && o.failure.None? && exists output ::
      && Bounded(o.result.value, d, context, output) && w.outputValid(output)
      && (if Executes(trace) == 0 then w.recovery == Result(output) else w.attempts(Executes(trace)) == Result(output))
    // an exhausted limit is reported when nothing before it failed
    ensures o == Refused(RateLimited) <==>
      w.decoded && ResourceFits(w, d, context) && w.policy == Answered(true) && ApprovalFits(w, d, context, intent)
      && w.rate == Answered(false)
    // a call claimed by someone else is answered with that claim
    ensures o.Replayed? ==> w.claim == Claimed(o.claim) && !o.claim.acquired
  {
    var stop;
    stop, trace := Preflight(w, d, context, intent);
    NothingRuns(trace);
    if stop.Some? {
      return stop.value, trace;
    }
    o, trace := RunAndFinish(w, d, context, trace);
  }
}
