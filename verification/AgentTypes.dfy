/** The vocabulary of an agent run: model messages, tool calls, and the choices
    the environment makes (model output, tool outcomes, cancellation). A run is
    verified for every `script` of choices. */
module AgentTypes {
  import opened Common
  import opened Sse

  datatype RunInput = RunInput(threadId: string, runId: string)

  datatype ToolCall = ToolCall(id: string, name: string, arguments: string)

  /** What the model is told about a tool call: the text, and the citation
      labels a decoder finds in it. A repeated identical call wraps it. */
  datatype Feedback =
    | Feedback(text: string, labels: seq<string>)
    | Repeated(name: string, times: nat, result: Feedback)
  {
    function Labels(): seq<string> {
      match this
      case Feedback(_, labels) => labels
      case Repeated(_, _, result) => result.Labels()
    }
  }

  datatype Message =
    | System(content: string)
    | User(content: string)
    | Assistant(content: string, reasoning: string, toolCalls: seq<ToolCall>)
    | ToolReply(callId: string, feedback: Feedback)

  datatype Ctx = Alive | Cancelled | DeadlineExceeded

  // ----- Tool outcomes

  datatype Execution =
    | AuditUnavailable
    | Proposed(approvalId: string)
    | Completed(streamed: string, feedback: Feedback)
    | Panicked

  datatype ProposalCreation = Disabled | NotPersisted(code: string) | Created(approvalId: string)

  /** What resolving a call leads to. */
  datatype Resolution =
    | UnknownTool
    | Forbidden
    | ApprovalRequired(creation: ProposalCreation)
    | InvalidArguments
    | Ready(execution: Execution)

  /** A tool call of the model together with everything the environment will
      do with it: whether it resolves when the turn decides how to run its
      calls, what resolving it again leads to when it runs, and the state of the
      request context once it has been processed. */
  datatype PlannedCall = PlannedCall(call: ToolCall, probed: bool, resolution: Resolution, ctxAfter: Ctx)

  predicate Panics(c: PlannedCall) {
    c.resolution == Resolution.Ready(Panicked)
  }

  function ApprovalId(c: PlannedCall): Option<string> {
    match c.resolution
    case ApprovalRequired(Created(id)) => Some(id)
    case Ready(Proposed(id)) => Some(id)
    case _ => None
  }

  /** The call pauses the run for a human decision. */
  predicate Pends(c: PlannedCall) {
    ApprovalId(c).Some?
  }

  /** The call reports a proposal a client can resume. */
  predicate Names(c: PlannedCall) {
    match ApprovalId(c) case Some(id) => |id| > 0 case None => false
  }

  /** The tool's code runs. */
  predicate Executes(c: PlannedCall) {
    c.resolution.Ready? && !c.resolution.execution.AuditUnavailable?
  }

  const FORBIDDEN := "{\"error\":\"forbidden\"}"
  const UNKNOWN_TOOL := "{\"error\":\"unknown_tool\"}"
  const INVALID_ARGUMENTS := "{\"error\":\"invalid_arguments\"}"
  const AUDIT_UNAVAILABLE := "{\"error\":\"ai.tool_persistence_unavailable\"}"
  const DENIED := "{\"denied\":\"approval_unavailable\"}"
  const SKIPPED := "{\"error\":\"skipped_pending_approval\"}"
  const EXECUTION_FAILED := "{\"error\":\"ai.tool_execution_failed\"}"

  function WaitingText(id: string): string {
    "{\"approvalId\":\"" + id
    + "\",\"note\":\"Người dùng cần phê duyệt trước khi hành động được thực hiện.\",\"status\":\"WAITING_APPROVAL\"}"
  }

  function ProposalPayload(id: string): Payload {
    Payload("{\"proposal\":{\"id\":\"" + id + "\"}}", id)
  }

  /** What the model is told about the call. */
  function FeedbackOf(c: PlannedCall): Feedback {
    match c.resolution
    case UnknownTool => Feedback(UNKNOWN_TOOL, [])
    case Forbidden => Feedback(FORBIDDEN, [])
    case InvalidArguments => Feedback(INVALID_ARGUMENTS, [])
    case ApprovalRequired(Created(id)) => Feedback(WaitingText(id), [])
    case ApprovalRequired(_) => Feedback(DENIED, [])
    case Ready(AuditUnavailable) => Feedback(AUDIT_UNAVAILABLE, [])
    case Ready(Proposed(id)) => Feedback(WaitingText(id), [])
    case Ready(Completed(_, feedback)) => feedback
    case Ready(Panicked) => Feedback(EXECUTION_FAILED, [])
  }

  function Emit(input: RunInput, body: Body): AgentEvent {
    AgentEvent(input.threadId, input.runId, body)
  }

  function Refusal(input: RunInput, c: PlannedCall, json: string, error: string): AgentEvent {
    Emit(input, ToolResult(c.call.id, "", "", Payload(json, ""), error))
  }

  /** The events one tool call sends, in order. */
  function CallEvents(input: RunInput, c: PlannedCall): seq<AgentEvent> {
    match c.resolution
    case UnknownTool => [Refusal(input, c, UNKNOWN_TOOL, "ai.tool_not_found")]
    case Forbidden => [Refusal(input, c, FORBIDDEN, "ai.tool_forbidden")]
    case InvalidArguments => [Refusal(input, c, INVALID_ARGUMENTS, "ai.tool_invalid")]
    case ApprovalRequired(Disabled) => [Refusal(input, c, DENIED, "ai.tool_approval_unavailable")]
    case ApprovalRequired(NotPersisted(code)) => [Refusal(input, c, DENIED, code)]
    case ApprovalRequired(Created(id)) =>
      [Emit(input, ToolResult(c.call.id, "", "", ProposalPayload(id), ""))]
    case Ready(execution) =>
      if execution.AuditUnavailable? then [Refusal(input, c, AUDIT_UNAVAILABLE, "ai.tool_persistence_unavailable")]
      else
        [Emit(input, ToolStart(c.call.id, c.call.name)), Emit(input, ToolArgs(c.call.id, c.call.arguments))]
        + (match execution
           case Proposed(id) =>
             [Emit(input, ToolEnd(c.call.id)), Emit(input, ToolResult(c.call.id, "", "", ProposalPayload(id), ""))]
           case Completed(streamed, _) =>
             [Emit(input, ToolEnd(c.call.id)),
              Emit(input, ToolResult(c.call.id, "tool-msg-" + input.runId, streamed, NO_PAYLOAD, ""))]
           case _ => [])
  }

  /** A call that resolves sends a refusal, or a start, its arguments, and then an
      end with a result unless it panics. */
  lemma ReadyEvents(input: RunInput, c: PlannedCall)
    requires c.resolution.Ready?
    ensures var started := [Emit(input, ToolStart(c.call.id, c.call.name)), Emit(input, ToolArgs(c.call.id, c.call.arguments))];
      CallEvents(input, c)
      == match c.resolution.execution
         case AuditUnavailable => [Refusal(input, c, AUDIT_UNAVAILABLE, "ai.tool_persistence_unavailable")]
         case Proposed(id) =>
           started
           + [Emit(input, ToolEnd(c.call.id)), Emit(input, ToolResult(c.call.id, "", "", ProposalPayload(id), ""))]
         case Completed(streamed, _) =>
           started
           + [Emit(input, ToolEnd(c.call.id)),
              Emit(input, ToolResult(c.call.id, "tool-msg-" + input.runId, streamed, NO_PAYLOAD, ""))]
         case Panicked => started
  {
    hide ProposalPayload;
  }

  predicate IsToolEvent(ev: AgentEvent) {
    ev.body.ToolStart? || ev.body.ToolArgs? || ev.body.ToolEnd? || ev.body.ToolResult?
  }

  /** Some event of the list reports a proposal. */
  predicate Reported(evs: seq<AgentEvent>) {
    exists i :: 0 <= i < |evs| && |ProposalOf(evs[i])| > 0
  }

  /** A call that does not panic sends exactly one result, as its last event,
      and a result reports a proposal exactly when the call names one; a tool
      that ran is bracketed by a start and an end. */
  lemma CallProtocol(input: RunInput, c: PlannedCall)
    ensures forall i :: 0 <= i < |CallEvents(input, c)| ==>
      && IsToolEvent(CallEvents(input, c)[i])
      && (CallEvents(input, c)[i].body.ToolResult? <==> !Panics(c) && i == |CallEvents(input, c)| - 1)
    ensures !Panics(c) ==> CallEvents(input, c) != []
    ensures Reported(CallEvents(input, c)) <==> Names(c)
    ensures Executes(c) ==> CallEvents(input, c)[0].body.ToolStart? && CallEvents(input, c)[1].body.ToolArgs?
    ensures Executes(c) && !Panics(c) ==> |CallEvents(input, c)| == 4 && CallEvents(input, c)[2].body.ToolEnd?
  {
    var evs := CallEvents(input, c);
    if !Panics(c) && Names(c) {
      assert |ProposalOf(evs[|evs| - 1])| > 0;
    }
  }

  // ----- Model turns

  datatype Delta = Say(text: string) | Think(text: string) | Ask(planned: PlannedCall)

  datatype ModelError = Unauthorized | RateLimited | TimedOut | Unavailable

  function ModelErrorCode(e: ModelError): string {
    match e
    case Unauthorized => "ai.model_unauthorized"
    case RateLimited => "ai.model_rate_limited"
    case TimedOut => "ai.model_timeout"
    case Unavailable => "ai.model_unavailable"
  }

  /** One model call: the streamed deltas, the state of the request context
      afterwards, a failure if any, the tokens reported, whether the answer was
      cut at the length cap, the answer after its clean-up by regular
      expressions, and whether these find it to state that there is no
      evidence. */
  datatype Turn = Turn(stream: seq<Delta>, ctxAfter: Ctx, failure: Option<ModelError>, tokens: int,
                       cutOff: bool, cleaned: string, noEvidence: bool)

  /** The model call of the turn succeeded: only then its tools run. */
  predicate Succeeds(turn: Turn) { turn.ctxAfter == Alive && turn.failure.None? }

  function CallsOf(stream: seq<Delta>): seq<PlannedCall> {
    if stream == [] then []
    else CallsOf(stream[..|stream| - 1]) + (match stream[|stream| - 1] case Ask(c) => [c] case _ => [])
  }

  function TextOf(stream: seq<Delta>): string {
    if stream == [] then ""
    else TextOf(stream[..|stream| - 1]) + (match stream[|stream| - 1] case Say(t) => t case _ => "")
  }

  function ThoughtOf(stream: seq<Delta>): string {
    if stream == [] then ""
    else ThoughtOf(stream[..|stream| - 1]) + (match stream[|stream| - 1] case Think(t) => t case _ => "")
  }

  /** The content a model turn must put on the wire. */
  function SpokenOf(input: RunInput, stream: seq<Delta>): seq<WireBody> {
    if stream == [] then []
    else SpokenOf(input, stream[..|stream| - 1]) + SpokenOne(input, stream[|stream| - 1])
  }

  function SpokenOne(input: RunInput, d: Delta): seq<WireBody> {
    match d
    case Say(t) => [WTextContent(MessageId(input), t)]
    case Think(t) => if |t| == 0 then [] else [WReasoningContent(ReasoningId(input.runId), t)]
    case Ask(_) => []
  }

  function MessageId(input: RunInput): string { "msg-" + input.runId }

  // ----- How a run must end, read off the script alone

  datatype End =
    | Answered
    | Waiting
    | StepLimit
    | ModelFailed(error: ModelError)
    | Stopped(ctx: Ctx, paused: bool)
    | Crashed

  datatype TurnEnd = Proceed | Paused | Broken(ctx: Ctx, paused: bool) | Fatal

  predicate InParallel(calls: seq<PlannedCall>) {
    |calls| > 1 && forall i :: 0 <= i < |calls| ==> calls[i].probed
  }

  /** Processing stops at the first call that pauses the run, finds the request
      context done, or panics outside a recovered worker. */
  function Walk(calls: seq<PlannedCall>, parallel: bool): TurnEnd {
    if calls == [] then Proceed
    else if !parallel && Panics(calls[0]) then Fatal
    else if calls[0].ctxAfter != Alive then Broken(calls[0].ctxAfter, Pends(calls[0]))
    else if Pends(calls[0]) then Paused
    else Walk(calls[1..], parallel)
  }

  /** The calls executed one after the other, up to the one that stops the
      turn, report a proposal. */
  predicate NamesInOrder(calls: seq<PlannedCall>) {
    calls != []
    && (Names(calls[0])
        || (!Panics(calls[0]) && calls[0].ctxAfter == Alive && !Pends(calls[0]) && NamesInOrder(calls[1..])))
  }

  predicate TurnNames(calls: seq<PlannedCall>) {
    if InParallel(calls) then exists i :: 0 <= i < |calls| && Names(calls[i]) else NamesInOrder(calls)
  }

  datatype TurnResult = Over(end: End) | PausedTurn | NextTurn

  /** Where one model turn leads. */
  function ResultOf(turn: Turn): TurnResult {
    var calls := CallsOf(turn.stream);
    if turn.ctxAfter != Alive then Over(Stopped(turn.ctxAfter, false))
    else if turn.failure.Some? then Over(ModelFailed(turn.failure.value))
    else if calls == [] then Over(Answered)
    else match Walk(calls, InParallel(calls))
      case Proceed => NextTurn
      case Paused => PausedTurn
      case Broken(ctx, paused) => Over(Stopped(ctx, paused))
      case Fatal => Over(Crashed)
  }

  predicate TurnReports(turn: Turn) {
    turn.ctxAfter == Alive && turn.failure.None? && CallsOf(turn.stream) != [] && TurnNames(CallsOf(turn.stream))
  }

  /** Tokens count only for a turn whose model call succeeded. */
  function TurnTokens(turn: Turn): nat {
    if turn.ctxAfter == Alive && turn.failure.None? && turn.tokens > 0 then turn.tokens else 0
  }

  function ExpectedEnd(script: nat -> Turn, step: nat, maxSteps: nat): End
    decreases maxSteps - step
  {
    if step >= maxSteps then StepLimit
    else match ResultOf(script(step))
      case Over(end) => end
      case PausedTurn => Waiting
      case NextTurn => ExpectedEnd(script, step + 1, maxSteps)
  }

  /** Some executed call of the run reports a proposal. */
  predicate ExpectedProposal(script: nat -> Turn, step: nat, maxSteps: nat)
    decreases maxSteps - step
  {
    step < maxSteps
    && (TurnReports(script(step))
        || (ResultOf(script(step)).NextTurn? && ExpectedProposal(script, step + 1, maxSteps)))
  }

  function ExpectedTokens(script: nat -> Turn, step: nat, maxSteps: nat): int
    decreases maxSteps - step
  {
    if step >= maxSteps then 0
    else
      TurnTokens(script(step))
      + (if ResultOf(script(step)).NextTurn? then ExpectedTokens(script, step + 1, maxSteps) else 0)
  }

  function ErrorOf(end: End): string {
    match end
    case StepLimit => "ai.agent_step_limit"
    case ModelFailed(e) => ModelErrorCode(e)
    case Stopped(DeadlineExceeded, _) => "ai.run_timeout"
    case Stopped(_, _) => "ai.run_cancelled"
    case _ => ""
  }

  datatype Status = SUCCEEDED | FAILED | CANCELLED

  /** What is persisted about the run: nothing while it waits for approval. */
  function FinishesOf(end: End): seq<Status> {
    match end
    case Answered => [SUCCEEDED]
    case Waiting => []
    case Stopped(Cancelled, _) => [CANCELLED]
    case Crashed => []
    case _ => [FAILED]
  }

  /** A call paused the run and its approval has not been decided. */
  predicate Unsettled(end: End) {
    end.Waiting? || (end.Stopped? && end.paused)
  }

  /** The quota reservation stays open exactly when a call paused the run. */
  function QuotaOf(end: End, tokens: int): seq<int> {
    if Unsettled(end) then [] else [tokens]
  }

  // ----- Act mode

  /** A tool ran under an auto-approval ceiling, or the run read a citation. */
  datatype Act = Ran(callId: string, ceiling: string) | Cited

  predicate Read(acts: seq<Act>) {
    exists i :: 0 <= i < |acts| && acts[i] == Cited
  }

  /** Every tool ran under the initial ceiling until the first citation was
      read, and under none after it. */
  predicate Downgraded(acts: seq<Act>, initial: string) {
    forall i :: 0 <= i < |acts| && acts[i].Ran? ==>
      acts[i].ceiling == if Read(acts[..i]) then "" else initial
  }

  lemma DowngradedAppend(acts: seq<Act>, act: Act, initial: string)
    requires Downgraded(acts, initial)
    requires act.Ran? ==> act.ceiling == if Read(acts) then "" else initial
    ensures Downgraded(acts + [act], initial)
    ensures Read(acts + [act]) <==> Read(acts) || act == Cited
  {
    var all := acts + [act];
    forall i | 0 <= i < |all| && all[i].Ran? ensures all[i].ceiling == if Read(all[..i]) then "" else initial {
      if i < |acts| { assert all[..i] == acts[..i]; } else { assert all[..i] == acts; }
    }
    if Read(acts) {
      var i :| 0 <= i < |acts| && acts[i] == Cited;
      assert all[i] == Cited;
    }
    if act == Cited { assert all[|acts|] == Cited; }
  }

  function RiskRank(risk: string): nat {
    if risk == "low" then 1 else if risk == "medium" then 2 else if risk == "high" then 3 else 0
  }

  /** Whether a confirm-kind method of this risk may run without a human. */
  predicate AutoApprove(ceiling: string, risk: string) {
    1 <= RiskRank(ceiling) <= 2 && 1 <= RiskRank(risk) <= RiskRank(ceiling)
  }

  /** Once a citation has been read nothing runs without a human, whatever its
      risk; high risk never does. */
  lemma NothingAutoApproved(acts: seq<Act>, initial: string, i: nat, j: nat, risk: string)
    requires Downgraded(acts, initial)
    requires i < j < |acts| && acts[i] == Cited && acts[j].Ran?
    ensures !AutoApprove(acts[j].ceiling, risk)
    ensures !AutoApprove(initial, "high")
  {
    assert acts[..j][i] == Cited;
  }

  // ----- Message pairing

  predicate Answers(replies: seq<Message>, calls: seq<ToolCall>) {
    |replies| == |calls| && forall i :: 0 <= i < |calls| ==> replies[i].ToolReply? && replies[i].callId == calls[i].id
  }

  /** Every assistant message with k tool calls is followed at once by k tool
      messages with the same ids in the same order, and no tool message stands
      anywhere else. */
  predicate WellPaired(ms: seq<Message>)
    decreases |ms|
  {
    ms == []
    || match ms[0]
       case Assistant(_, _, calls) =>
         |ms| > |calls| && Answers(ms[1..1 + |calls|], calls) && WellPaired(ms[1 + |calls|..])
       case ToolReply(_, _) => false
       case _ => WellPaired(ms[1..])
  }

  lemma {:induction false} WellPairedAppend(a: seq<Message>, b: seq<Message>)
    requires WellPaired(a) && WellPaired(b)
    ensures WellPaired(a + b)
    decreases |a|
  {
    if a == [] {
      assert a + b == b;
    } else {
      var k := if a[0].Assistant? then |a[0].toolCalls| else 0;
      WellPairedAppend(a[1 + k..], b);
      DropAppend(a, b, 1 + k);
      assert (a + b)[0] == a[0];
    }
  }

  lemma DropAppend(a: seq<Message>, b: seq<Message>, k: nat)
    requires 1 <= k <= |a|
    ensures (a + b)[k..] == a[k..] + b
    ensures (a + b)[1..k] == a[1..k]
    ensures |(a + b)[k..]| == |a| - k + |b|
  {}

  lemma TurnPaired(assistant: Message, replies: seq<Message>)
    requires assistant.Assistant? && Answers(replies, assistant.toolCalls)
    ensures WellPaired([assistant] + replies)
  {
    var ms := [assistant] + replies;
    assert ms[1..1 + |replies|] == replies && ms[1 + |replies|..] == [];
  }

  /** At a tool message there is an assistant message that asked for it. */
  lemma {:induction false} NoOrphanReply(ms: seq<Message>, i: nat)
    requires WellPaired(ms) && i < |ms| && ms[i].ToolReply?
    ensures exists j, k :: 0 <= j < i && ms[j].Assistant? && 0 <= k < |ms[j].toolCalls| && i == j + 1 + k
                           && ms[j].toolCalls[k].id == ms[i].callId
    decreases |ms|
  {
    var k := if ms[0].Assistant? then |ms[0].toolCalls| else 0;
    if i <= k {
      assert ms[1..1 + k][i - 1] == ms[i];
      assert ms[0].toolCalls[i - 1].id == ms[i].callId && i == 0 + 1 + (i - 1);
    } else {
      var rest := ms[1 + k..];
      NoOrphanReply(rest, i - 1 - k);
      var j, m :| 0 <= j < i - 1 - k && rest[j].Assistant? && 0 <= m < |rest[j].toolCalls| && i - 1 - k == j + 1 + m
                  && rest[j].toolCalls[m].id == rest[i - 1 - k].callId;
      assert ms[j + 1 + k] == rest[j] && rest[i - 1 - k] == ms[i] && i == (j + 1 + k) + 1 + m;
    }
  }
}
