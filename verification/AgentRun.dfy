/** Whole runs, from RUN_STARTED to the end: a fresh one (runAgentStream in
    handler/agent.go) and one resumed after an approval (executeApprovedTool in
    handler/resume.go). */
module AgentRun {
  import opened Common
  import opened Sse
  import opened AgentTypes
  import opened ToolTurn
  import opened Conversation
  import opened TurnState
  import opened TurnWire
  import opened AgentStream
  import opened Agent
  import Messages
  import History
  import Text

  /** Everything the run does not decide itself. */
  datatype Environment = Environment(input: RunInput, configured: int, risk: string, ctx: Ctx, hasProvider: bool,
                                     script: nat -> Turn)

  datatype Outcome = Refused(ctx: Ctx) | NoProvider | Looped(end: End)

  /** What a run did: the content and the proposal it left with the client, what
      its tools did in each turn, the content of each turn, and what each model
      call was sent. */
  datatype Report = Report(outcome: Outcome, output: Output, turns: seq<seq<Act>>, contents: seq<seq<WireBody>>,
                           requests: seq<Request>)

  function OutcomeOf(env: Environment): Outcome {
    if env.ctx != Alive then Refused(env.ctx)
    else if !env.hasProvider then NoProvider
    else Looped(ExpectedEnd(env.script, 0, MaxSteps(env.configured)))
  }

  /** How many model calls are made. */
  function Calls(env: Environment): nat {
    if OutcomeOf(env).Looped? then TurnCount(env.script, 0, MaxSteps(env.configured)) else 0
  }

  function ErrorCode(o: Outcome): string {
    match o
    case Refused(ctx) => ErrorOf(Stopped(ctx, false))
    case NoProvider => "ai.model_unavailable"
    case Looped(end) => ErrorOf(end)
  }

  function Persisted(o: Outcome): seq<Status> {
    match o
    case Refused(ctx) => FinishesOf(Stopped(ctx, false))
    case NoProvider => [FAILED]
    case Looped(end) => FinishesOf(end)
  }

  function Settled(o: Outcome, tokens: int): seq<int> {
    match o
    case Looped(end) => QuotaOf(end, tokens)
    case _ => [0]
  }

  function Closing(env: Environment): seq<WireBody> {
    if OutcomeOf(env).Looped? then ClosingOf(env.input, OutcomeOf(env).end) else []
  }

  const OPENED := Output([WRunStarted], ("", ""), multiset{})

  /** The environment alone dictates the run: its outcome, what every model call
      is sent, what every tool runs under, and what the client is left with. */
  ghost predicate Dictated(r: Report, env: Environment, initial: seq<Message>) {
    && r.outcome == OutcomeOf(env)
    && r.requests == Requests(env.script, Calls(env), MaxSteps(env.configured), initial)
    && |r.turns| == Calls(env)
    && (forall k :: 0 <= k < Calls(env) ==> TurnActs(r.turns[k], env.script(k), CeilingAt(env.script, k, env.risk)))
    && Downgraded(Text.Flatten(r.turns), env.risk)
    && Written(env.input, env.script, Calls(env), OPENED, r.output, r.contents, Closing(env))
  }

  /** The client has read one whole stream with the content of the report, except
      when a tool panics outside a worker; what is persisted follows. */
  ghost predicate Delivered(r: Report, env: Environment, sse: SseWriter, store: RunStore)
    reads sse, store
  {
    && (r.outcome != Looped(Crashed) ==>
          Complete(sse.wire, TerminalBody(r.output.pending, ErrorCode(r.outcome)), r.output.sent, r.output.open))
    && (r.outcome == Looped(Crashed) ==> !sse.terminal)
    && store.finishes == Persisted(r.outcome)
    && store.quota == Settled(r.outcome, ExpectedTokens(env.script, 0, MaxSteps(env.configured)))
  }

  lemma Opened(input: RunInput)
    ensures var log := [Emit(input, RunStarted)];
      AllCarried(log) == [WRunStarted] && LastProposal(log) == ("", "") && OpenOf(log).tools == multiset{}
  {
    RunAppend([], Emit(input, RunStarted));
    AllCarriedAppend([], Emit(input, RunStarted));
    LastProposalAppend([], Emit(input, RunStarted));
    assert [] + [Emit(input, RunStarted)] == [Emit(input, RunStarted)];
  }

  lemma NothingCalled(env: Environment, initial: seq<Message>)
    requires !OutcomeOf(env).Looped?
    ensures Dictated(Report(OutcomeOf(env), OPENED, [], [], []), env, initial)
  {
    hide Requests;
    WrittenStart(env.input, env.script, OPENED);
    Text.FlattenNone<Act>();
    assert Requests(env.script, 0, MaxSteps(env.configured), initial) == [];
    hide Written;
  }

  lemma LoopedAs(env: Environment, initial: seq<Message>, a: Held, b: Held, r: Report)
    requires r.outcome == OutcomeOf(env) && r.outcome.Looped? && a.risk == env.risk
    requires r.requests == Requests(env.script, Calls(env), MaxSteps(env.configured), initial)
    requires Reached(env.script, Calls(env), a, b, r.turns) && Downgraded(b.acts, env.risk)
    requires Written(env.input, env.script, Calls(env), OPENED, r.output, r.contents, ClosingOf(env.input, r.outcome.end))
    ensures Dictated(r, env, initial)
  {
    hide Written, Downgraded, TurnActs, CeilingAt, Text.Flatten, Requests, ClosingOf;
  }

  /** The run does not get to its first model call. */
  method Decline(env: Environment, initial: seq<Message>, loop: AgentLoop) returns (outcome: Outcome)
    requires env.ctx != Alive || !env.hasProvider
    requires loop.Streaming() && loop.textOpen == loop.textStarted && loop.Out() == OPENED
    requires loop.store.finishes == [] && loop.store.quota == []
    modifies loop, loop.sse, loop.store
    ensures var report := Report(OutcomeOf(env), OPENED, [], [], []);
      outcome == report.outcome && Dictated(report, env, initial) && Delivered(report, env, loop.sse, loop.store)
  {
    hide Complete, TerminalBody, LastProposal, AllCarried, Dictated, ExpectedTokens, ExpectedEnd, Steady, Numbered, Holds,
      OpenOf, WireOf;
    NothingCalled(env, initial);
    if env.ctx != Alive {
      loop.TerminateOnContext(env.ctx, false);
      loop.store.FinalizeQuota(0);
      return Refused(env.ctx);
    }
    loop.store.FinalizeQuota(0);
    loop.FinishRun("ai.model_unavailable");
    loop.store.Finish(FAILED);
    return NoProvider;
  }

  /** RUN_STARTED, and the state of the loop before anything is asked. */
  method Open(env: Environment, initial: seq<Message>) returns (loop: AgentLoop)
    ensures fresh(loop) && fresh(loop.sse) && fresh(loop.store)
    ensures loop.store.finishes == [] && loop.store.quota == []
    ensures loop.input == env.input && loop.maxSteps == MaxSteps(env.configured) && loop.ceiling == env.risk
    ensures loop.Streaming() && loop.ActMode() && loop.Memory() && loop.Cites() && loop.Out() == OPENED
    ensures loop.Mind() == Held(initial, [], [], env.risk)
    ensures !loop.awaitingApproval && !loop.textOpen && !loop.textStarted && loop.requests == [] && loop.totalTokens == 0
  {
    hide OpenOf, WireOf, LastProposal, Disciplined, AllCarried, Numbered, Holds;
    var sse := new SseWriter();
    var store := new RunStore();
    Starts(env.input);
    Opened(env.input);
    assert sse.log + [Emit(env.input, RunStarted)] == [Emit(env.input, RunStarted)];
    sse.Event(Emit(env.input, RunStarted));
    loop := new AgentLoop(sse, store, env.input, env.configured, env.risk, initial);
  }

  /** The shared end of both entry points: RUN_STARTED, the checks before the
      first model call, and the loop, for any model output, tool outcomes,
      cancellation points and worker schedules. */
  method Stream(env: Environment, initial: seq<Message>)
    returns (outcome: Outcome, sse: SseWriter, store: RunStore, ghost report: Report)
    requires WellPaired(initial)
    ensures outcome == report.outcome && Dictated(report, env, initial) && Delivered(report, env, sse, store)
  {
    hide Complete, TerminalBody, LastProposal, AllCarried, WellPaired, Written, Reached, Downgraded, Requests, ExpectedEnd,
      ExpectedTokens, TurnCount, Dictated, MaxSteps, AgentLoop.Streaming, AgentLoop.ActMode, AgentLoop.Memory,
      AgentLoop.Cites, AgentLoop.Closed;
    var loop := Open(env, initial);
    sse, store := loop.sse, loop.store;
    if env.ctx != Alive || !env.hasProvider {
      outcome := Decline(env, initial, loop);
      return outcome, sse, store, Report(outcome, OPENED, [], [], []);
    }
    ghost var mind := loop.Mind();
    ghost var turns, contents;
    var end;
    end, turns, contents := loop.Run(env.script);
    report := Report(Looped(end), loop.Out(), turns, contents, loop.requests);
    loop.UnderCeiling();
    LoopedAs(env, initial, mind, loop.Mind(), report);
    if end.Crashed? {
      loop.StillOpen();
    } else {
      loop.ClosedAs(end);
    }
    return Looped(end), sse, store, report;
  }

  /** A fresh run after admission. */
  method RunAgent(env: Environment, prompts: Messages.Prompts, history: Option<seq<History.Message>>,
                  activity: seq<string>, latest: string)
    returns (outcome: Outcome, sse: SseWriter, store: RunStore, ghost report: Report, ghost initial: seq<Message>,
             ghost dropped: nat, ghost replayed: seq<History.Message>)
    ensures initial == Messages.Fresh(prompts, dropped, replayed, activity, latest)
    ensures WellPaired(initial) && Messages.Admitted(history, dropped, replayed)
    ensures outcome == report.outcome && Dictated(report, env, initial) && Delivered(report, env, sse, store)
  {
    hide Dictated, Delivered, WellPaired, Messages.Fresh, Messages.Resumed, Messages.Admitted;
    var messages;
    messages, dropped, replayed := Messages.BuildModelMessages(prompts, history, activity, latest);
    initial := messages;
    outcome, sse, store, report := Stream(env, messages);
  }

  /** A run resumed once its approved tool has been executed. */
  method ResumeRun(env: Environment, prompts: Messages.Prompts, history: Option<seq<History.Message>>, call: ToolCall,
                   result: Feedback)
    returns (outcome: Outcome, sse: SseWriter, store: RunStore, ghost report: Report)
    ensures outcome == report.outcome && Delivered(report, env, sse, store)
    ensures Dictated(report, env, Messages.Resumed(prompts, history, call, result))
  {
    hide Dictated, Delivered, WellPaired, Messages.Fresh, Messages.Resumed, Messages.Admitted;
    var messages := Messages.BuildResumeMessages(prompts, history, call, result);
    outcome, sse, store, report := Stream(env, messages);
  }

  // ----- What follows for every run

  /** The stream ends in an interrupt exactly when an executed call reported a
      proposal, and the approval and call id it names are those of one call of
      the last turn. */
  lemma InterruptExactly(r: Report, env: Environment, initial: seq<Message>)
    requires Dictated(r, env, initial)
    ensures TerminalBody(r.output.pending, ErrorCode(r.outcome)).WRunFinished?
            && TerminalBody(r.output.pending, ErrorCode(r.outcome)).outcome.Interrupt?
       <==> r.outcome.Looped? && ExpectedProposal(env.script, 0, MaxSteps(env.configured))
    ensures r.outcome.Looped? && ExpectedProposal(env.script, 0, MaxSteps(env.configured)) ==>
      && Calls(env) > 0
      && Proposes(r.output.pending, CallsOf(env.script(Calls(env) - 1).stream))
  {
    hide Written, ExpectedProposal, ExpectedEnd, TurnCount, TurnReports, CallsOf, Requests, ErrorCode, Proposes, Downgraded;
    if r.outcome.Looped? {
      WrittenProposal(env.input, env.script, MaxSteps(env.configured), OPENED, r.output, r.contents, Closing(env));
      PendingOf(r, env);
      ProposalIsLast(env.script, 0, MaxSteps(env.configured));
    } else {
      PendingOf(r, env);
    }
  }

  lemma PendingOf(r: Report, env: Environment)
    requires Written(env.input, env.script, Calls(env), OPENED, r.output, r.contents, Closing(env))
    ensures var n := Calls(env);
      if n > 0 && TurnReports(env.script(n - 1)) then Proposes(r.output.pending, CallsOf(env.script(n - 1).stream))
      else r.output.pending == ("", "")
  {
    hide Calls, TurnReports, CallsOf, Proposes, TurnContent, Closing, Text.Flatten;
  }

  /** At most twenty model calls, each on a well-paired conversation that starts
      with the one the run was given. */
  lemma RequestsSound(r: Report, env: Environment, initial: seq<Message>)
    requires Dictated(r, env, initial) && WellPaired(initial)
    ensures |r.requests| == Calls(env) <= 20
    ensures forall k :: 0 <= k < |r.requests| ==> WellPaired(r.requests[k].messages)
  {
    hide Written, WellPaired, TurnCount, ExpectedEnd, Downgraded, RequestAt;
    RequestsPaired(env.script, env.configured, initial);
  }
}
