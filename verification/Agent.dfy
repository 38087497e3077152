/** The model and tool loop of one agent run (handler/agent.go). */
module Agent {
  import opened Common
  import opened Sse
  import opened AgentTypes
  import opened Conversation
  import opened ToolTurn
  import opened TurnState
  import opened TurnWire
  import opened AgentStream
  import opened Citations
  import opened Interleaving
  import Text

  const MAX_PARALLEL_TOOL_CALLS := 3

  lemma StreamBase(input: RunInput)
    ensures TextOf([]) == "" && ThoughtOf([]) == "" && CallsOf([]) == [] && SpokenOf(input, []) == []
  {}

  lemma DeltaStep(input: RunInput, stream: seq<Delta>, i: nat)
    requires i < |stream|
    ensures var next := stream[..i + 1];
      && TextOf(next) == TextOf(stream[..i]) + (match stream[i] case Say(t) => t case _ => "")
      && ThoughtOf(next) == ThoughtOf(stream[..i]) + (match stream[i] case Think(t) => t case _ => "")
      && CallsOf(next) == CallsOf(stream[..i]) + (match stream[i] case Ask(c) => [c] case _ => [])
      && SpokenOf(input, next) == SpokenOf(input, stream[..i]) + SpokenOne(input, stream[i])
  {
    assert stream[..i + 1][..i] == stream[..i];
  }

  // ----- Persistence

  class RunStore {
    /** The statuses written by Finish, in order. */
    var finishes: seq<Status>
    /** The amounts the quota reservation was settled with. */
    var quota: seq<int>

    constructor ()
      ensures finishes == [] && quota == []
    {
      finishes, quota := [], [];
    }

    method Finish(status: Status)
      modifies this`finishes
      ensures finishes == old(finishes) + [status]
    {
      finishes := finishes + [status];
    }

    method FinalizeQuota(tokens: int)
      modifies this`quota
      ensures quota == old(quota) + [tokens]
    {
      quota := quota + [tokens];
    }
  }

  lemma AppendedEmpty(existing: seq<string>, additions: seq<string>)
    ensures existing + Take(Citations.Fresh(existing, additions), Room(|existing|)) == [] <==> existing == [] && additions == []
  {
    FreshIsFresh(existing, additions);
    if existing == [] && additions != [] { assert additions[0] in Citations.Fresh(existing, additions); }
  }

  lemma NothingFresh(existing: seq<string>)
    ensures existing + Take(Citations.Fresh(existing, []), Room(|existing|)) == existing
  {
  }

  lemma CitedMore(ran: seq<PlannedCall>, c: PlannedCall)
    ensures CitedBy(ran + [c])
         == CitedBy(ran) + Take(Citations.Fresh(CitedBy(ran), FeedbackOf(c).Labels()), Room(|CitedBy(ran)|))
  {
    assert (ran + [c])[..|ran|] == ran;
  }

  lemma {:induction false} WalkBreaks(calls: seq<PlannedCall>, parallel: bool)
    ensures Walk(calls, parallel).Broken? ==> Walk(calls, parallel).ctx != Alive
  {
    if calls != [] { WalkBreaks(calls[1..], parallel); }
  }

  datatype ToolOutcome = ToolOutcome(pending: bool, message: Feedback)

  function OutcomeOf(c: PlannedCall): ToolOutcome { ToolOutcome(Pends(c), FeedbackOf(c)) }

  predicate IsKnowledgeSearch(name: string) {
    var tool := Text.Trim(name);
    tool == "knowledge.search" || (|tool| >= 17 && tool[|tool| - 17..] == ".knowledge.search")
  }

  class AgentLoop {
    const sse: SseWriter
    const store: RunStore
    const input: RunInput
    const maxSteps: nat
    ghost const ceiling: string
    var messages: seq<Message>
    var textStarted: bool
    var awaitingApproval: bool
    var knowledgeCitations: seq<string>
    var executedCalls: map<(string, string), nat>
    var autoApproveRisk: string
    var totalTokens: int
    ghost var textOpen: bool
    ghost var acts: seq<Act>
    ghost var requests: seq<Request>
    ghost var ran: seq<PlannedCall>
    ghost var told: seq<Feedback>

    constructor (sse: SseWriter, store: RunStore, input: RunInput, configured: int, risk: string, initial: seq<Message>)
      requires sse.Valid() && Steady(input, sse.log, false)
      ensures this.sse == sse && this.store == store && this.input == input
      ensures maxSteps == MaxSteps(configured) && messages == initial && ceiling == risk
      ensures Streaming() && !textStarted && ActMode() && Memory() && Cites()
      ensures acts == [] && requests == [] && ran == [] && !awaitingApproval && totalTokens == 0
    {
      this.sse, this.store, this.input := sse, store, input;
      maxSteps, ceiling := MaxSteps(configured), risk;
      messages, textStarted, awaitingApproval := initial, false, false;
      knowledgeCitations, executedCalls, autoApproveRisk, totalTokens := [], map[], risk, 0;
      textOpen, acts, requests, ran, told := false, [], [], [], [];
    }

    /** The wire is grammatical and the run is not over. */
    ghost predicate Streaming()
      reads this`textOpen, this`textStarted, sse
    {
      sse.Valid() && Steady(input, sse.log, textOpen) && (textOpen ==> textStarted)
    }

    /** The act-mode ceiling in force follows the citations read. */
    ghost predicate ActMode()
      reads this`acts, this`knowledgeCitations, this`autoApproveRisk
    {
      && Downgraded(acts, ceiling)
      && Read(acts) == (knowledgeCitations != [])
      && autoApproveRisk == (if knowledgeCitations == [] then ceiling else "")
    }

    ghost function Mind(): Held
      reads this`messages, this`acts, this`ran, this`autoApproveRisk
    {
      Held(messages, acts, ran, autoApproveRisk)
    }

    ghost function Out(): Output
      reads sse
    {
      Output(AllCarried(sse.log), LastProposal(sse.log), OpenOf(sse.log).tools)
    }

    /** The citations held are those of the results fed back. */
    ghost predicate Cites()
      reads this`knowledgeCitations, this`ran
    {
      knowledgeCitations == CitedBy(ran)
    }

    ghost predicate Memory()
      reads this`executedCalls, this`ran, this`told
    {
      Remembers(executedCalls, ran) && ToldAll(ran, told)
    }

    lemma CitesAre()
      requires Cites()
      ensures knowledgeCitations == CitedBy(ran)
    {}

    lemma UnderCeiling()
      requires ActMode()
      ensures Downgraded(acts, ceiling)
    {}

    lemma ClosedAs(end: End)
      requires Closed(end)
      ensures Complete(sse.wire, TerminalBody(Out().pending, ErrorOf(end)), Out().sent, Out().open)
    {
      hide Complete, TerminalBody, LastProposal, AllCarried, Numbered, Holds, OpenOf, WireOf;
    }

    lemma Endings()
      ensures FinishesOf(Waiting) == [] && FinishesOf(StepLimit) == [FAILED] && ClosingOf(input, Waiting) == []
    {}

    lemma Steadily()
      requires Streaming()
      ensures Steady(input, sse.log, textOpen)
    {}

    lemma StillOpen()
      requires Streaming()
      ensures !sse.terminal
    {}

    // ----- Text framing

    method StartText()
      requires Streaming()
      modifies sse, this`textStarted, this`textOpen
      ensures Streaming() && textStarted && textOpen == (old(textOpen) || !old(textStarted))
      ensures Out() == old(Out())
    {
      if !textStarted {
        textStarted := true;
        ghost var ev := Emit(input, TextStart(MessageId(input)));
        OpenKeeps(input, sse.log);
        Logged(input, sse.log, textOpen, ev);
        sse.Event(Emit(input, TextStart(MessageId(input))));
        textOpen := true;
      }
    }

    method EndText()
      requires Streaming() && textOpen == textStarted
      modifies sse, this`textOpen
      ensures Streaming() && !textOpen
      ensures Out() == old(Out())
    {
      if textStarted {
        ghost var ev := Emit(input, TextEnd(MessageId(input)));
        CloseKeeps(input, sse.log);
        Logged(input, sse.log, textOpen, ev);
        sse.Event(Emit(input, TextEnd(MessageId(input))));
        textOpen := false;
      }
    }

    /** Sends text; the writer reopens the message if it was closed. */
    method Content(delta: string)
      requires Streaming() && textStarted
      modifies sse, this`textOpen
      ensures Streaming() && textOpen
      ensures Out() == old(Out()).(sent := old(Out()).sent + [WTextContent(MessageId(input), delta)])
    {
      ghost var ev := Emit(input, TextContent(MessageId(input), delta));
      SayKeeps(input, sse.log, textOpen, delta);
      Logged(input, sse.log, textOpen, ev);
      sse.Event(Emit(input, TextContent(MessageId(input), delta)));
      textOpen := true;
    }

    method Thought(delta: string)
      requires Streaming()
      modifies sse
      ensures Streaming()
      ensures Out() == old(Out()).(sent := old(Out()).sent + SpokenOne(input, Think(delta)))
    {
      ghost var ev := Emit(input, Reasoning(delta));
      ThinkKeeps(input, sse.log, textOpen, delta);
      Logged(input, sse.log, textOpen, ev);
      sse.Event(Emit(input, Reasoning(delta)));
    }

    /** Sends the terminal event. */
    method FinishRun(error: string)
      requires Streaming()
      modifies sse
      ensures sse.Valid() && sse.terminal
      ensures Complete(sse.wire, TerminalBody(LastProposal(sse.log), error), AllCarried(sse.log), OpenOf(sse.log).tools)
      ensures Out() == old(Out())
    {
      hide Steady, Complete, IsWholeStream, Essence, Numbered, Holds, OpenOf, WireOf, AllCarried, LastProposal, TerminalBody;
      ghost var fin := Emit(input, RunFinished(error));
      LiveAll(sse.log, fin) by { StillRunning(input, sse.log, textOpen); }
      Finishes(input, sse.log, textOpen, error);
      LastProposalAppend(sse.log, fin);
      sse.Event(Emit(input, RunFinished(error)));
      CompleteAs(sse.wire, WireOf(sse.log), TerminalBody(LastProposal(sse.log), error), OpenOf(sse.log).tools);
    }

    // ----- One model call

    /** The stream callbacks of one model call. */
    method StreamChat(stream: seq<Delta>) returns (turnText: string, turnReasoning: string, collected: seq<PlannedCall>)
      requires Streaming() && textOpen == textStarted
      modifies sse, this`textStarted, this`textOpen
      ensures Streaming() && textOpen == textStarted
      ensures turnText == TextOf(stream) && turnReasoning == ThoughtOf(stream) && collected == CallsOf(stream)
      ensures |turnText| > 0 ==> textStarted
      ensures Out() == old(Out()).(sent := old(Out()).sent + SpokenOf(input, stream))
    {
      hide Streaming, AllCarried, LastProposal, OpenOf, TextOf, ThoughtOf, CallsOf, SpokenOf;
      StreamBase(input);
      assert stream[..0] == [];
      turnText, turnReasoning, collected := "", "", [];
      var i := 0;
      while i < |stream|
        invariant 0 <= i <= |stream|
        invariant Streaming() && textOpen == textStarted
        invariant turnText == TextOf(stream[..i]) && turnReasoning == ThoughtOf(stream[..i])
        invariant collected == CallsOf(stream[..i])
        invariant |turnText| > 0 ==> textStarted
        invariant Out() == old(Out()).(sent := old(Out()).sent + SpokenOf(input, stream[..i]))
      {
        DeltaStep(input, stream, i);
        OnDelta(stream[i]);
        match stream[i] {
          case Say(delta) => turnText := turnText + delta;
          case Think(delta) => turnReasoning := turnReasoning + delta;
          case Ask(call) => collected := collected + [call];
        }
        i := i + 1;
      }
      assert stream[..i] == stream;
    }

    /** What one delta sends. */
    method OnDelta(d: Delta)
      requires Streaming() && textOpen == textStarted
      modifies sse, this`textStarted, this`textOpen
      ensures Streaming() && textOpen == textStarted && (old(textStarted) || d.Say? ==> textStarted)
      ensures Out() == old(Out()).(sent := old(Out()).sent + SpokenOne(input, d))
    {
      match d {
        case Say(delta) =>
          StartText();
          Content(delta);
        case Think(delta) =>
          Thought(delta);
        case Ask(_) =>
      }
    }

    // ----- Tool calls

    method Send(ev: AgentEvent)
      requires Streaming() && IsToolEvent(ev) && ToolFits(OpenOf(sse.log).tools, ev)
      modifies sse
      ensures Streaming() && sse.log == old(sse.log) + [ev]
      ensures OpenOf(sse.log).tools == ToolsAfter(old(OpenOf(sse.log).tools), ev)
    {
      hide OpenOf, WireOf, LastProposal, Disciplined, AllCarried;
      ToolKeeps(input, sse.log, textOpen, ev);
      sse.Event(ev);
    }

    /** The tool's code runs under the ceiling passed to it. */
    method Execute(c: PlannedCall, risk: string)
      requires Executes(c)
      modifies this`acts
      ensures acts == old(acts) + [Ran(c.call.id, risk)]
    {
      acts := acts + [Ran(c.call.id, risk)];
    }

    /** Runs one call to its end on the calling goroutine. */
    method ExecuteModelToolCall(c: PlannedCall) returns (panicked: bool, pending: bool, feedback: Feedback)
      requires Streaming() && ActMode()
      modifies sse, this`acts
      ensures Streaming() && ActMode()
      ensures sse.log == old(sse.log) + CallEvents(input, c)
      ensures acts == old(acts) + RunActs(c, autoApproveRisk)
      ensures panicked == Panics(c)
      ensures !panicked ==> pending == Pends(c) && feedback == FeedbackOf(c)
    {
      hide OpenOf, WireOf, LastProposal, Disciplined, AllCarried;
      panicked := false;
      pending := false;
      feedback := Feedback(EXECUTION_FAILED, []);
      match c.resolution {
        case UnknownTool =>
          Send(Emit(input, ToolResult(c.call.id, "", "", Payload(UNKNOWN_TOOL, ""), "ai.tool_not_found")));
          feedback := Feedback(UNKNOWN_TOOL, []);
        case Forbidden =>
          Send(Emit(input, ToolResult(c.call.id, "", "", Payload(FORBIDDEN, ""), "ai.tool_forbidden")));
          feedback := Feedback(FORBIDDEN, []);
        case InvalidArguments =>
          Send(Emit(input, ToolResult(c.call.id, "", "", Payload(INVALID_ARGUMENTS, ""), "ai.tool_invalid")));
          feedback := Feedback(INVALID_ARGUMENTS, []);
        case ApprovalRequired(creation) =>
          match creation {
            case Disabled =>
              Send(Emit(input, ToolResult(c.call.id, "", "", Payload(DENIED, ""), "ai.tool_approval_unavailable")));
              feedback := Feedback(DENIED, []);
            case NotPersisted(code) =>
              Send(Emit(input, ToolResult(c.call.id, "", "", Payload(DENIED, ""), code)));
              feedback := Feedback(DENIED, []);
            case Created(approvalId) =>
              Send(Emit(input, ToolResult(c.call.id, "", "", ProposalPayload(approvalId), "")));
              pending := true;
              feedback := Feedback(WaitingText(approvalId), []);
          }
        case Ready(execution) =>
          panicked, pending, feedback := ExecuteReady(c, execution);
      }
    }

    method ExecuteReady(c: PlannedCall, execution: Execution) returns (panicked: bool, pending: bool, feedback: Feedback)
      requires Streaming() && ActMode()
      requires c.resolution == Resolution.Ready(execution)
      modifies sse, this`acts
      ensures Streaming() && ActMode()
      ensures sse.log == old(sse.log) + CallEvents(input, c)
      ensures acts == old(acts) + RunActs(c, autoApproveRisk)
      ensures panicked == Panics(c)
      ensures !panicked ==> pending == Pends(c) && feedback == FeedbackOf(c)
    {
      hide OpenOf, WireOf, LastProposal, Disciplined, AllCarried, CallEvents, ProposalPayload, WaitingText, Downgraded, Read;
      ReadyEvents(input, c);
      if execution.AuditUnavailable? {
        Send(Emit(input, ToolResult(c.call.id, "", "", Payload(AUDIT_UNAVAILABLE, ""), "ai.tool_persistence_unavailable")));
        return false, false, Feedback(AUDIT_UNAVAILABLE, []);
      }
      DowngradedAppend(acts, Ran(c.call.id, autoApproveRisk), ceiling);
      ghost var before := sse.log;
      Announce(c);
      Execute(c, autoApproveRisk);
      ghost var started := sse.log;
      match execution {
        case Proposed(approvalId) =>
          Report(c, ToolResult(c.call.id, "", "", ProposalPayload(approvalId), ""));
          Joined(before, started[|before|..], sse.log[|started|..]);
          return false, true, Feedback(WaitingText(approvalId), []);
        case Completed(streamed, told) =>
          Report(c, ToolResult(c.call.id, "tool-msg-" + input.runId, streamed, NO_PAYLOAD, ""));
          Joined(before, started[|before|..], sse.log[|started|..]);
          return false, false, told;
        case _ =>
          return true, false, Feedback(EXECUTION_FAILED, []);
      }
    }

    /** A tool's code is about to run. */
    method Announce(c: PlannedCall)
      requires Streaming()
      modifies sse
      ensures Streaming() && c.call.id in OpenOf(sse.log).tools
      ensures sse.log == old(sse.log)
        + [Emit(input, ToolStart(c.call.id, c.call.name)), Emit(input, ToolArgs(c.call.id, c.call.arguments))]
    {
      hide OpenOf, WireOf, LastProposal, Disciplined, AllCarried, Steady;
      Send(Emit(input, ToolStart(c.call.id, c.call.name)));
      Send(Emit(input, ToolArgs(c.call.id, c.call.arguments)));
    }

    /** The tool is done. */
    method Report(c: PlannedCall, result: Body)
      requires Streaming() && result.ToolResult? && c.call.id in OpenOf(sse.log).tools
      modifies sse
      ensures Streaming() && sse.log == old(sse.log) + [Emit(input, ToolEnd(c.call.id)), Emit(input, result)]
    {
      hide OpenOf, WireOf, LastProposal, Disciplined, AllCarried, Steady;
      Send(Emit(input, ToolEnd(c.call.id)));
      Send(Emit(input, result));
    }

    /** Runs the calls on concurrent workers, at most three at a time. Which
        worker moves next is left open: the contract holds for every schedule.
        A panic ends only its own worker. */
    method ExecuteInParallel(calls: seq<PlannedCall>) returns (outcomes: seq<ToolOutcome>, ghost evs: seq<AgentEvent>)
      requires Streaming() && ActMode() && InParallel(calls)
      modifies sse, this`acts
      ensures Streaming() && ActMode() && old(acts) <= acts
      ensures multiset(acts[|old(acts)|..]) == RunsOf(calls, autoApproveRisk)
      ensures sse.log == old(sse.log) + evs && Interleaves(evs, Work(input, calls)) && Pooled(3, evs, Work(input, calls))
      ensures |outcomes| == |calls| && forall w :: 0 <= w < |calls| ==> outcomes[w] == OutcomeOf(calls[w])
    {
      hide Streaming, ActMode, Progress, CallEvents, Interleaves, AtMost, IsSchedule, Sum, Busy, CanMove, Work, IsToolEvent, OutcomeOf, Begun,
        RunsOf, RunActs, OpenOf, Steady, ToolFits, ToolsAfter;
      Steadily();
      ghost var start := sse.log;
      var work := Work(input, calls);
      WorkIsTools(input, calls);
      var left := FullWork(work);
      outcomes := seq(|work|, _ => ToolOutcome(false, Feedback("", [])));
      evs := [];
      ghost var sender: seq<nat> := [];
      ghost var rans: seq<Act> := [];
      ghost var waiting := seq(|work|, _ => true);
      NoneBegun(calls, waiting, autoApproveRisk);
      ProgressStart(work);
      AtMostStart(MAX_PARALLEL_TOOL_CALLS, work);
      assert sse.log + evs == sse.log;
      while Sum(left) > 0
        invariant Streaming() && ActMode()
        invariant sse.log == start + evs && acts == old(acts) + rans
        invariant forall i :: 0 <= i < |evs| ==> IsToolEvent(evs[i])
        invariant |left| == |work| && Progress(work, left, evs, sender)
        invariant |waiting| == |calls| && multiset(rans) == Begun(calls, waiting, autoApproveRisk)
        invariant forall w :: 0 <= w < |work| ==> waiting[w] == (left[w] == |work[w]| + 2)
        invariant Busy(work, left) <= MAX_PARALLEL_TOOL_CALLS && AtMost(MAX_PARALLEL_TOOL_CALLS, work, evs, sender)
        invariant |outcomes| == |work| && forall w :: 0 <= w < |work| && left[w] == 0 ==> outcomes[w] == OutcomeOf(calls[w])
        decreases Sum(left)
      {
        SomeoneMoves(work, left, evs, sender, MAX_PARALLEL_TOOL_CALLS);
        var w := Schedule(work, left);
        ProgressStep(work, left, evs, sender, w, MAX_PARALLEL_TOOL_CALLS);
        if left[w] == |work[w]| + 2 {
          Begin(calls[w]);
          BeginOne(calls, waiting, autoApproveRisk, w);
          rans, waiting := rans + RunActs(calls[w], autoApproveRisk), waiting[w := false];
        } else if left[w] > 1 {
          var ev := work[w][|work[w]| + 1 - left[w]];
          Steadily();
          WorkerFits(input, start, textOpen, calls, left, evs, sender, w);
          Send(ev);
          AtMostNext(MAX_PARALLEL_TOOL_CALLS, work, left[w := left[w] - 1], evs, sender, ev, w);
          evs, sender := evs + [ev], sender + [w];
        } else {
          outcomes := outcomes[w := OutcomeOf(calls[w])];
        }
        left := left[w := left[w] - 1];
      }
      SumZero(left);
      AllBegun(calls, waiting, autoApproveRisk);
      assert acts[|old(acts)|..] == rans;
      ProgressDone(work, left, evs, sender);
      assert Pooled(MAX_PARALLEL_TOOL_CALLS, evs, work);
    }

    /** The scheduler picks any worker that may move. */
    method Schedule(work: seq<seq<AgentEvent>>, left: seq<nat>) returns (w: nat)
      requires |left| == |work| && exists v :: CanMove(work, left, v, MAX_PARALLEL_TOOL_CALLS)
      ensures w < |work| && left[w] > 0 && CanMove(work, left, w, MAX_PARALLEL_TOOL_CALLS)
    {
      hide Busy;
      var v :| 0 <= v < |work| && CanMove(work, left, v, MAX_PARALLEL_TOOL_CALLS);
      return v;
    }

    /** A worker picks up its call. */
    method Begin(c: PlannedCall)
      requires ActMode()
      modifies this`acts
      ensures ActMode() && acts == old(acts) + RunActs(c, autoApproveRisk)
    {
      if Executes(c) {
        DowngradedAppend(acts, Ran(c.call.id, autoApproveRisk), ceiling);
        Execute(c, autoApproveRisk);
      }
    }

    // ----- Feeding results back

    /** Records that a call ran and words the feedback for the model. */
    method Tell(c: PlannedCall, outcome: ToolOutcome) returns (message: Feedback)
      requires Memory() && outcome == OutcomeOf(c)
      modifies this`executedCalls, this`ran, this`told
      ensures Memory() && ran == old(ran) + [c] && told == old(told) + [message]
      ensures message == ToldLast(ran)
    {
      hide Times, ToldAll, Remembers;
      RememberOne(executedCalls, ran, told, c);
      var key := KeyOf(c);
      var times := (if key in executedCalls then executedCalls[key] else 0) + 1;
      executedCalls := executedCalls[key := times];
      message := outcome.message;
      if times > 1 && !outcome.pending {
        message := Repeated(c.call.name, times, message);
      }
      ran, told := ran + [c], told + [message];
    }

    /** Takes the citations found in a feedback; the first ones end act mode for
        the rest of the run. */
    method Cite(name: string, message: Feedback)
      requires ActMode()
      modifies this`knowledgeCitations, this`autoApproveRisk, this`acts
      ensures ActMode()
      ensures knowledgeCitations == old(knowledgeCitations)
        + Take(Citations.Fresh(old(knowledgeCitations), message.Labels()), Room(|old(knowledgeCitations)|))
      ensures message.Labels() != [] ==> Read(acts)
      ensures acts == if message.Labels() != [] then old(acts) + [Cited] else old(acts)
      ensures autoApproveRisk == if message.Labels() != [] then "" else old(autoApproveRisk)
    {
      var labels := message.Labels();
      if labels != [] {
        DowngradedAppend(acts, Cited, ceiling);
        acts := acts + [Cited];
      }
      ghost var held := knowledgeCitations;
      NothingFresh(held);
      if IsKnowledgeSearch(name) || |labels| > 0 {
        knowledgeCitations := AppendUnique(knowledgeCitations, labels);
        AppendedEmpty(held, labels);
      }
      if |knowledgeCitations| > 0 && autoApproveRisk != "" {
        autoApproveRisk := "";
      }
    }

    /** Processes one call of a turn. Outside a worker a panic ends the run. */
    method Process(c: PlannedCall, parallel: bool, outcome: ToolOutcome) returns (panicked: bool)
      requires Streaming() && ActMode() && Memory() && Cites() && !awaitingApproval
      requires parallel ==> outcome == OutcomeOf(c)
      modifies sse, this`acts, this`knowledgeCitations, this`autoApproveRisk, this`executedCalls, this`ran, this`told,
               this`messages, this`awaitingApproval
      ensures Streaming() && ActMode() && Memory() && Cites()
      ensures panicked == (!parallel && Panics(c))
      ensures sse.log == if parallel then old(sse.log) else old(sse.log) + CallEvents(input, c)
      ensures awaitingApproval == (!panicked && Pends(c))
      ensures Processed(old(Mind()), Mind(), c, parallel, panicked)
    {
      hide Streaming, ActMode, Memory, CallEvents, FeedbackOf, RunActs, CitedBy, ToldLast, Fresh, Take, Room, Pends, Panics,
        Processed;
      ghost var before := Mind();
      var result := outcome;
      panicked := false;
      if !parallel {
        var pending, feedback;
        panicked, pending, feedback := ExecuteModelToolCall(c);
        if panicked {
          ProcessedPanic(before, Mind(), c);
          return;
        }
        result := ToolOutcome(pending, feedback);
      }
      CitedMore(ran, c);
      var message := Tell(c, result);
      ToldLabels(ran);
      messages := messages + [ToolReply(c.call.id, message)];
      Cite(c.call.name, message);
      ProcessedAs(before, Mind(), c, parallel);
      if result.pending {
        awaitingApproval := true;
      }
    }

    /** A call after the one that paused the run is only answered. */
    method Skip(c: PlannedCall)
      requires Streaming()
      modifies sse, this`messages
      ensures Streaming() && SkippedOne(old(Mind()), Mind(), c)
      ensures sse.log == old(sse.log) + [SkipEvent(input, c)]
    {
      hide OpenOf, WireOf, LastProposal, Disciplined, AllCarried;
      Send(SkipEvent(input, c));
      messages := messages + [ToolReply(c.call.id, Feedback(SKIPPED, []))];
    }

    /** The results of a turn, in the order of its calls. */
    method ConsumeCalls(calls: seq<PlannedCall>, parallel: bool, outcomes: seq<ToolOutcome>) returns (verdict: TurnEnd)
      requires Streaming() && ActMode() && Memory() && Cites() && !awaitingApproval && textOpen == textStarted
      requires parallel ==> |outcomes| == |calls| && forall w :: 0 <= w < |calls| ==> outcomes[w] == OutcomeOf(calls[w])
      modifies sse, this`acts, this`knowledgeCitations, this`autoApproveRisk, this`executedCalls, this`ran, this`told,
               this`messages, this`awaitingApproval
      ensures Streaming() && ActMode() && Memory() && Cites()
      ensures Consumes(old(Mind()), Mind(), calls, parallel, verdict)
      ensures awaitingApproval == (verdict.Paused? || (verdict.Broken? && verdict.paused))
      ensures sse.log == old(sse.log) + EventsOf(input, calls, parallel)
    {
      hide Streaming, ActMode, Memory, Cites, CallEvents, Consuming, Consumes, Processed, SkippedOne, Pends, Panics, SkipEvent,
        Sending, EventsOf, OutcomeOf;
      ghost var evs: seq<AgentEvent> := [];
      ConsumingStart(Mind(), calls, parallel);
      SendingStart(input, calls, parallel);
      Joined(sse.log, [], evs);
      var i := 0;
      while i < |calls|
        invariant 0 <= i <= |calls| && Streaming() && ActMode() && Memory() && Cites()
        invariant Consuming(old(Mind()), Mind(), calls, parallel, i, awaitingApproval)
        invariant sse.log == old(sse.log) + evs && Sending(input, calls, parallel, i, awaitingApproval, evs)
      {
        var c := calls[i];
        ghost var mind := Mind();
        if awaitingApproval {
          SendingSkip(input, calls, parallel, i, evs);
          Joined(old(sse.log), evs, [SkipEvent(input, c)]);
          Skip(c);
          evs := evs + [SkipEvent(input, c)];
          ConsumingSkip(old(Mind()), mind, Mind(), calls, parallel, i);
        } else {
          SendingTake(input, calls, parallel, i, evs);
          Joined(old(sse.log), evs, if parallel then [] else CallEvents(input, c));
          var panicked := Process(c, parallel, if parallel then outcomes[i] else ToolOutcome(false, Feedback("", [])));
          evs := evs + if parallel then [] else CallEvents(input, c);
          if panicked {
            ConsumingPanic(old(Mind()), mind, Mind(), calls, i);
            return Fatal;
          }
          ConsumingTake(old(Mind()), mind, Mind(), calls, parallel, i);
          if c.ctxAfter != Alive {
            return Broken(c.ctxAfter, awaitingApproval);
          }
        }
        i := i + 1;
      }
      ConsumingEnd(old(Mind()), Mind(), calls, parallel, awaitingApproval);
      SendingEnd(input, calls, parallel, awaitingApproval, evs);
      verdict := if awaitingApproval then Paused else Proceed;
    }

    // ----- The run

    /** How the run stands on the wire and in the store. */
    ghost predicate Closed(end: End)
      reads sse
    {
      && sse.Valid() && sse.terminal
      && Complete(sse.wire, TerminalBody(LastProposal(sse.log), ErrorOf(end)), AllCarried(sse.log), OpenOf(sse.log).tools)
    }

    /** A cancelled or expired request context ends the run; what is persisted
        tells the two apart. */
    method TerminateOnContext(ctx: Ctx, paused: bool)
      requires Streaming() && textOpen == textStarted && ctx != Alive
      modifies sse, this`textOpen, store`finishes
      ensures Closed(Stopped(ctx, paused))
      ensures Out() == old(Out())
      ensures store.finishes == old(store.finishes) + FinishesOf(Stopped(ctx, paused))
    {
      hide Streaming, Complete, TerminalBody, LastProposal, OpenOf, AllCarried;
      EndText();
      var code, status := "ai.run_cancelled", CANCELLED;
      if ctx == DeadlineExceeded {
        code, status := "ai.run_timeout", FAILED;
      }
      FinishRun(code);
      store.Finish(status);
    }

    /** The model answered without calling a tool. */
    method Answer(turn: Turn, turnText: string)
      requires Streaming() && textOpen == textStarted && (|turnText| > 0 ==> textStarted)
      modifies sse, this`textStarted, this`textOpen, store`finishes
      ensures Closed(Answered)
      ensures Out() == old(Out()).(sent := old(Out()).sent + Notes(input, turn, turnText, knowledgeCitations))
      ensures store.finishes == old(store.finishes) + [SUCCEEDED]
    {
      hide Streaming, Complete, TerminalBody, LastProposal, OpenOf, AllCarried;
      hide Notes, CitationBlock, MessageId, HasValidCitation;
      NotesFollow(Out().sent, input, turn, turnText, knowledgeCitations);
      if Text.Blank(turnText) {
        StartText();
        Content(NO_ANSWER);
      }
      if turn.cutOff {
        StartText();
        Content(CUT_OFF);
      }
      if |knowledgeCitations| > 0 && !turn.noEvidence && !HasValidCitation(turn.cleaned, knowledgeCitations) {
        Content(CitationBlock(knowledgeCitations));
      }
      EndText();
      FinishRun("");
      store.Finish(SUCCEEDED);
    }

    /** The model call failed. */
    method FailModel(error: ModelError)
      requires Streaming() && textOpen == textStarted
      modifies sse, this`textOpen, store`finishes
      ensures Closed(ModelFailed(error))
      ensures Out() == old(Out())
      ensures store.finishes == old(store.finishes) + [FAILED]
    {
      hide Streaming, Complete, TerminalBody, LastProposal, OpenOf, AllCarried;
      EndText();
      FinishRun(ModelErrorCode(error));
      store.Finish(FAILED);
    }

    /** The run waits for a human decision: nothing is persisted. */
    method Pause()
      requires Streaming() && textOpen == textStarted
      modifies sse, this`textOpen
      ensures Closed(Waiting)
      ensures Out() == old(Out())
    {
      hide Streaming, Complete, TerminalBody, LastProposal, OpenOf, AllCarried;
      EndText();
      FinishRun("");
    }

    /** The step budget is used up: the text message is ended, and the writer
        reopens it for the closing note. */
    method GiveUp()
      requires Streaming() && textOpen == textStarted
      modifies sse, this`textStarted, this`textOpen, store`finishes
      ensures Closed(StepLimit)
      ensures Out() == old(Out()).(sent := old(Out()).sent + [WTextContent(MessageId(input), OUT_OF_STEPS)])
      ensures store.finishes == old(store.finishes) + [FAILED]
    {
      hide Streaming, Complete, TerminalBody, LastProposal, OpenOf, AllCarried;
      EndText();
      StartText();
      Content(OUT_OF_STEPS);
      FinishRun("ai.agent_step_limit");
      store.Finish(FAILED);
    }

    /** Calls run concurrently when there are several and every one resolves
        beforehand; each is resolved once more when it runs. */
    method DecideParallel(calls: seq<PlannedCall>) returns (parallel: bool)
      ensures parallel == InParallel(calls)
      ensures parallel <==> |calls| >= 2 && forall i :: 0 <= i < |calls| ==> calls[i].probed
    {
      parallel := |calls| > 1;
      if parallel {
        for i := 0 to |calls|
          invariant parallel && forall j :: 0 <= j < i ==> calls[j].probed
        {
          if !calls[i].probed {
            parallel := false;
            return;
          }
        }
      }
    }

    /** Executes the calls of a turn and feeds the results back. */
    method RunTools(calls: seq<PlannedCall>) returns (verdict: TurnEnd, ghost evs: seq<AgentEvent>)
      requires Streaming() && ActMode() && Memory() && Cites() && !awaitingApproval && textOpen == textStarted
      modifies sse, this`acts, this`knowledgeCitations, this`autoApproveRisk, this`executedCalls, this`ran, this`told,
               this`messages, this`awaitingApproval
      ensures Streaming() && ActMode() && Memory() && Cites()
      ensures ToolsRan(old(Mind()), Mind(), calls, verdict)
      ensures awaitingApproval == (verdict.Paused? || (verdict.Broken? && verdict.paused))
      ensures sse.log == old(sse.log) + evs && ToolEvents(input, calls, evs)
    {
      hide Streaming, ActMode, Memory, Cites, Interleaves, Consumes, ToolsRan, RunsOf, EventsOf, Work;
      var parallel := DecideParallel(calls);
      var outcomes := [];
      ghost var own: seq<AgentEvent> := [];
      if parallel {
        outcomes, own := ExecuteInParallel(calls);
      }
      ghost var begun := Mind();
      verdict := ConsumeCalls(calls, parallel, outcomes);
      ToolsRanOf(old(Mind()), begun, Mind(), calls, verdict);
      evs := own + EventsOf(input, calls, parallel);
      if parallel { assert Concurrent(input, calls, evs, |own|); }
    }

    /** Acts on a successful model call: answers, or runs the tools asked for. */
    method Respond(turn: Turn, turnText: string, turnReasoning: string, collected: seq<PlannedCall>,
                   ghost asked: Output)
      returns (result: TurnResult)
      requires Streaming() && ActMode() && Memory() && Cites() && !awaitingApproval && textOpen == textStarted
      requires WellPaired(messages) && (|turnText| > 0 ==> textStarted)
      requires turn.ctxAfter == Alive && turn.failure.None? && collected == CallsOf(turn.stream)
      requires Out() == asked.(sent := asked.sent + SpokenOf(input, turn.stream))
      requires turnText == TextOf(turn.stream) && turnReasoning == ThoughtOf(turn.stream)
      modifies sse, store`finishes, this`textStarted, this`textOpen, this`acts, this`knowledgeCitations,
               this`autoApproveRisk, this`executedCalls, this`ran, this`told, this`messages, this`awaitingApproval
      ensures result == ResultOf(turn)
      ensures ActMode() && Memory() && Cites()
      ensures Turned(old(Mind()), Mind(), old(messages), turn, result)
      ensures awaitingApproval == (result.PausedTurn? || (result.Over? && Unsettled(result.end)))
      ensures Puts(asked, Out(), input, turn, old(CitedBy(ran)))
      ensures !result.Over? || result.end.Crashed? ==> Streaming()
      ensures !result.Over? ==> textOpen == textStarted && store.finishes == old(store.finishes)
      ensures result.Over? ==> store.finishes == old(store.finishes) + FinishesOf(result.end)
      ensures result.Over? && !result.end.Crashed? ==> Closed(result.end)
    {
      hide Streaming, ActMode, Memory, Cites, Closed, AllCarried, LastProposal, OpenOf, SpokenOf, CitedBy, Puts, ToolEvents, Notes, WellPaired, CallsOf, TextOf, ThoughtOf, NamesInOrder,
        TurnNames, ToolsRan, Turned;
      ghost var before := Mind();
      if collected == [] {
        CitesAre();
        Answer(turn, turnText);
        PutsAnswer(asked, Out(), input, turn, CitedBy(ran));
        TurnedQuiet(before, Mind(), before.messages, turn, Answered);
        return Over(Answered);
      }
      messages := messages + [Assistant(turnText, turnReasoning, CallIds(collected))];
      ghost var held, log := Mind(), sse.log;
      WalkBreaks(collected, InParallel(collected));
      Steadily();
      ghost var evs;
      var verdict;
      verdict, evs := RunTools(collected);
      Steadily();
      PutsTools(asked, Out(), input, turn, CitedBy(before.ran), log, textOpen, evs);
      VerdictOf(held, Mind(), collected, verdict);
      hide Walk;
      TurnedTools(before, held, Mind(), turn, verdict, ResultOf(turn));
      match verdict {
        case Proceed =>
          return NextTurn;
        case Paused =>
          return PausedTurn;
        case Broken(ctx, paused) =>
          TerminateOnContext(ctx, paused);
          return Over(Stopped(ctx, paused));
        case Fatal =>
          return Over(Crashed);
      }
    }

    /** What follows a model call: the run ends when the call was cut short or
        failed, and the answer or the tools come next when it succeeded. */
    method Conclude(turn: Turn, turnText: string, turnReasoning: string, collected: seq<PlannedCall>,
                    ghost asked: Output)
      returns (result: TurnResult)
      requires Streaming() && ActMode() && Memory() && Cites() && !awaitingApproval && textOpen == textStarted
      requires WellPaired(messages) && (|turnText| > 0 ==> textStarted)
      requires Out() == asked.(sent := asked.sent + SpokenOf(input, turn.stream)) && collected == CallsOf(turn.stream)
      requires turnText == TextOf(turn.stream) && turnReasoning == ThoughtOf(turn.stream)
      modifies sse, store`finishes, this`textStarted, this`textOpen, this`acts, this`knowledgeCitations, this`totalTokens,
               this`autoApproveRisk, this`executedCalls, this`ran, this`told, this`messages, this`awaitingApproval
      ensures result == ResultOf(turn)
      ensures ActMode() && Memory() && Cites()
      ensures Turned(old(Mind()), Mind(), old(messages), turn, result)
      ensures awaitingApproval == (result.PausedTurn? || (result.Over? && Unsettled(result.end)))
      ensures Puts(asked, Out(), input, turn, old(CitedBy(ran)))
      ensures totalTokens == old(totalTokens) + TurnTokens(turn)
      ensures !result.Over? || result.end.Crashed? ==> Streaming()
      ensures !result.Over? ==> textOpen == textStarted && store.finishes == old(store.finishes)
      ensures result.Over? ==> store.finishes == old(store.finishes) + FinishesOf(result.end)
      ensures result.Over? && !result.end.Crashed? ==> Closed(result.end)
    {
      hide Streaming, ActMode, Memory, Cites, Closed, AllCarried, LastProposal, OpenOf, CitedBy, Puts, WellPaired, CallsOf, TextOf,
        ThoughtOf, SpokenOf, NamesInOrder, Walk, TurnNames, Turned;
      ghost var before := Mind();
      if turn.ctxAfter != Alive {
        TerminateOnContext(turn.ctxAfter, false);
        TurnedQuiet(before, Mind(), before.messages, turn, Stopped(turn.ctxAfter, false));
        PutsQuiet(asked, Out(), input, turn, CitedBy(before.ran));
        return Over(Stopped(turn.ctxAfter, false));
      }
      if turn.failure.Some? {
        FailModel(turn.failure.value);
        TurnedQuiet(before, Mind(), before.messages, turn, ModelFailed(turn.failure.value));
        PutsQuiet(asked, Out(), input, turn, CitedBy(before.ran));
        return Over(ModelFailed(turn.failure.value));
      }
      if turn.tokens > 0 {
        totalTokens := totalTokens + turn.tokens;
      }
      result := Respond(turn, turnText, turnReasoning, collected, asked);
    }

    /** One step of the loop: a model call and the tools it asks for. */
    method Step(turn: Turn, step: nat) returns (result: TurnResult)
      requires Streaming() && ActMode() && Memory() && Cites() && !awaitingApproval && textOpen == textStarted
      requires WellPaired(messages) && |requests| == step
      modifies this, sse, store`finishes
      ensures result == ResultOf(turn)
      ensures ActMode() && Memory() && Cites()
      ensures requests == old(requests)
        + [if Reserved(step, maxSteps) then Request(old(messages) + [System(WRITE_NOW)], false)
           else Request(old(messages), true)]
      ensures Turned(old(Mind()), Mind(), requests[step].messages, turn, result)
      ensures awaitingApproval == (result.PausedTurn? || (result.Over? && Unsettled(result.end)))
      ensures Puts(old(Out()), Out(), input, turn, CitedBy(old(ran)))
      ensures totalTokens == old(totalTokens) + TurnTokens(turn)
      ensures !result.Over? || result.end.Crashed? ==> Streaming()
      ensures !result.Over? ==> textOpen == textStarted && store.finishes == old(store.finishes)
      ensures result.Over? ==> store.finishes == old(store.finishes) + FinishesOf(result.end)
      ensures result.Over? && !result.end.Crashed? ==> Closed(result.end)
    {
      hide Streaming, ActMode, Memory, Cites, Closed, AllCarried, LastProposal, OpenOf, CitedBy, Puts, WellPaired, CallsOf, TextOf,
        ThoughtOf, SpokenOf, NamesInOrder, Walk, TurnNames, Turned, ResultOf, TurnTokens, Unsettled, FinishesOf;
      ghost var before := Mind();
      var offered := true;
      if maxSteps > 1 && step == maxSteps - 1 {
        offered := false;
        PairedSystem(messages, WRITE_NOW);
        messages := messages + [System(WRITE_NOW)];
      }
      ghost var asked := Mind();
      requests := requests + [Request(messages, offered)];
      ghost var output := Out();
      var turnText, turnReasoning, collected := StreamChat(turn.stream);
      result := Conclude(turn, turnText, turnReasoning, collected, output);
      TurnedFrom(before, asked, Mind(), turn, result);
    }

    /** The loop. What every model call is sent, what every tool runs under, what
        the client reads and how the run ends is what the script of the
        environment dictates. */
    method Steps(script: nat -> Turn)
      returns (end: End, ghost n: nat, ghost turns: seq<seq<Act>>, ghost contents: seq<seq<WireBody>>)
      requires Streaming() && ActMode() && Memory() && Cites() && !awaitingApproval && textOpen == textStarted
      requires WellPaired(messages) && requests == [] && totalTokens == 0
      requires acts == [] && ran == []
      modifies this, sse, store`finishes
      ensures Ends(script, maxSteps, n, end, totalTokens)
      ensures ActMode() && Memory() && Cites()
      ensures awaitingApproval == Unsettled(end)
      ensures requests == Requests(script, n, maxSteps, old(messages))
      ensures Reached(script, n, old(Mind()), Mind(), turns)
      ensures Written(input, script, n, old(Out()), Out(), contents, ClosingOf(input, end))
      ensures store.finishes == old(store.finishes) + FinishesOf(end)
      ensures if end.Crashed? then Streaming() else Closed(end)
    {
      hide Streaming, ActMode, Memory, Cites, Closed, WellPaired, ResultOf, Reached, Stands, Turned, Shown, Written, Puts,
        CitedBy, AllCarried, LastProposal, OpenOf, TurnTokens, Requests, FinishesOf, Remains, Ends;
      n := 0;
      turns, contents := [], [];
      RemainsStart(script, maxSteps);
      ReachedStart(script, maxSteps, Mind());
      WrittenStart(input, script, Out());
      var step := 0;
      while step < maxSteps && !awaitingApproval
        invariant 0 <= step <= maxSteps && n == step
        invariant Streaming() && ActMode() && Memory() && Cites() && textOpen == textStarted
        invariant requests == Requests(script, step, maxSteps, old(messages))
        invariant Reached(script, step, old(Mind()), Mind(), turns)
        invariant Written(input, script, step, old(Out()), Out(), contents, [])
        invariant !awaitingApproval ==>
          Stands(script, step, maxSteps, old(Mind()), Mind()) && (step > 0 ==> ResultOf(script(step - 1)).NextTurn?)
        invariant Remains(script, step, maxSteps, awaitingApproval, totalTokens)
        invariant store.finishes == old(store.finishes)
        decreases maxSteps - step
      {
        ghost var mind, output := Mind(), Out();
        StandsPaired(script, step, maxSteps, old(Mind()), mind);
        NoClosing(input, script(step));
        RemainsNext(script, step, maxSteps, totalTokens, ResultOf(script(step)));
        var result := Step(script(step), step);
        RequestsNext(script, step, maxSteps, old(messages));
        ReachedNext(script, step, maxSteps, old(Mind()), mind, Mind(), turns, result);
        WrittenNext(input, script, step, old(Out()), output, Out(), contents);
        turns, contents := turns + [acts[|mind.acts|..]], contents + [Out().sent[|output.sent|..]];
        n := n + 1;
        if result.Over? {
          return result.end, n, turns, contents;
        }
        step := step + 1;
      }
      RemainsEnd(script, step, maxSteps, awaitingApproval, totalTokens);
      Endings();
      if awaitingApproval {
        Pause();
        return Waiting, n, turns, contents;
      }
      WrittenLast(input, script, step, old(Out()), Out(), contents, ClosingOf(input, StepLimit));
      GiveUp();
      return StepLimit, n, turns, contents;
    }

    /** The whole run: the loop, then the deferred settlement of the quota
        reservation, which also runs when a tool panics. */
    method Run(script: nat -> Turn)
      returns (end: End, ghost turns: seq<seq<Act>>, ghost contents: seq<seq<WireBody>>)
      requires Streaming() && ActMode() && Memory() && Cites() && !awaitingApproval && textOpen == textStarted
      requires WellPaired(messages) && requests == [] && totalTokens == 0
      requires acts == [] && ran == []
      modifies this, sse, store
      ensures end == ExpectedEnd(script, 0, maxSteps)
      ensures ActMode() && Memory() && Cites()
      ensures requests == Requests(script, TurnCount(script, 0, maxSteps), maxSteps, old(messages))
      ensures Reached(script, TurnCount(script, 0, maxSteps), old(Mind()), Mind(), turns)
      ensures Written(input, script, TurnCount(script, 0, maxSteps), old(Out()), Out(), contents, ClosingOf(input, end))
      ensures store.finishes == old(store.finishes) + FinishesOf(end)
      ensures store.quota == old(store.quota) + QuotaOf(end, ExpectedTokens(script, 0, maxSteps))
      ensures if end.Crashed? then Streaming() else Closed(end)
    {
      hide Streaming, ActMode, Memory, Cites, Closed, WellPaired, ExpectedEnd, ExpectedTokens, Reached, Shown, TurnCount,
        Written, AllCarried, LastProposal, OpenOf, Requests;
      ghost var n;
      end, n, turns, contents := Steps(script);
      if awaitingApproval {
        return;
      }
      store.FinalizeQuota(totalTokens);
    }
  }
}
