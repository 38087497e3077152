/** What a turn puts on the wire, told from the turn alone (agentStepsLoop in
    handler/agent.go): its content, and the proposal a client can resume. */
module TurnWire {
  import opened Common
  import opened Sse
  import opened AgentTypes
  import opened AgentStream
  import opened Interleaving
  import opened Citations
  import opened Conversation
  import opened ToolTurn
  import Text

  const NO_ANSWER := "Tôi chưa có câu trả lời cho yêu cầu này."
  const CUT_OFF := "\n\n[Câu trả lời bị cắt vì đạt giới hạn độ dài. Hãy yêu cầu tiếp tục hoặc hỏi cụ thể hơn.]"
  const OUT_OF_STEPS := "Dừng lại sau số bước xử lý tối đa. Vui lòng thử lại với yêu cầu cụ thể hơn."

  // ----- The events of the tools

  function SkipEvent(input: RunInput, c: PlannedCall): AgentEvent {
    Emit(input, ToolResult(c.call.id, "", "", Payload(SKIPPED, ""), "ai.tool_skipped_pending_approval"))
  }

  function SkipEvents(input: RunInput, calls: seq<PlannedCall>): (evs: seq<AgentEvent>)
    ensures |evs| == |calls|
  {
    seq(|calls|, i requires 0 <= i < |calls| => SkipEvent(input, calls[i]))
  }

  /** The events while the calls of a turn are gone through in order. Calls that
      ran concurrently have sent theirs before. */
  function EventsOf(input: RunInput, calls: seq<PlannedCall>, parallel: bool): seq<AgentEvent> {
    if calls == [] then []
    else
      (if parallel then [] else CallEvents(input, calls[0]))
      + (if (!parallel && Panics(calls[0])) || calls[0].ctxAfter != Alive then []
         else if Pends(calls[0]) then SkipEvents(input, calls[1..])
         else EventsOf(input, calls[1..], parallel))
  }

  lemma NextEvents(input: RunInput, calls: seq<PlannedCall>, i: nat, parallel: bool)
    requires i < |calls|
    ensures SkipEvents(input, calls[i..]) == [SkipEvent(input, calls[i])] + SkipEvents(input, calls[i + 1..])
    ensures EventsOf(input, calls[i..], parallel)
         == (if parallel then [] else CallEvents(input, calls[i]))
            + (if (!parallel && Panics(calls[i])) || calls[i].ctxAfter != Alive then []
               else if Pends(calls[i]) then SkipEvents(input, calls[i + 1..])
               else EventsOf(input, calls[i + 1..], parallel))
  {
    hide CallEvents, SkipEvent, Panics, Pends;
    assert calls[i..][0] == calls[i] && calls[i..][1..] == calls[i + 1..];
  }

  /** The first i calls have been looked at and `evs` was sent meanwhile; the run
      may be waiting for an approval. */
  ghost predicate Sending(input: RunInput, calls: seq<PlannedCall>, parallel: bool, i: nat, waits: bool,
                          evs: seq<AgentEvent>)
  {
    && i <= |calls|
    && EventsOf(input, calls, parallel)
       == evs + if waits then SkipEvents(input, calls[i..]) else EventsOf(input, calls[i..], parallel)
  }

  lemma SendingStart(input: RunInput, calls: seq<PlannedCall>, parallel: bool)
    ensures Sending(input, calls, parallel, 0, false, [])
  {
    assert calls[0..] == calls;
  }

  lemma SendingSkip(input: RunInput, calls: seq<PlannedCall>, parallel: bool, i: nat, evs: seq<AgentEvent>)
    requires i < |calls| && Sending(input, calls, parallel, i, true, evs)
    ensures Sending(input, calls, parallel, i + 1, true, evs + [SkipEvent(input, calls[i])])
  {
    hide EventsOf, SkipEvents, SkipEvent;
    NextEvents(input, calls, i, parallel);
    var rest := SkipEvents(input, calls[i + 1..]);
    assert evs + ([SkipEvent(input, calls[i])] + rest) == evs + [SkipEvent(input, calls[i])] + rest;
  }

  lemma SendingTake(input: RunInput, calls: seq<PlannedCall>, parallel: bool, i: nat, evs: seq<AgentEvent>)
    requires i < |calls| && Sending(input, calls, parallel, i, false, evs)
    ensures var c := calls[i];
      var more := evs + if parallel then [] else CallEvents(input, c);
      if (!parallel && Panics(c)) || c.ctxAfter != Alive then EventsOf(input, calls, parallel) == more
      else Sending(input, calls, parallel, i + 1, Pends(c), more)
  {
    hide EventsOf, SkipEvents, CallEvents, Panics, Pends;
    NextEvents(input, calls, i, parallel);
    var c := calls[i];
    var own := if parallel then [] else CallEvents(input, c);
    var rest := if (!parallel && Panics(c)) || c.ctxAfter != Alive then []
                else if Pends(c) then SkipEvents(input, calls[i + 1..]) else EventsOf(input, calls[i + 1..], parallel);
    assert evs + (own + rest) == evs + own + rest;
  }

  lemma SendingEnd(input: RunInput, calls: seq<PlannedCall>, parallel: bool, waits: bool, evs: seq<AgentEvent>)
    requires Sending(input, calls, parallel, |calls|, waits, evs)
    ensures EventsOf(input, calls, parallel) == evs
  {
    assert calls[|calls|..] == [];
    assert SkipEvents(input, []) == [] && EventsOf(input, [], parallel) == [];
    assert evs + [] == evs;
  }

  ghost predicate Concurrent(input: RunInput, calls: seq<PlannedCall>, evs: seq<AgentEvent>, n: nat) {
    n <= |evs| && Interleaves(evs[..n], Work(input, calls)) && evs[n..] == EventsOf(input, calls, true)
  }

  /** Concurrent calls send some interleaving of their events and then the skips;
      the others send theirs in order. */
  ghost predicate ToolEvents(input: RunInput, calls: seq<PlannedCall>, evs: seq<AgentEvent>) {
    if InParallel(calls) then exists n: nat :: Concurrent(input, calls, evs, n)
    else evs == EventsOf(input, calls, false)
  }

  // ----- The proposal

  /** The approval and call id of one of the calls. */
  predicate Proposes(p: (string, string), calls: seq<PlannedCall>) {
    exists i :: 0 <= i < |calls| && Names(calls[i]) && p == (ApprovalId(calls[i]).value, calls[i].call.id)
  }

  lemma {:induction false} LastProposalConcat(log: seq<AgentEvent>, evs: seq<AgentEvent>)
    ensures LastProposal(log + evs) == if Reported(evs) then LastProposal(evs) else LastProposal(log)
    decreases |evs|
  {
    hide LastProposal, ProposalOf;
    if evs == [] {
      assert log + evs == log;
    } else {
      hide Reported;
      var n := |evs| - 1;
      var before, last := evs[..n], evs[n];
      assert evs == before + [last];
      assert log + evs == log + before + [last];
      LastProposalConcat(log, before);
      LastProposalAppend(log + before, last);
      LastProposalAppend(before, last);
      ReportedAppend(before, [last]);
      ReportedOne(last);
    }
  }

  lemma {:induction false} LastIsReported(evs: seq<AgentEvent>) returns (i: nat)
    requires Reported(evs)
    ensures i < |evs| && |ProposalOf(evs[i])| > 0 && LastProposal(evs) == (ProposalOf(evs[i]), evs[i].body.callId)
    decreases |evs|
  {
    var n := |evs| - 1;
    if |ProposalOf(evs[n])| > 0 {
      i := n;
    } else {
      assert evs == evs[..n] + [evs[n]];
      ReportedAppend(evs[..n], [evs[n]]);
      ReportedOne(evs[n]);
      i := LastIsReported(evs[..n]);
    }
  }

  /** A proposal among a call's events is that call's. */
  lemma CallProposes(input: RunInput, c: PlannedCall, i: nat)
    requires i < |CallEvents(input, c)| && |ProposalOf(CallEvents(input, c)[i])| > 0
    ensures Names(c)
    ensures (ProposalOf(CallEvents(input, c)[i]), CallEvents(input, c)[i].body.callId) == (ApprovalId(c).value, c.call.id)
  {
    CallProtocol(input, c);
  }

  lemma SkipsReportNothing(input: RunInput, calls: seq<PlannedCall>)
    ensures !Reported(SkipEvents(input, calls))
  {
  }

  /** Going through calls in order a proposal is reported exactly when the calls
      executed one after the other name one, and it is the last such call's. */
  lemma {:induction false} OrderProposes(input: RunInput, calls: seq<PlannedCall>, parallel: bool)
    ensures Reported(EventsOf(input, calls, parallel)) <==> !parallel && NamesInOrder(calls)
    ensures Reported(EventsOf(input, calls, parallel)) ==> Proposes(LastProposal(EventsOf(input, calls, parallel)), calls)
    decreases |calls|
  {
    if calls != [] {
      var c, rest := calls[0], calls[1..];
      var own := if parallel then [] else CallEvents(input, c);
      var more := if (!parallel && Panics(c)) || c.ctxAfter != Alive then []
                  else if Pends(c) then SkipEvents(input, rest) else EventsOf(input, rest, parallel);
      assert EventsOf(input, calls, parallel) == own + more;
      OrderProposes(input, rest, parallel);
      SkipsReportNothing(input, rest);
      CallProtocol(input, c);
      hide CallEvents, EventsOf, SkipEvents, LastProposal;
      ReportedAppend(own, more);
      LastProposalConcat(own, more);
      if Reported(more) {
        Later(LastProposal(more), calls);
      } else if Reported(own) {
        var i := LastIsReported(own);
        CallProposes(input, c, i);
        assert Names(calls[0]);
      }
    }
  }

  lemma Later(p: (string, string), calls: seq<PlannedCall>)
    requires calls != [] && Proposes(p, calls[1..])
    ensures Proposes(p, calls)
  {
    var i :| 0 <= i < |calls[1..]| && Names(calls[1..][i]) && p == (ApprovalId(calls[1..][i]).value, calls[1..][i].call.id);
    assert calls[i + 1] == calls[1..][i];
  }

  lemma ConcurrentProposes(input: RunInput, calls: seq<PlannedCall>, evs: seq<AgentEvent>)
    requires Interleaves(evs, Work(input, calls)) && Reported(evs)
    ensures Proposes(LastProposal(evs), calls)
  {
    hide CallEvents, Project, LastProposal, ProposalOf;
    var work := Work(input, calls);
    var sender: seq<nat> :| IsSchedule(evs, sender, work);
    var i := LastIsReported(evs);
    FromWorker(evs, sender, i);
    var k :| 0 <= k < |Project(evs, sender, sender[i])| && Project(evs, sender, sender[i])[k] == evs[i];
    CallProposes(input, calls[sender[i]], k);
  }

  /** The tools of a turn report a proposal exactly when the turn says so, and it
      is the one of a call of the turn. */
  lemma ToolsPropose(input: RunInput, calls: seq<PlannedCall>, evs: seq<AgentEvent>)
    requires ToolEvents(input, calls, evs)
    ensures Reported(evs) <==> TurnNames(calls)
    ensures Reported(evs) ==> Proposes(LastProposal(evs), calls)
  {
    hide EventsOf, Interleaves, LastProposal, NamesInOrder, Names, Work;
    OrderProposes(input, calls, false);
    OrderProposes(input, calls, true);
    if InParallel(calls) {
      var n: nat :| Concurrent(input, calls, evs, n);
      InterleavingReports(input, evs[..n], calls);
      if Reported(evs[..n]) { ConcurrentProposes(input, calls, evs[..n]); }
      assert evs == evs[..n] + evs[n..];
      ReportedAppend(evs[..n], evs[n..]);
      LastProposalConcat(evs[..n], evs[n..]);
    }
  }

  // ----- The content of a turn

  lemma {:induction false} AllCarriedConcat(log: seq<AgentEvent>, evs: seq<AgentEvent>)
    ensures AllCarried(log + evs) == AllCarried(log) + AllCarried(evs)
    decreases |evs|
  {
    hide Carried;
    if evs == [] {
      assert log + evs == log && AllCarried(log) + [] == AllCarried(log);
    } else {
      hide AllCarried;
      var before, last := evs[..|evs| - 1], evs[|evs| - 1];
      assert evs == before + [last] && log + evs == log + before + [last];
      AllCarriedConcat(log, before);
      AllCarriedAppend(log + before, last);
      AllCarriedAppend(before, last);
      assert AllCarried(log) + (AllCarried(before) + Carried(last)) == AllCarried(log) + AllCarried(before) + Carried(last);
    }
  }

  // ----- What the tools of a turn leave with the client

  function ResultBody(input: RunInput, c: PlannedCall, text: string): WireBody {
    WToolResult("tool-msg-" + input.runId, c.call.id, text)
  }

  /** The content one tool call puts on the wire, told from how it resolves: a
      tool that runs is announced with its call's id, its name and its arguments,
      and ended before its result; a call that does not run only has a result. */
  function CallBodies(input: RunInput, c: PlannedCall): seq<WireBody> {
    match c.resolution
    case UnknownTool => [ResultBody(input, c, "{\"error\":\"unknown_tool\"}")]
    case Forbidden => [ResultBody(input, c, "{\"error\":\"forbidden\"}")]
    case InvalidArguments => [ResultBody(input, c, "{\"error\":\"invalid_arguments\"}")]
    case ApprovalRequired(Created(id)) => [ResultBody(input, c, "{\"proposal\":{\"id\":\"" + id + "\"}}")]
    case ApprovalRequired(_) => [ResultBody(input, c, "{\"denied\":\"approval_unavailable\"}")]
    case Ready(AuditUnavailable) => [ResultBody(input, c, "{\"error\":\"ai.tool_persistence_unavailable\"}")]
    case Ready(Panicked) => [WToolStart(c.call.id, c.call.name), WToolArgs(c.call.id, c.call.arguments)]
    case Ready(Proposed(id)) =>
      [WToolStart(c.call.id, c.call.name), WToolArgs(c.call.id, c.call.arguments), WToolEnd(c.call.id),
       ResultBody(input, c, "{\"proposal\":{\"id\":\"" + id + "\"}}")]
    case Ready(Completed(streamed, _)) =>
      [WToolStart(c.call.id, c.call.name), WToolArgs(c.call.id, c.call.arguments), WToolEnd(c.call.id),
       ResultBody(input, c, if streamed != "" then streamed else "{}")]
  }

  function SkipBodies(input: RunInput, calls: seq<PlannedCall>): (ws: seq<WireBody>)
    ensures |ws| == |calls|
    ensures forall i :: 0 <= i < |calls| ==> ws[i] == ResultBody(input, calls[i], "{\"error\":\"skipped_pending_approval\"}")
  {
    seq(|calls|, i requires 0 <= i < |calls| => ResultBody(input, calls[i], "{\"error\":\"skipped_pending_approval\"}"))
  }

  /** The content while the calls of a turn are gone through in order: those
      after one that waits for approval are only told so. */
  function BodiesOf(input: RunInput, calls: seq<PlannedCall>, parallel: bool): seq<WireBody> {
    if calls == [] then []
    else
      (if parallel then [] else CallBodies(input, calls[0]))
      + (if (!parallel && Panics(calls[0])) || calls[0].ctxAfter != Alive then []
         else if Pends(calls[0]) then SkipBodies(input, calls[1..])
         else BodiesOf(input, calls[1..], parallel))
  }

  function BodyWork(input: RunInput, calls: seq<PlannedCall>): (work: seq<seq<WireBody>>)
    ensures |work| == |calls| && forall w :: 0 <= w < |calls| ==> work[w] == CallBodies(input, calls[w])
  {
    seq(|calls|, w requires 0 <= w < |calls| => CallBodies(input, calls[w]))
  }

  ghost predicate ConcurrentBodies(input: RunInput, calls: seq<PlannedCall>, ws: seq<WireBody>, n: nat) {
    n <= |ws| && Interleaves(ws[..n], BodyWork(input, calls)) && ws[n..] == BodiesOf(input, calls, true)
  }

  /** The content of the tool calls of a turn: concurrent calls leave some
      interleaving of theirs and then the skips; the others one after the other. */
  ghost predicate ToolBodies(input: RunInput, calls: seq<PlannedCall>, ws: seq<WireBody>) {
    if InParallel(calls) then exists n: nat :: ConcurrentBodies(input, calls, ws, n)
    else ws == BodiesOf(input, calls, false)
  }

  lemma CarriedFew(a: AgentEvent, b: AgentEvent, c: AgentEvent, d: AgentEvent)
    ensures AllCarried([a]) == Carried(a) && AllCarried([a, b]) == Carried(a) + Carried(b)
    ensures AllCarried([a, b, c, d]) == Carried(a) + Carried(b) + Carried(c) + Carried(d)
  {
    hide Carried;
    assert [a, b, c, d][..3] == [a, b, c] && [a, b, c][..2] == [a, b] && [a, b][..1] == [a] && [a][..0] == [];
    assert [] + Carried(a) == Carried(a);
    assert AllCarried([a, b, c]) == AllCarried([a, b]) + Carried(c);
  }

  lemma FramesCarried(input: RunInput, c: PlannedCall)
    ensures Carried(Emit(input, ToolStart(c.call.id, c.call.name))) == [WToolStart(c.call.id, c.call.name)]
    ensures Carried(Emit(input, ToolArgs(c.call.id, c.call.arguments))) == [WToolArgs(c.call.id, c.call.arguments)]
    ensures Carried(Emit(input, ToolEnd(c.call.id))) == [WToolEnd(c.call.id)]
    ensures forall s :: Carried(Emit(input, ToolResult(c.call.id, "tool-msg-" + input.runId, s, NO_PAYLOAD, "")))
                     == [ResultBody(input, c, if s != "" then s else "{}")]
  {}

  lemma ResultCarried(input: RunInput, c: PlannedCall, json: string, proposal: string, error: string)
    requires json != ""
    ensures Carried(Emit(input, ToolResult(c.call.id, "", "", Payload(json, proposal), error))) == [ResultBody(input, c, json)]
  {}

  /** A tool that ended carries its start, its arguments, its end and its result. */
  lemma EndedCarried(input: RunInput, c: PlannedCall, result: AgentEvent, body: WireBody)
    requires Carried(result) == [body]
    ensures AllCarried([Emit(input, ToolStart(c.call.id, c.call.name)), Emit(input, ToolArgs(c.call.id, c.call.arguments))]
                       + [Emit(input, ToolEnd(c.call.id)), result])
         == [WToolStart(c.call.id, c.call.name), WToolArgs(c.call.id, c.call.arguments), WToolEnd(c.call.id), body]
  {
    FramesCarried(input, c);
    hide AllCarried, Carried;
    var a, b := Emit(input, ToolStart(c.call.id, c.call.name)), Emit(input, ToolArgs(c.call.id, c.call.arguments));
    var end := Emit(input, ToolEnd(c.call.id));
    CarriedFew(a, b, end, result);
    assert [a, b] + [end, result] == [a, b, end, result];
  }

  lemma ReadyCarried(input: RunInput, c: PlannedCall)
    requires c.resolution.Ready?
    ensures AllCarried(CallEvents(input, c)) == CallBodies(input, c)
  {
    ReadyEvents(input, c);
    FramesCarried(input, c);
    hide AllCarried, Carried, CallEvents, ResultBody;
    var a, b := Emit(input, ToolStart(c.call.id, c.call.name)), Emit(input, ToolArgs(c.call.id, c.call.arguments));
    match c.resolution.execution
    case AuditUnavailable =>
      ResultCarried(input, c, AUDIT_UNAVAILABLE, "", "ai.tool_persistence_unavailable");
      var refusal := Refusal(input, c, AUDIT_UNAVAILABLE, "ai.tool_persistence_unavailable");
      CarriedFew(refusal, refusal, refusal, refusal);
    case Panicked =>
      CarriedFew(a, b, a, b);
    case Proposed(id) =>
      ResultCarried(input, c, ProposalPayload(id).json, id, "");
      EndedCarried(input, c, Emit(input, ToolResult(c.call.id, "", "", ProposalPayload(id), "")),
                   ResultBody(input, c, ProposalPayload(id).json));
    case Completed(streamed, _) =>
      EndedCarried(input, c, Emit(input, ToolResult(c.call.id, "tool-msg-" + input.runId, streamed, NO_PAYLOAD, "")),
                   ResultBody(input, c, if streamed != "" then streamed else "{}"));
  }

  /** The events of a call carry its content. */
  lemma CallCarried(input: RunInput, c: PlannedCall)
    ensures AllCarried(CallEvents(input, c)) == CallBodies(input, c)
  {
    if c.resolution.Ready? {
      ReadyCarried(input, c);
    } else {
      RefusedCarried(input, c);
    }
  }

  lemma RefusedCarried(input: RunInput, c: PlannedCall)
    requires !c.resolution.Ready?
    ensures AllCarried(CallEvents(input, c)) == CallBodies(input, c)
  {
    hide AllCarried, Carried;
    var ev := CallEvents(input, c)[0];
    assert CallEvents(input, c) == [ev];
    CarriedFew(ev, ev, ev, ev);
    match c.resolution
    case UnknownTool => ResultCarried(input, c, UNKNOWN_TOOL, "", "ai.tool_not_found");
    case Forbidden => ResultCarried(input, c, FORBIDDEN, "", "ai.tool_forbidden");
    case InvalidArguments => ResultCarried(input, c, INVALID_ARGUMENTS, "", "ai.tool_invalid");
    case ApprovalRequired(Disabled) => ResultCarried(input, c, DENIED, "", "ai.tool_approval_unavailable");
    case ApprovalRequired(NotPersisted(code)) => ResultCarried(input, c, DENIED, "", code);
    case ApprovalRequired(Created(id)) => ResultCarried(input, c, ProposalPayload(id).json, id, "");
  }

  lemma SkipsLast(input: RunInput, calls: seq<PlannedCall>)
    requires calls != []
    ensures var n := |calls| - 1;
      && SkipEvents(input, calls) == SkipEvents(input, calls[..n]) + [SkipEvent(input, calls[n])]
      && SkipBodies(input, calls) == SkipBodies(input, calls[..n]) + Carried(SkipEvent(input, calls[n]))
  {
    ResultCarried(input, calls[|calls| - 1], SKIPPED, "", "ai.tool_skipped_pending_approval");
    hide Carried, ResultBody;
  }

  lemma {:induction false} SkipsCarried(input: RunInput, calls: seq<PlannedCall>)
    ensures AllCarried(SkipEvents(input, calls)) == SkipBodies(input, calls)
    decreases |calls|
  {
    if calls != [] {
      var n := |calls| - 1;
      SkipsCarried(input, calls[..n]);
      SkipsLast(input, calls);
      hide SkipEvents, SkipBodies, SkipEvent, Carried, AllCarried;
      AllCarriedAppend(SkipEvents(input, calls[..n]), SkipEvent(input, calls[n]));
    }
  }

  lemma {:induction false} OrderCarried(input: RunInput, calls: seq<PlannedCall>, parallel: bool)
    ensures AllCarried(EventsOf(input, calls, parallel)) == BodiesOf(input, calls, parallel)
    decreases |calls|
  {
    if calls != [] {
      var c, rest := calls[0], calls[1..];
      var own := if parallel then [] else CallEvents(input, c);
      var more := if (!parallel && Panics(c)) || c.ctxAfter != Alive then []
                  else if Pends(c) then SkipEvents(input, rest) else EventsOf(input, rest, parallel);
      assert EventsOf(input, calls, parallel) == own + more;
      assert AllCarried([]) == [];
      OrderCarried(input, rest, parallel);
      hide CallEvents, CallBodies, EventsOf, AllCarried, Panics, Pends;
      SkipsCarried(input, rest);
      CallCarried(input, c);
      AllCarriedConcat(own, more);
    }
  }

  lemma {:induction false} CarriedEach(evs: seq<AgentEvent>)
    requires forall i :: 0 <= i < |evs| ==> IsToolEvent(evs[i])
    ensures |AllCarried(evs)| == |evs|
    decreases |evs|
  {
    if evs != [] {
      CarriedEach(evs[..|evs| - 1]);
      assert IsToolEvent(evs[|evs| - 1]);
    }
  }

  lemma CarriedLast(evs: seq<AgentEvent>)
    requires evs != [] && forall i :: 0 <= i < |evs| ==> IsToolEvent(evs[i])
    ensures var m := |evs| - 1;
      && |AllCarried(evs)| == |evs| && AllCarried(evs)[..m] == AllCarried(evs[..m])
      && Carried(evs[m]) == [AllCarried(evs)[m]]
  {
    CarriedEach(evs);
    CarriedEach(evs[..|evs| - 1]);
  }

  lemma {:induction false} ProjectCarried(evs: seq<AgentEvent>, sender: seq<nat>, w: nat)
    requires |sender| == |evs| && forall i :: 0 <= i < |evs| ==> IsToolEvent(evs[i])
    ensures |AllCarried(evs)| == |evs| && Project(AllCarried(evs), sender, w) == AllCarried(Project(evs, sender, w))
    decreases |evs|
  {
    hide Carried, IsToolEvent, AllCarried, Project;
    CarriedEach(evs);
    if evs == [] {
      NothingProjected(sender, w);
    } else {
      CarriedLast(evs);
      var m := |evs| - 1;
      ProjectCarried(evs[..m], sender[..m], w);
      ProjectLast(evs, sender, w);
      ProjectLast(AllCarried(evs), sender, w);
      AllCarriedAppend(Project(evs[..m], sender[..m], w), evs[m]);
    }
  }

  lemma NothingProjected(sender: seq<nat>, w: nat)
    requires sender == []
    ensures AllCarried([]) == [] && Project<AgentEvent>([], sender, w) == [] && Project<WireBody>([], sender, w) == []
  {}

  lemma ProjectLast<T>(log: seq<T>, sender: seq<nat>, w: nat)
    requires |log| == |sender| > 0
    ensures var m := |log| - 1;
      Project(log, sender, w)
      == if sender[m] == w then Project(log[..m], sender[..m], w) + [log[m]] else Project(log[..m], sender[..m], w)
  {}

  lemma ConcurrentCarried(input: RunInput, calls: seq<PlannedCall>, evs: seq<AgentEvent>)
    requires Interleaves(evs, Work(input, calls))
    ensures Interleaves(AllCarried(evs), BodyWork(input, calls)) && |AllCarried(evs)| == |evs|
  {
    hide AllCarried, Project, CallEvents, CallBodies, IsToolEvent;
    var work := Work(input, calls);
    var sender: seq<nat> :| IsSchedule(evs, sender, work);
    InterleavingIsTools(input, calls, evs);
    CarriedEach(evs);
    forall w | 0 <= w < |calls| ensures Project(AllCarried(evs), sender, w) == CallBodies(input, calls[w]) {
      ProjectCarried(evs, sender, w);
      CallCarried(input, calls[w]);
    }
    assert IsSchedule(AllCarried(evs), sender, BodyWork(input, calls));
  }

  /** The events of a turn's tools carry the content told from the calls. */
  lemma ToolsCarried(input: RunInput, calls: seq<PlannedCall>, evs: seq<AgentEvent>)
    requires ToolEvents(input, calls, evs)
    ensures ToolBodies(input, calls, AllCarried(evs))
  {
    hide AllCarried, EventsOf, BodiesOf, Interleaves, Work, BodyWork;
    OrderCarried(input, calls, InParallel(calls));
    if InParallel(calls) {
      var n: nat :| Concurrent(input, calls, evs, n);
      ConcurrentCarried(input, calls, evs[..n]);
      assert evs == evs[..n] + evs[n..];
      AllCarriedConcat(evs[..n], evs[n..]);
      var ws := AllCarried(evs);
      assert ws[..n] == AllCarried(evs[..n]) && ws[n..] == AllCarried(evs[n..]);
      assert ConcurrentBodies(input, calls, ws, n);
    }
  }

  // ----- What the tools of a turn leave open

  lemma {:induction false} SkipsBalance(input: RunInput, calls: seq<PlannedCall>, id: string)
    ensures Balance(SkipEvents(input, calls), id) == 0
    decreases |calls|
  {
    if calls != [] {
      var n := |calls| - 1;
      SkipsBalance(input, calls[..n], id);
      assert SkipEvents(input, calls)[..n] == SkipEvents(input, calls[..n]);
    }
  }

  /** Calls gone through in order leave nothing open unless one of them ended the
      process. */
  lemma {:induction false} OrderBalance(input: RunInput, calls: seq<PlannedCall>, parallel: bool, id: string)
    requires !Walk(calls, parallel).Fatal?
    ensures Balance(EventsOf(input, calls, parallel), id) == 0
    decreases |calls|
  {
    if calls != [] {
      var c, rest := calls[0], calls[1..];
      var own := if parallel then [] else CallEvents(input, c);
      var more := if c.ctxAfter != Alive then [] else if Pends(c) then SkipEvents(input, rest)
                  else EventsOf(input, rest, parallel);
      assert EventsOf(input, calls, parallel) == own + more;
      if c.ctxAfter == Alive && !Pends(c) { OrderBalance(input, rest, parallel, id); }
      hide CallEvents, EventsOf, Pends, Walk;
      SkipsBalance(input, rest, id);
      CallBalanced(input, c, id);
      BalanceConcat(own, more, id);
    }
  }

  /** What a turn leaves open: the calls whose tool panicked in a worker. */
  function LeftOpen(turn: Turn): multiset<string> {
    var calls := CallsOf(turn.stream);
    if Succeeds(turn) && InParallel(calls) then Unended(calls) else multiset{}
  }

  lemma ToolsBalance(input: RunInput, calls: seq<PlannedCall>, evs: seq<AgentEvent>, id: string)
    requires ToolEvents(input, calls, evs) && !Walk(calls, InParallel(calls)).Fatal?
    ensures Balance(evs, id) == if InParallel(calls) then Unended(calls)[id] else 0
  {
    hide EventsOf, Balance, Interleaves, Unended, Work, Walk;
    OrderBalance(input, calls, InParallel(calls), id);
    if InParallel(calls) {
      var n: nat :| Concurrent(input, calls, evs, n);
      InterleavingBalance(input, calls, evs[..n], id);
      assert evs == evs[..n] + evs[n..];
      BalanceConcat(evs[..n], evs[n..], id);
    }
  }

  lemma {:induction false} SkipsAreTools(input: RunInput, calls: seq<PlannedCall>)
    ensures forall i :: 0 <= i < |SkipEvents(input, calls)| ==> IsToolEvent(SkipEvents(input, calls)[i])
  {}

  lemma {:induction false} OrderIsTools(input: RunInput, calls: seq<PlannedCall>, parallel: bool)
    ensures forall i :: 0 <= i < |EventsOf(input, calls, parallel)| ==> IsToolEvent(EventsOf(input, calls, parallel)[i])
    decreases |calls|
  {
    if calls != [] {
      OrderIsTools(input, calls[1..], parallel);
      SkipsAreTools(input, calls[1..]);
      CallProtocol(input, calls[0]);
      hide CallEvents, IsToolEvent, Panics, Pends, SkipEvents;
    }
  }

  lemma ToolsAreTools(input: RunInput, calls: seq<PlannedCall>, evs: seq<AgentEvent>)
    requires ToolEvents(input, calls, evs)
    ensures forall i :: 0 <= i < |evs| ==> IsToolEvent(evs[i])
  {
    hide EventsOf, IsToolEvent, Interleaves, Work;
    OrderIsTools(input, calls, InParallel(calls));
    if InParallel(calls) {
      var n: nat :| Concurrent(input, calls, evs, n);
      InterleavingIsTools(input, calls, evs[..n]);
      assert evs == evs[..n] + evs[n..];
    }
  }

  /** What was open before a turn's tools and what they leave is open after. */
  lemma ToolsOpen(input: RunInput, log: seq<AgentEvent>, textOpen: bool, turn: Turn, evs: seq<AgentEvent>)
    requires Succeeds(turn) && CallsOf(turn.stream) != []
    requires ToolEvents(input, CallsOf(turn.stream), evs) && ResultOf(turn) != Over(Crashed)
    requires Steady(input, log, textOpen) && Steady(input, log + evs, textOpen)
    ensures OpenOf(log + evs).tools == OpenOf(log).tools + LeftOpen(turn)
  {
    hide *;
    NotFatal(turn);
    forall id: string ensures OpenOf(log + evs).tools[id] == (OpenOf(log).tools + LeftOpen(turn))[id] {
      ToolsOpenAt(input, log, textOpen, turn, evs, id);
    }
  }

  lemma NotFatal(turn: Turn)
    requires Succeeds(turn) && CallsOf(turn.stream) != [] && ResultOf(turn) != Over(Crashed)
    ensures !Walk(CallsOf(turn.stream), InParallel(CallsOf(turn.stream))).Fatal?
  {
    hide CallsOf, Walk, InParallel;
  }

  lemma ToolsOpenAt(input: RunInput, log: seq<AgentEvent>, textOpen: bool, turn: Turn, evs: seq<AgentEvent>, id: string)
    requires Succeeds(turn) && ToolEvents(input, CallsOf(turn.stream), evs)
    requires !Walk(CallsOf(turn.stream), InParallel(CallsOf(turn.stream))).Fatal?
    requires Steady(input, log, textOpen) && Steady(input, log + evs, textOpen)
    ensures OpenOf(log + evs).tools[id] == OpenOf(log).tools[id] + LeftOpen(turn)[id]
  {
    hide Steady, OpenOf, ToolEvents, Walk, Balance, Unended, CallsOf, IsToolEvent, InParallel;
    ToolsAreTools(input, CallsOf(turn.stream), evs);
    ToolsBalance(input, CallsOf(turn.stream), evs, id);
    OpenBalance(input, log, textOpen, evs, id);
  }

  /** The citations held after some calls were fed back. */
  function CitedBy(ran: seq<PlannedCall>): seq<string> {
    if ran == [] then []
    else
      var held := CitedBy(ran[..|ran| - 1]);
      held + Take(Citations.Fresh(held, FeedbackOf(ran[|ran| - 1]).Labels()), Room(|held|))
  }

  function CitationBlock(citations: seq<string>): string {
    "\n\nNguồn tham khảo:" + Listed(citations)
  }

  function Listed(citations: seq<string>): string {
    if citations == [] then "" else Listed(citations[..|citations| - 1]) + "\n- " + citations[|citations| - 1]
  }

  predicate Contains(s: string, part: string) { exists i :: 0 <= i <= |s| && part <= s[i..] }

  /** The answer names one of the citations read. */
  predicate HasValidCitation(reply: string, citations: seq<string>) {
    !Text.Blank(reply) && exists i :: 0 <= i < |citations| && !Text.Blank(citations[i]) && Contains(reply, citations[i])
  }

  /** The sources are written after an answer that should name one and does not. */
  predicate Unsourced(turn: Turn, citations: seq<string>) {
    |citations| > 0 && !turn.noEvidence && !HasValidCitation(turn.cleaned, citations)
  }

  lemma ContainsMore(a: string, b: string, c: string, part: string)
    requires Contains(b, part)
    ensures Contains(a + b + c, part)
  {
    var i :| 0 <= i <= |b| && part <= b[i..];
    assert (a + b + c)[|a| + i..] == b[i..] + c;
  }

  lemma {:induction false} ListedContains(citations: seq<string>, i: nat)
    requires i < |citations|
    ensures Contains(Listed(citations), citations[i])
    decreases |citations|
  {
    hide Contains;
    var n := |citations| - 1;
    if i < n {
      ListedContains(citations[..n], i);
      ContainsMore("", Listed(citations[..n]), "\n- " + citations[n], citations[i]);
      assert "" + Listed(citations[..n]) + ("\n- " + citations[n]) == Listed(citations);
    } else {
      Whole(citations[n]);
      ContainsMore(Listed(citations[..n]) + "\n- ", citations[n], "", citations[n]);
      assert Listed(citations[..n]) + "\n- " + citations[n] + "" == Listed(citations);
    }
  }

  lemma Whole(s: string)
    ensures Contains(s, s)
  {
    assert s[0..] == s;
  }

  lemma NotBlank(a: string, b: string, part: string)
    requires Contains(a + b, part) && !Text.Blank(part)
    ensures !Text.Blank(a + b)
  {
    var i :| 0 <= i <= |a + b| && part <= (a + b)[i..];
    var k :| 0 <= k < |part| && !Text.IsSpace(part[k]);
    assert (a + b)[i + k] == part[k];
  }

  /** Unless it states that there is no evidence, an answer given after a citation
      was read names one by the time it is stored. */
  lemma AnswerIsSourced(turn: Turn, citations: seq<string>, i: nat)
    requires !turn.noEvidence && i < |citations| && !Text.Blank(citations[i])
    ensures HasValidCitation(if Unsourced(turn, citations) then turn.cleaned + CitationBlock(citations) else turn.cleaned,
                             citations)
  {
    if Unsourced(turn, citations) {
      hide Contains, Text.Blank, Listed;
      ListedContains(citations, i);
      ContainsMore(turn.cleaned + "\n\nNguồn tham khảo:", Listed(citations), "", citations[i]);
      assert turn.cleaned + "\n\nNguồn tham khảo:" + Listed(citations) + "" == turn.cleaned + CitationBlock(citations);
      NotBlank(turn.cleaned, CitationBlock(citations), citations[i]);
    }
  }

  /** What is written after an answer: a stand-in when it is blank, a note when
      it was cut, and the sources when it should name them and does not. */
  function Notes(input: RunInput, turn: Turn, text: string, citations: seq<string>): seq<WireBody> {
    (if Text.Blank(text) then [WTextContent(MessageId(input), NO_ANSWER)] else [])
    + (if turn.cutOff then [WTextContent(MessageId(input), CUT_OFF)] else [])
    + (if Unsourced(turn, citations) then [WTextContent(MessageId(input), CitationBlock(citations))] else [])
  }

  lemma NotesFollow(sent: seq<WireBody>, input: RunInput, turn: Turn, text: string, citations: seq<string>)
    ensures var answered := if Text.Blank(text) then sent + [WTextContent(MessageId(input), NO_ANSWER)] else sent;
      var cut := if turn.cutOff then answered + [WTextContent(MessageId(input), CUT_OFF)] else answered;
      sent + Notes(input, turn, text, citations)
      == if Unsourced(turn, citations) then cut + [WTextContent(MessageId(input), CitationBlock(citations))] else cut
  {
    hide CitationBlock, MessageId, Text.Blank, Unsourced;
  }

  /** What a run has put on the wire, the proposal pending, and the tool calls
      started and not ended. */
  datatype Output = Output(sent: seq<WireBody>, pending: (string, string), open: multiset<string>)

  ghost predicate Sends(input: RunInput, turn: Turn, citations: seq<string>, content: seq<WireBody>, tools: seq<WireBody>) {
    && (if Succeeds(turn) then ToolBodies(input, CallsOf(turn.stream), tools) else tools == [])
    && content == SpokenOf(input, turn.stream) + tools
                  + if Succeeds(turn) && CallsOf(turn.stream) == [] then Notes(input, turn, TextOf(turn.stream), citations)
                    else []
  }

  /** The content of a turn: what the model says and thinks, what its tools
      report, and the notes after an answer. */
  ghost predicate TurnContent(input: RunInput, turn: Turn, citations: seq<string>, content: seq<WireBody>) {
    exists tools :: Sends(input, turn, citations, content, tools)
  }

  /** What a turn adds. */
  ghost predicate Puts(a: Output, b: Output, input: RunInput, turn: Turn, citations: seq<string>) {
    && a.sent <= b.sent && TurnContent(input, turn, citations, b.sent[|a.sent|..])
    && (if TurnReports(turn) then Proposes(b.pending, CallsOf(turn.stream)) else b.pending == a.pending)
    && (ResultOf(turn) != Over(Crashed) ==> b.open == a.open + LeftOpen(turn))
  }

  lemma PutsQuiet(a: Output, b: Output, input: RunInput, turn: Turn, citations: seq<string>)
    requires !Succeeds(turn) && b == a.(sent := a.sent + SpokenOf(input, turn.stream))
    ensures Puts(a, b, input, turn, citations)
  {
    hide SpokenOf, CallsOf, ResultOf;
    assert b.sent[|a.sent|..] == SpokenOf(input, turn.stream) + [] + [];
    assert Sends(input, turn, citations, b.sent[|a.sent|..], []);
  }

  lemma PutsAnswer(a: Output, b: Output, input: RunInput, turn: Turn, citations: seq<string>)
    requires Succeeds(turn) && CallsOf(turn.stream) == []
    requires b == a.(sent := a.sent + SpokenOf(input, turn.stream) + Notes(input, turn, TextOf(turn.stream), citations))
    ensures Puts(a, b, input, turn, citations)
  {
    hide SpokenOf, CallsOf, Notes, TextOf, ResultOf;
    var content := b.sent[|a.sent|..];
    assert content == SpokenOf(input, turn.stream) + [] + Notes(input, turn, TextOf(turn.stream), citations);
    assert BodiesOf(input, [], false) == [];
    assert Sends(input, turn, citations, content, []);
  }

  lemma PutsTools(a: Output, b: Output, input: RunInput, turn: Turn, citations: seq<string>, log: seq<AgentEvent>,
                  textOpen: bool, evs: seq<AgentEvent>)
    requires Steady(input, log, textOpen) && Steady(input, log + evs, textOpen)
    requires Succeeds(turn) && CallsOf(turn.stream) != [] && ToolEvents(input, CallsOf(turn.stream), evs)
    requires AllCarried(log) == a.sent + SpokenOf(input, turn.stream) && LastProposal(log) == a.pending
    requires OpenOf(log).tools == a.open
    requires b == Output(AllCarried(log + evs), LastProposal(log + evs), OpenOf(log + evs).tools)
    ensures Puts(a, b, input, turn, citations)
  {
    hide SpokenOf, CallsOf, Notes, TextOf, ToolEvents, ToolBodies, AllCarried, LastProposal, Reported, TurnNames, Proposes,
      OpenOf, Steady, LeftOpen, ResultOf;
    ToolsCarried(input, CallsOf(turn.stream), evs);
    if ResultOf(turn) != Over(Crashed) { ToolsOpen(input, log, textOpen, turn, evs); }
    AllCarriedConcat(log, evs);
    LastProposalConcat(log, evs);
    ToolsPropose(input, CallsOf(turn.stream), evs);
    var content := b.sent[|a.sent|..];
    assert content == SpokenOf(input, turn.stream) + AllCarried(evs) + [];
    assert Sends(input, turn, citations, content, AllCarried(evs));
  }

  // ----- The steps of a run

  /** The note closing a run that used up its steps. */
  function ClosingOf(input: RunInput, end: End): seq<WireBody> {
    if end.StepLimit? then [WTextContent(MessageId(input), OUT_OF_STEPS)] else []
  }

  lemma NoClosing(input: RunInput, turn: Turn)
    ensures ResultOf(turn).Over? ==> ClosingOf(input, ResultOf(turn).end) == []
  {
    hide CallsOf, Walk, InParallel;
  }

  /** The tool calls the first n turns leave open. */
  function OpenAfter(script: nat -> Turn, n: nat): multiset<string> {
    if n == 0 then multiset{} else OpenAfter(script, n - 1) + LeftOpen(script(n - 1))
  }

  /** What the first n turns of the script put on the wire, and `closing` after
      them; a proposal is pending exactly when the last of these turns reports
      one, and it is the one of a call of that turn. */
  ghost predicate Written(input: RunInput, script: nat -> Turn, n: nat, a: Output, b: Output,
                          contents: seq<seq<WireBody>>, closing: seq<WireBody>)
  {
    && |contents| == n && b.sent == a.sent + Text.Flatten(contents) + closing
    && (forall k :: 0 <= k < n ==> TurnContent(input, script(k), CitedBy(RanBefore(script, k)), contents[k]))
    && (if n > 0 && TurnReports(script(n - 1)) then Proposes(b.pending, CallsOf(script(n - 1).stream))
        else b.pending == a.pending)
    && (n == 0 || ResultOf(script(n - 1)) != Over(Crashed) ==> b.open == a.open + OpenAfter(script, n))
  }

  lemma {:induction false} WalkOnNamesNothing(calls: seq<PlannedCall>, parallel: bool)
    requires Walk(calls, parallel).Proceed?
    ensures forall i :: 0 <= i < |calls| ==> !Names(calls[i])
    ensures !parallel ==> !NamesInOrder(calls)
  {
    if calls != [] {
      WalkOnNamesNothing(calls[1..], parallel);
      forall i | 0 <= i < |calls| ensures !Names(calls[i]) {
        if i > 0 { assert calls[i] == calls[1..][i - 1]; }
      }
    }
  }

  /** A turn after which the loop goes on reports no proposal. */
  lemma NextReportsNothing(turn: Turn)
    requires ResultOf(turn).NextTurn?
    ensures !TurnReports(turn)
  {
    hide CallsOf, NamesInOrder, Names;
    var calls := CallsOf(turn.stream);
    WalkOnNamesNothing(calls, InParallel(calls));
  }

  /** A run reports a proposal exactly when its last turn does. */
  lemma {:induction false} ProposalIsLast(script: nat -> Turn, step: nat, maxSteps: nat)
    ensures var n := TurnCount(script, step, maxSteps);
      ExpectedProposal(script, step, maxSteps) <==> n > 0 && TurnReports(script(step + n - 1))
    decreases maxSteps - step
  {
    hide TurnReports, ResultOf;
    if step < maxSteps && ResultOf(script(step)).NextTurn? {
      NextReportsNothing(script(step));
      ProposalIsLast(script, step + 1, maxSteps);
    }
  }

  lemma WrittenStart(input: RunInput, script: nat -> Turn, a: Output)
    ensures Written(input, script, 0, a, a, [], [])
  {
    Text.FlattenNone<WireBody>();
    assert a.sent + [] + [] == a.sent;
  }

  lemma WrittenNext(input: RunInput, script: nat -> Turn, n: nat, a: Output, b: Output, c: Output,
                    contents: seq<seq<WireBody>>)
    requires Written(input, script, n, a, b, contents, [])
    requires n > 0 ==> ResultOf(script(n - 1)).NextTurn?
    requires Puts(b, c, input, script(n), CitedBy(RanBefore(script, n)))
    ensures b.sent <= c.sent && Written(input, script, n + 1, a, c, contents + [c.sent[|b.sent|..]], [])
  {
    hide ResultOf, TurnReports, TurnContent, Proposes, CitedBy, RanBefore, LeftOpen;
    if n > 0 { NextReportsNothing(script(n - 1)); }
    var more := c.sent[|b.sent|..];
    assert c.sent == b.sent + more;
    Text.FlattenAppend(contents, more);
    hide Text.Flatten;
    assert a.sent + Text.Flatten(contents) + [] + more == a.sent + (Text.Flatten(contents) + more) + [];
  }

  lemma WrittenLast(input: RunInput, script: nat -> Turn, n: nat, a: Output, b: Output, contents: seq<seq<WireBody>>,
                    closing: seq<WireBody>)
    requires Written(input, script, n, a, b, contents, [])
    ensures Written(input, script, n, a, b.(sent := b.sent + closing), contents, closing)
  {
    hide TurnReports, TurnContent, Proposes, CitedBy, RanBefore, Text.Flatten, ResultOf, OpenAfter;
    assert a.sent + Text.Flatten(contents) + [] + closing == a.sent + Text.Flatten(contents) + closing;
  }

  /** A run that had no proposal pending ends with one exactly when the script
      leads to one. */
  lemma WrittenProposal(input: RunInput, script: nat -> Turn, maxSteps: nat, a: Output, b: Output,
                        contents: seq<seq<WireBody>>, closing: seq<WireBody>)
    requires Written(input, script, TurnCount(script, 0, maxSteps), a, b, contents, closing) && a.pending == ("", "")
    ensures |b.pending.0| > 0 <==> ExpectedProposal(script, 0, maxSteps)
  {
    hide TurnReports, TurnContent, CitedBy, RanBefore, ExpectedProposal, Text.Flatten, TurnCount, CallsOf;
    ProposalIsLast(script, 0, maxSteps);
  }
}
