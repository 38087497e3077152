/** The AG-UI event stream writer (handler/sse.go).

    The agent loop hands internal events to `SseWriter.Event`; the writer
    translates each into zero or more wire events, numbers them, and latches
    after the terminal one. `Run` gives the writer's state after any sequence of
    internal events; what every run keeps is stated against readings of the wire
    that know nothing about the translation: a grammar automaton (`Scan`), the
    content left when the framing is erased (`Essence`), and the last proposal
    reported by a tool (`LastProposal`). */
module Sse {
  import opened Common

  // ----- What the agent loop sends

  /** A raw JSON result together with the proposal id a decoder finds in it
      ("" when there is none). */
  datatype Payload = Payload(json: string, proposalId: string)

  const NO_PAYLOAD := Payload("", "")

  datatype Body =
    | RunStarted
    | TextStart(messageId: string)
    | TextContent(messageId: string, delta: string)
    | TextEnd(messageId: string)
    | ToolStart(callId: string, name: string)
    | ToolArgs(callId: string, delta: string)
    | ToolEnd(callId: string)
    | ToolResult(callId: string, messageId: string, content: string, result: Payload, error: string)
    | Reasoning(delta: string)
    | RunFinished(error: string)
    | Unknown(kind: string)

  datatype AgentEvent = AgentEvent(threadId: string, runId: string, body: Body)

  // ----- What the client reads

  datatype Outcome = Success | Interrupt(approvalId: string, toolCallId: string)

  datatype WireBody =
    | WRunStarted
    | WTextStart(messageId: string)
    | WTextContent(messageId: string, delta: string)
    | WTextEnd(messageId: string)
    | WToolStart(callId: string, name: string)
    | WToolArgs(callId: string, delta: string)
    | WToolEnd(callId: string)
    | WToolResult(messageId: string, callId: string, content: string)
    | WReasoningStart(messageId: string)
    | WReasoningContent(messageId: string, delta: string)
    | WReasoningEnd(messageId: string)
    | WRunFinished(outcome: Outcome)
    | WRunError(code: string)

  /** The event id is the run id (or the protocol version) and the sequence
      number, kept as a pair instead of the joined text. */
  datatype WireEvent = WireEvent(threadId: string, runId: string, eventId: (string, nat), sequence: nat, body: WireBody)

  const PROTOCOL_VERSION := "ag-ui-v1"

  predicate IsTerminal(w: WireBody) {
    w.WRunFinished? || w.WRunError?
  }

  predicate Ended(ws: seq<WireBody>) {
    ws != [] && IsTerminal(ws[|ws| - 1])
  }

  // ----- The wire grammar

  /** The state of a client that reads the stream: message ids of the open
      text and reasoning messages ("" when closed), and the ids of the tool calls
      that were started and not ended. A model may use an id twice. */
  datatype Frame = Frame(started: bool, text: string, reasoning: string, tools: multiset<string>, done: bool)

  const START := Frame(false, "", "", multiset{}, false)

  /** One step of the grammar automaton; None rejects the stream. */
  function Advance(f: Frame, w: WireBody): Option<Frame> {
    if f.done || f.started == w.WRunStarted? then None
    else match w
      case WRunStarted => Some(f.(started := true))
      case WTextStart(id) => if |f.text| == 0 && |id| > 0 then Some(f.(text := id)) else None
      case WTextContent(id, _) => if f.text == id && |id| > 0 then Some(f) else None
      case WTextEnd(id) => if f.text == id && |id| > 0 then Some(f.(text := "")) else None
      case WReasoningStart(id) => if |f.reasoning| == 0 && |id| > 0 then Some(f.(reasoning := id)) else None
      case WReasoningContent(id, _) => if f.reasoning == id && |id| > 0 then Some(f) else None
      case WReasoningEnd(id) => if f.reasoning == id && |id| > 0 then Some(f.(reasoning := "")) else None
      case WRunFinished(_) => if |f.text| == 0 && |f.reasoning| == 0 then Some(f.(done := true)) else None
      case WRunError(_) => if |f.text| == 0 && |f.reasoning| == 0 then Some(f.(done := true)) else None
      case WToolStart(id, _) => Some(f.(tools := f.tools + multiset{id}))
      case WToolArgs(id, _) => if id in f.tools then Some(f) else None
      case WToolEnd(id) => if id in f.tools then Some(f.(tools := f.tools - multiset{id})) else None
      case WToolResult(_, _, _) => Some(f)
  }

  function ScanFrom(f: Frame, ws: seq<WireBody>): Option<Frame>
    decreases ws
  {
    if ws == [] then Some(f)
    else match Advance(f, ws[0])
      case None => None
      case Some(g) => ScanFrom(g, ws[1..])
  }

  function Scan(ws: seq<WireBody>): Option<Frame> {
    ScanFrom(START, ws)
  }

  lemma {:induction false} ScanAppend(f: Frame, a: seq<WireBody>, b: seq<WireBody>)
    ensures ScanFrom(f, a + b)
         == match ScanFrom(f, a) case None => None case Some(g) => ScanFrom(g, b)
    decreases a
  {
    if a == [] {
      assert a + b == b;
    } else {
      assert (a + b)[0] == a[0] && (a + b)[1..] == a[1..] + b;
      match Advance(f, a[0])
      case None =>
      case Some(g) => ScanAppend(g, a[1..], b);
    }
  }

  lemma ScanOne(f: Frame, w: WireBody)
    ensures ScanFrom(f, [w]) == Advance(f, w)
  {
    match Advance(f, w)
    case None =>
    case Some(g) => assert [w][1..] == [];
  }

  // ----- The content of the stream

  /** Framing carries no content of its own: brackets around messages and the
      terminal event. */
  predicate IsFraming(w: WireBody) {
    w.WTextStart? || w.WTextEnd? || w.WReasoningStart? || w.WReasoningEnd? || IsTerminal(w)
  }

  function Essence(ws: seq<WireBody>): seq<WireBody> {
    if ws == [] then []
    else (if IsFraming(ws[0]) then [] else [ws[0]]) + Essence(ws[1..])
  }

  lemma {:induction false} EssenceAppend(a: seq<WireBody>, b: seq<WireBody>)
    ensures Essence(a + b) == Essence(a) + Essence(b)
  {
    if a == [] {
      assert a + b == b;
    } else {
      assert (a + b)[0] == a[0] && (a + b)[1..] == a[1..] + b;
      EssenceAppend(a[1..], b);
    }
  }

  lemma EssenceOne(w: WireBody)
    ensures Essence([w]) == if IsFraming(w) then [] else [w]
  {
    assert [w][1..] == [];
  }

  function ReasoningId(runId: string): string { "rsn-" + runId }

  /** The content one internal event must contribute to the wire. */
  function Carried(ev: AgentEvent): seq<WireBody> {
    match ev.body
    case RunStarted => [WRunStarted]
    case TextContent(id, delta) => [WTextContent(id, delta)]
    case ToolStart(id, name) => [WToolStart(id, name)]
    case ToolArgs(id, delta) => [WToolArgs(id, delta)]
    case ToolEnd(id) => [WToolEnd(id)]
    case ToolResult(id, messageId, content, result, _) =>
      [WToolResult(if |messageId| == 0 then "tool-msg-" + ev.runId else messageId, id,
                   if |content| > 0 then content else if |result.json| > 0 then result.json else "{}")]
    case Reasoning(delta) => if |delta| == 0 then [] else [WReasoningContent(ReasoningId(ev.runId), delta)]
    case _ => []
  }

  function AllCarried(evs: seq<AgentEvent>): seq<WireBody> {
    if evs == [] then [] else AllCarried(evs[..|evs| - 1]) + Carried(evs[|evs| - 1])
  }

  lemma AllCarriedAppend(evs: seq<AgentEvent>, ev: AgentEvent)
    ensures AllCarried(evs + [ev]) == AllCarried(evs) + Carried(ev)
  {
    assert (evs + [ev])[..|evs|] == evs;
  }

  // ----- Proposals

  function ProposalOf(ev: AgentEvent): string {
    if ev.body.ToolResult? && |ev.body.result.json| > 0 then ev.body.result.proposalId else ""
  }

  /** The approval id and tool call id of the last tool result that carried a
      proposal, or two empty strings. */
  function LastProposal(evs: seq<AgentEvent>): (string, string) {
    if evs == [] then ("", "")
    else
      var ev := evs[|evs| - 1];
      if |ProposalOf(ev)| > 0 then (ProposalOf(ev), ev.body.callId) else LastProposal(evs[..|evs| - 1])
  }

  lemma LastProposalAppend(evs: seq<AgentEvent>, ev: AgentEvent)
    ensures LastProposal(evs + [ev])
         == if |ProposalOf(ev)| > 0 then (ProposalOf(ev), ev.body.callId) else LastProposal(evs)
  {
    assert (evs + [ev])[..|evs|] == evs;
  }

  /** A proposal is pending exactly when some accepted event reported one. */
  lemma {:induction false} LastProposalIff(evs: seq<AgentEvent>)
    ensures |LastProposal(evs).0| > 0 <==> exists i :: 0 <= i < |evs| && |ProposalOf(evs[i])| > 0
  {
    if evs != [] {
      var n := |evs| - 1;
      LastProposalIff(evs[..n]);
      if |LastProposal(evs[..n]).0| > 0 {
        var i :| 0 <= i < n && |ProposalOf(evs[..n][i])| > 0;
        assert |ProposalOf(evs[i])| > 0;
      }
      if i :| 0 <= i < |evs| && |ProposalOf(evs[i])| > 0 {
        if i < n { assert |ProposalOf(evs[..n][i])| > 0; }
      }
    }
  }

  /** A tool result whose raw result names a proposal. */
  predicate Proposing(ev: AgentEvent) {
    ev.body.ToolResult? && ev.body.result.json != "" && ev.body.result.proposalId != ""
  }

  /** The pending proposal is the one of the last result that named one, with the
      call the result belongs to; with no such result there is none. */
  lemma {:induction false} LastProposalExactly(evs: seq<AgentEvent>, i: nat)
    requires forall j :: i < j < |evs| ==> !Proposing(evs[j])
    ensures i < |evs| && Proposing(evs[i]) ==> LastProposal(evs) == (evs[i].body.result.proposalId, evs[i].body.callId)
    ensures i == 0 && (evs == [] || !Proposing(evs[0])) ==> LastProposal(evs) == ("", "")
  {
    if evs != [] {
      var n := |evs| - 1;
      if !Proposing(evs[n]) { LastProposalExactly(evs[..n], i); }
    }
  }

  // ----- The discipline a caller must keep

  /** The open messages after an accepted event. */
  function After(f: Frame, ev: AgentEvent): Frame {
    match ev.body
    case RunStarted => f.(started := true)
    case TextStart(id) => f.(text := id)
    case TextContent(id, _) => if |f.text| == 0 then f.(text := id) else f
    case TextEnd(_) => f.(text := "")
    case Reasoning(delta) =>
      if |delta| > 0 && |f.reasoning| == 0 then f.(reasoning := ReasoningId(ev.runId)) else f
    case ToolStart(id, _) => f.(tools := f.tools + multiset{id})
    case ToolEnd(id) => f.(tools := f.tools - multiset{id})
    case RunFinished(_) => f.(text := "", reasoning := "", done := true)
    case _ => f
  }

  /** The events that keep the stream grammatical: a message is opened only
      when none is open, continued and closed only under its own id. Content
      without an open message is fine, the writer opens one. A tool call gets its
      arguments and its end only between its start and its end. */
  predicate Fits(f: Frame, ev: AgentEvent) {
    match ev.body
    case RunStarted => !f.started
    case TextStart(id) => f.started && |f.text| == 0 && |id| > 0
    case TextContent(id, _) => f.started && |id| > 0 && (|f.text| == 0 || f.text == id)
    case TextEnd(id) => f.started && |id| > 0 && f.text == id
    case Reasoning(delta) =>
      |delta| == 0 || (f.started && (|f.reasoning| == 0 || f.reasoning == ReasoningId(ev.runId)))
    case ToolArgs(id, _) => f.started && id in f.tools
    case ToolEnd(id) => f.started && id in f.tools
    case Unknown(_) => true
    case _ => f.started
  }

  /** Sequence numbers are 1, 2, 3, ... with no gap and each event id is the
      run id (or the protocol version) with that number. */
  predicate Numbered(wire: seq<WireEvent>) {
    forall i :: 0 <= i < |wire| ==>
      && wire[i].sequence == i + 1
      && wire[i].eventId == (if |wire[i].runId| > 0 then wire[i].runId else "ag-ui-v1", i + 1)
  }

  /** The wire carries exactly these bodies. */
  predicate Holds(wire: seq<WireEvent>, ws: seq<WireBody>) {
    |wire| == |ws| && forall i :: 0 <= i < |wire| ==> wire[i].body == ws[i]
  }

  /** What the terminal event must be, given the proposals reported so far. */
  function TerminalBody(pending: (string, string), error: string): WireBody {
    if |pending.0| > 0 then WRunFinished(Interrupt(pending.0, pending.1))
    else if |error| > 0 then WRunError(error)
    else WRunFinished(Success)
  }

  // ----- The translation and its laws

  /** The wire events one internal event causes. */
  function Frames(f: Frame, pending: (string, string), ev: AgentEvent): seq<WireBody> {
    match ev.body
    case TextStart(id) => [WTextStart(id)]
    case TextContent(id, delta) =>
      if |f.text| == 0 then [WTextStart(id), WTextContent(id, delta)] else [WTextContent(id, delta)]
    case TextEnd(id) => [WTextEnd(id)]
    case Reasoning(delta) =>
      if |delta| == 0 then []
      else if |f.reasoning| == 0 then
        [WReasoningStart(ReasoningId(ev.runId)), WReasoningContent(ReasoningId(ev.runId), delta)]
      else [WReasoningContent(ReasoningId(ev.runId), delta)]
    case RunFinished(error) => Closing(f) + [TerminalBody(pending, error)]
    case _ => Carried(ev)
  }

  /** Ends whatever message is still open before the terminal event. */
  function Closing(f: Frame): seq<WireBody> {
    (if |f.reasoning| > 0 then [WReasoningEnd(f.reasoning)] else [])
    + (if |f.text| > 0 then [WTextEnd(f.text)] else [])
  }

  lemma ScanNothing(f: Frame)
    ensures ScanFrom(f, []) == Some(f)
  {
  }

  lemma ScanTwo(f: Frame, v: WireBody, w: WireBody)
    ensures ScanFrom(f, [v, w]) == match Advance(f, v) case None => None case Some(g) => Advance(g, w)
  {
    assert [v, w][1..] == [w];
    match Advance(f, v)
    case None =>
    case Some(g) => ScanOne(g, w);
  }

  lemma EssenceTwo(v: WireBody, w: WireBody)
    ensures Essence([v, w]) == (if IsFraming(v) then [] else [v]) + (if IsFraming(w) then [] else [w])
  {
    assert [v, w][1..] == [w];
    EssenceOne(w);
  }

  lemma ClosingLaw(f: Frame)
    requires f.started && !f.done
    ensures ScanFrom(f, Closing(f)) == Some(f.(text := "", reasoning := ""))
  {
    var a := if |f.reasoning| > 0 then [WReasoningEnd(f.reasoning)] else [];
    var b := if |f.text| > 0 then [WTextEnd(f.text)] else [];
    var g := f.(reasoning := "");
    ScanAppend(f, a, b);
    if |f.reasoning| > 0 { ScanOne(f, a[0]); }
    if |f.text| > 0 { ScanOne(g, b[0]); }
  }

  lemma ClosingUnstarted(f: Frame)
    requires !f.started && Closing(f) != []
    ensures ScanFrom(f, Closing(f)) == None
  {}

  lemma ClosingEssence(f: Frame)
    ensures Essence(Closing(f)) == []
    ensures forall i :: 0 <= i < |Closing(f)| ==> !IsTerminal(Closing(f)[i])
  {
    if |f.reasoning| > 0 && |f.text| > 0 {
      assert Closing(f) == [WReasoningEnd(f.reasoning), WTextEnd(f.text)];
      EssenceTwo(WReasoningEnd(f.reasoning), WTextEnd(f.text));
    } else if Closing(f) != [] {
      EssenceOne(Closing(f)[0]);
      assert |Closing(f)| == 1;
    }
  }

  /** The translation keeps a stream grammatical exactly for the events that
      fit, and leaves the client in the state the caller intended. */
  lemma FramesScan(f: Frame, pending: (string, string), ev: AgentEvent)
    requires !f.done
    ensures ScanFrom(f, Frames(f, pending, ev)) == if Fits(f, ev) then Some(After(f, ev)) else None
  {
    hide ScanFrom;
    match ev.body {
      case RunFinished(error) => EndScan(f, pending, ev);
      case TextContent(id, delta) => SpokenScan(f, pending, ev);
      case Reasoning(delta) => SpokenScan(f, pending, ev);
      case Unknown(_) => ScanNothing(f);
      case _ => OneScan(f, pending, ev);
    }
  }

  lemma EndScan(f: Frame, pending: (string, string), ev: AgentEvent)
    requires !f.done && ev.body.RunFinished?
    ensures ScanFrom(f, Frames(f, pending, ev)) == if Fits(f, ev) then Some(After(f, ev)) else None
  {
    hide ScanFrom;
    ScanNothing(f);
    var last := TerminalBody(pending, ev.body.error);
    ScanAppend(f, Closing(f), [last]);
    if f.started {
      ClosingLaw(f);
      ScanOne(f.(text := "", reasoning := ""), last);
    } else if Closing(f) == [] {
      ScanOne(f, last);
    } else {
      ClosingUnstarted(f);
    }
  }

  lemma SpokenScan(f: Frame, pending: (string, string), ev: AgentEvent)
    requires !f.done && (ev.body.TextContent? || ev.body.Reasoning?)
    ensures ScanFrom(f, Frames(f, pending, ev)) == if Fits(f, ev) then Some(After(f, ev)) else None
  {
    hide ScanFrom;
    ScanNothing(f);
    var ws := Frames(f, pending, ev);
    if |ws| == 2 {
      assert ws == [ws[0], ws[1]];
      ScanTwo(f, ws[0], ws[1]);
    } else if |ws| == 1 {
      assert ws == [ws[0]];
      ScanOne(f, ws[0]);
    }
  }

  lemma OneScan(f: Frame, pending: (string, string), ev: AgentEvent)
    requires !f.done && (ev.body.RunStarted? || ev.body.TextStart? || ev.body.TextEnd? || ev.body.ToolStart?
                         || ev.body.ToolArgs? || ev.body.ToolEnd? || ev.body.ToolResult?)
    ensures ScanFrom(f, Frames(f, pending, ev)) == if Fits(f, ev) then Some(After(f, ev)) else None
  {
    hide ScanFrom;
    ScanOne(f, Frames(f, pending, ev)[0]);
  }

  /** Erasing the framing from the translation gives back the content. */
  lemma FramesEssence(f: Frame, pending: (string, string), ev: AgentEvent)
    ensures Essence(Frames(f, pending, ev)) == Carried(ev)
  {
    if ev.body.RunFinished? {
      EndEssence(f, pending, ev);
    } else {
      hide Essence, TerminalBody;
      var ws := Frames(f, pending, ev);
      if |ws| == 1 {
        assert ws == [ws[0]];
        EssenceOne(ws[0]);
      } else if |ws| == 2 {
        assert ws == [ws[0], ws[1]];
        EssenceTwo(ws[0], ws[1]);
      } else {
        assert ws == [];
        EssenceNone();
      }
    }
  }

  lemma EssenceNone()
    ensures Essence([]) == []
  {}

  lemma EndEssence(f: Frame, pending: (string, string), ev: AgentEvent)
    requires ev.body.RunFinished?
    ensures Essence(Frames(f, pending, ev)) == Carried(ev)
  {
    hide Closing, Essence;
    var last := TerminalBody(pending, ev.body.error);
    EssenceAppend(Closing(f), [last]);
    ClosingEssence(f);
    EssenceOne(last);
  }

  lemma FramesTerminal(f: Frame, pending: (string, string), ev: AgentEvent)
    requires !f.done
    ensures var ws := Frames(f, pending, ev);
      && (forall i :: 0 <= i < |ws| - 1 ==> !IsTerminal(ws[i]))
      && Ended(ws) == ev.body.RunFinished? == After(f, ev).done
      && (ev.body.RunFinished? ==> ws[|ws| - 1] == TerminalBody(pending, ev.body.error))
  {
    if ev.body.RunFinished? {
      ClosingEssence(f);
      EndedAppend(Closing(f), [TerminalBody(pending, ev.body.error)]);
    } else {
      assert |Frames(f, pending, ev)| <= 2;
    }
  }

  lemma EndedAppend(ws: seq<WireBody>, more: seq<WireBody>)
    requires forall i :: 0 <= i < |ws| ==> !IsTerminal(ws[i])
    requires forall i :: 0 <= i < |more| - 1 ==> !IsTerminal(more[i])
    ensures Ended(ws + more) == Ended(more)
    ensures forall i :: 0 <= i < |ws + more| - 1 ==> !IsTerminal((ws + more)[i])
  {}

  // ----- The stream over a run

  function OpenStep(f: Frame, ev: AgentEvent): Frame {
    if f.done then f else After(f, ev)
  }

  /** The messages open after any sequence of internal events. */
  function OpenOf(evs: seq<AgentEvent>): Frame {
    if evs == [] then START else OpenStep(OpenOf(evs[..|evs| - 1]), evs[|evs| - 1])
  }

  function WireStep(ws: seq<WireBody>, f: Frame, pending: (string, string), ev: AgentEvent): seq<WireBody> {
    if f.done then ws else ws + Frames(f, pending, ev)
  }

  /** Everything written for any sequence of internal events. */
  function WireOf(evs: seq<AgentEvent>): seq<WireBody> {
    if evs == [] then []
    else
      var before := evs[..|evs| - 1];
      WireStep(WireOf(before), OpenOf(before), LastProposal(before), evs[|evs| - 1])
  }

  lemma RunAppend(evs: seq<AgentEvent>, ev: AgentEvent)
    ensures OpenOf(evs + [ev]) == OpenStep(OpenOf(evs), ev)
    ensures WireOf(evs + [ev]) == WireStep(WireOf(evs), OpenOf(evs), LastProposal(evs), ev)
  {
    assert (evs + [ev])[..|evs|] == evs;
  }

  /** The events accepted before the latch closed. */
  function Live(evs: seq<AgentEvent>): seq<AgentEvent> {
    if evs == [] then []
    else
      var before := evs[..|evs| - 1];
      if OpenOf(before).done then Live(before) else Live(before) + [evs[|evs| - 1]]
  }

  /** Every event accepted by the writer fits the messages open at that point. */
  predicate Disciplined(evs: seq<AgentEvent>) {
    evs == []
    || var before := evs[..|evs| - 1];
       Disciplined(before) && (OpenOf(before).done || Fits(OpenOf(before), evs[|evs| - 1]))
  }

  lemma DisciplinedAppend(evs: seq<AgentEvent>, ev: AgentEvent)
    ensures Disciplined(evs + [ev]) <==> Disciplined(evs) && (OpenOf(evs).done || Fits(OpenOf(evs), ev))
  {
    assert (evs + [ev])[..|evs|] == evs;
  }

  // ----- What every run keeps

  /** No content is lost, invented or reordered: erasing the framing from the
      wire gives the content of the accepted events in order. */
  lemma {:induction false} RunContent(evs: seq<AgentEvent>)
    ensures Essence(WireOf(evs)) == AllCarried(Live(evs))
  {
    if evs != [] {
      var before := evs[..|evs| - 1];
      var f, pending, ev := OpenOf(before), LastProposal(before), evs[|evs| - 1];
      RunContent(before);
      if !f.done {
        EssenceAppend(WireOf(before), Frames(f, pending, ev));
        FramesEssence(f, pending, ev);
        AllCarriedAppend(Live(before), ev);
      }
    }
  }

  /** The client can read the whole stream exactly when the caller was
      disciplined, and then it sees the messages the writer believes open. */
  lemma {:induction false} RunGrammar(evs: seq<AgentEvent>)
    ensures Scan(WireOf(evs)) == if Disciplined(evs) then Some(OpenOf(evs)) else None
  {
    if evs != [] {
      var before := evs[..|evs| - 1];
      var f, pending, ev := OpenOf(before), LastProposal(before), evs[|evs| - 1];
      RunGrammar(before);
      if !f.done {
        ScanAppend(START, WireOf(before), Frames(f, pending, ev));
        FramesScan(f, pending, ev);
      }
    }
  }

  /** The latch closes with the terminal event, and no terminal event occurs
      anywhere else. */
  lemma {:induction false} RunTerminal(evs: seq<AgentEvent>)
    ensures OpenOf(evs).done == Ended(WireOf(evs))
    ensures forall i :: 0 <= i < |WireOf(evs)| - 1 ==> !IsTerminal(WireOf(evs)[i])
  {
    hide IsTerminal, Frames, After, LastProposal;
    if evs != [] {
      var before, ev := evs[..|evs| - 1], evs[|evs| - 1];
      var f, ws, more := OpenOf(before), WireOf(before), Frames(OpenOf(before), LastProposal(before), ev);
      RunTerminal(before);
      if !f.done {
        FramesTerminal(f, LastProposal(before), ev);
        EndedAppend(ws, more);
      }
    }
  }

  lemma DoneStep(f: Frame, ev: AgentEvent)
    ensures OpenStep(f, ev).done == (f.done || ev.body.RunFinished?)
  {}

  /** Only a run-finished event closes the latch. */
  lemma {:induction false} RunDone(evs: seq<AgentEvent>)
    ensures OpenOf(evs).done <==> exists i :: 0 <= i < |evs| && evs[i].body.RunFinished?
  {
    hide OpenStep;
    if evs != [] {
      var n := |evs| - 1;
      RunDone(evs[..n]);
      DoneStep(OpenOf(evs[..n]), evs[n]);
      assert forall i :: 0 <= i < n ==> evs[..n][i] == evs[i];
    }
  }

  lemma {:induction false} LiveUntilDone(evs: seq<AgentEvent>)
    requires !OpenOf(evs).done
    ensures Live(evs) == evs
  {
    if evs != [] {
      assert evs == evs[..|evs| - 1] + [evs[|evs| - 1]];
      LiveUntilDone(evs[..|evs| - 1]);
    }
  }

  /** The event that ends the run says how it ended: an interrupt for the last
      proposal exactly when some tool result carried one, otherwise the error
      code, otherwise success. Later events change nothing. */
  lemma RunEnds(evs: seq<AgentEvent>, ev: AgentEvent, late: AgentEvent)
    requires !OpenOf(evs).done && ev.body.RunFinished?
    ensures var ws, pending := WireOf(evs + [ev]), LastProposal(evs);
      ws != [] && ws[|ws| - 1] == if pending.0 != "" then WRunFinished(Interrupt(pending.0, pending.1))
                                  else if ev.body.error != "" then WRunError(ev.body.error)
                                  else WRunFinished(Success)
    ensures WireOf(evs + [ev] + [late]) == WireOf(evs + [ev])
  {
    RunAppend(evs, ev);
    RunAppend(evs + [ev], late);
    FramesTerminal(OpenOf(evs), LastProposal(evs), ev);
  }

  // ----- The writer

  function Pick(own: string, inForce: string): string { if own == "" then inForce else own }

  /** The events of the run carry the ids they were handed; the others the ids in
      force before. */
  predicate Labelled(wire: seq<WireEvent>, payload: AgentEvent, thread: string, run: string) {
    forall i :: 0 <= i < |wire| ==>
      var own := wire[i].body.WRunStarted? || wire[i].body.WRunFinished? || wire[i].body.WRunError?;
      && wire[i].threadId == (if own then Pick(payload.threadId, thread) else thread)
      && wire[i].runId == (if own then Pick(payload.runId, run) else run)
  }

  class SseWriter {
    var sequence: nat
    var terminal: bool
    var threadID: string
    var runID: string
    var reasoningMessageID: string
    var textMessageID: string
    var pendingApprovalID: string
    var pendingToolCallID: string
    /** Everything flushed to the client. */
    var wire: seq<WireEvent>
    /** Whether RUN_STARTED has been written. */
    ghost var started: bool
    /** The tool calls started and not ended. */
    ghost var tools: multiset<string>
    /** Every event handed to the writer, in lock order. */
    ghost var log: seq<AgentEvent>

    ghost function Open(): Frame
      reads this`started, this`textMessageID, this`reasoningMessageID, this`tools, this`terminal
    {
      Frame(started, textMessageID, reasoningMessageID, tools, terminal)
    }

    ghost predicate Valid()
      reads this`sequence, this`terminal, this`wire, this`log, this`started, this`textMessageID,
            this`reasoningMessageID, this`tools, this`pendingApprovalID, this`pendingToolCallID
    {
      && sequence == |wire| && Numbered(wire)
      && Holds(wire, WireOf(log))
      && Open() == OpenOf(log)
      && (!terminal ==> (pendingApprovalID, pendingToolCallID) == LastProposal(log))
    }

    constructor ()
      ensures Valid() && log == [] && wire == []
    {
      sequence, terminal, threadID, runID := 0, false, "", "";
      reasoningMessageID, textMessageID := "", "";
      pendingApprovalID, pendingToolCallID := "", "";
      wire, started, tools, log := [], false, multiset{}, [];
    }

    /** Maps one internal event to the wire events it causes and updates the
        open-message state; the numbering is left to `Event`. */
    method Translate(ev: AgentEvent) returns (evts: seq<WireBody>)
      requires !terminal
      modifies this`reasoningMessageID, this`textMessageID, this`pendingApprovalID, this`pendingToolCallID, this`started,
               this`tools
      ensures evts == Frames(old(Open()), old((pendingApprovalID, pendingToolCallID)), ev)
      ensures Open() == After(old(Open()), ev).(done := false)
      ensures !ev.body.RunFinished? ==>
        (pendingApprovalID, pendingToolCallID)
        == if |ProposalOf(ev)| > 0 then (ProposalOf(ev), ev.body.callId) else old((pendingApprovalID, pendingToolCallID))
    {
      match ev.body {
        case RunStarted =>
          started := true;
          return [WRunStarted];
        case TextStart(id) =>
          textMessageID := id;
          return [WTextStart(id)];
        case TextContent(id, delta) =>
          if |textMessageID| == 0 {
            textMessageID := id;
            return [WTextStart(id), WTextContent(id, delta)];
          }
          return [WTextContent(id, delta)];
        case TextEnd(id) =>
          textMessageID := "";
          return [WTextEnd(id)];
        case ToolStart(id, name) =>
          tools := tools + multiset{id};
          return [WToolStart(id, name)];
        case ToolArgs(id, delta) =>
          return [WToolArgs(id, delta)];
        case ToolEnd(id) =>
          tools := tools - multiset{id};
          return [WToolEnd(id)];
        case ToolResult(id, messageId, content, result, _) =>
          evts := TranslateResult(ev);
        case Reasoning(delta) =>
          if |delta| == 0 {
            return [];
          }
          var messageId := ReasoningId(ev.runId);
          if |reasoningMessageID| == 0 {
            reasoningMessageID := messageId;
            return [WReasoningStart(messageId), WReasoningContent(messageId, delta)];
          }
          return [WReasoningContent(messageId, delta)];
        case RunFinished(error) =>
          evts := TranslateEnd(error);
        case Unknown(_) =>
          return [];
      }
    }

    /** A tool result: the text streamed, or the raw result, or an empty object;
        a proposal in it stays pending for the end of the run. */
    method TranslateResult(ev: AgentEvent) returns (evts: seq<WireBody>)
      requires ev.body.ToolResult?
      modifies this`pendingApprovalID, this`pendingToolCallID
      ensures evts == Carried(ev)
      ensures (pendingApprovalID, pendingToolCallID)
           == if |ProposalOf(ev)| > 0 then (ProposalOf(ev), ev.body.callId) else old((pendingApprovalID, pendingToolCallID))
    {
      var result := ev.body.result;
      var text := ev.body.content;
      if |text| == 0 && |result.json| > 0 {
        text := result.json;
      }
      if |text| == 0 {
        text := "{}";
      }
      var message := ev.body.messageId;
      if |message| == 0 {
        message := "tool-msg-" + ev.runId;
      }
      var proposalId := if |result.json| == 0 then "" else result.proposalId;
      if |proposalId| > 0 {
        pendingApprovalID := proposalId;
        pendingToolCallID := ev.body.callId;
      }
      return [WToolResult(message, ev.body.callId, text)];
    }

    /** The end of the run: open messages are ended first. */
    method TranslateEnd(error: string) returns (evts: seq<WireBody>)
      modifies this`reasoningMessageID, this`textMessageID, this`pendingApprovalID, this`pendingToolCallID
      ensures evts == old(Closing(Open())) + [TerminalBody(old((pendingApprovalID, pendingToolCallID)), error)]
      ensures |reasoningMessageID| == 0 && |textMessageID| == 0
    {
      evts := [];
      if |reasoningMessageID| > 0 {
        evts := evts + [WReasoningEnd(reasoningMessageID)];
        reasoningMessageID := "";
      }
      if |textMessageID| > 0 {
        evts := evts + [WTextEnd(textMessageID)];
        textMessageID := "";
      }
      if |pendingApprovalID| > 0 {
        var outcome := Interrupt(pendingApprovalID, pendingToolCallID);
        pendingApprovalID, pendingToolCallID := "", "";
        return evts + [WRunFinished(outcome)];
      }
      if |error| > 0 {
        return evts + [WRunError(error)];
      }
      return evts + [WRunFinished(Success)];
    }

    /** Numbers one wire event and flushes it. Only the run events carry ids of
        their own; the others take the ids in force. */
    method Write(payload: AgentEvent, body: WireBody, ghost ws: seq<WireBody>)
      requires sequence == |wire| && Numbered(wire) && Holds(wire, ws)
      modifies this`sequence, this`terminal, this`wire
      ensures sequence == |wire| == |old(wire)| + 1 && Numbered(wire) && old(wire) <= wire
      ensures Holds(wire, ws + [body])
      ensures wire == old(wire) + [wire[|wire| - 1]] && Labelled([wire[|wire| - 1]], payload, threadID, runID)
      ensures terminal == (old(terminal) || IsTerminal(body))
    {
      hide Holds;
      var thread := if body.WRunStarted? || IsTerminal(body) then payload.threadId else "";
      var run := if body.WRunStarted? || IsTerminal(body) then payload.runId else "";
      if |thread| == 0 {
        thread := threadID;
      }
      if |run| == 0 {
        run := runID;
      }
      sequence := sequence + 1;
      var eventId := (if |run| > 0 then run else PROTOCOL_VERSION, sequence);
      if IsTerminal(body) {
        terminal := true;
      }
      Appended(wire, ws, WireEvent(thread, run, eventId, sequence, body));
      wire := wire + [WireEvent(thread, run, eventId, sequence, body)];
    }

    static lemma Appended(wire: seq<WireEvent>, ws: seq<WireBody>, w: WireEvent)
      requires Numbered(wire) && Holds(wire, ws) && w.sequence == |wire| + 1
      requires w.eventId == (if |w.runId| > 0 then w.runId else PROTOCOL_VERSION, w.sequence)
      ensures Numbered(wire + [w]) && Holds(wire + [w], ws + [w.body])
    {}

    /** Writes the translation of the event logged last. */
    method WriteAll(payload: AgentEvent, evts: seq<WireBody>, ghost ws: seq<WireBody>)
      requires !terminal && sequence == |wire| && Numbered(wire)
      requires forall i :: 0 <= i < |evts| - 1 ==> !IsTerminal(evts[i])
      requires Holds(wire, ws) && WireOf(log) == ws + evts
      requires OpenOf(log) == Open().(done := Ended(evts))
      requires !Ended(evts) ==> (pendingApprovalID, pendingToolCallID) == LastProposal(log)
      modifies this`sequence, this`terminal, this`wire
      ensures Valid() && old(wire) <= wire && Labelled(wire[|old(wire)|..], payload, threadID, runID)
    {
      hide OpenOf, WireOf, LastProposal, Labelled, Numbered, Holds, IsTerminal;
      LabelledStart(payload, threadID, runID);
      ghost var more: seq<WireEvent> := [];
      assert wire + more == wire && ws + evts[..0] == ws;
      var i := 0;
      while i < |evts|
        invariant 0 <= i <= |evts|
        invariant sequence == |wire| && Numbered(wire) && wire == old(wire) + more
        invariant Labelled(more, payload, threadID, runID)
        invariant Holds(wire, ws + evts[..i])
        invariant terminal == (i > 0 && IsTerminal(evts[i - 1]))
      {
        Write(payload, evts[i], ws + evts[..i]);
        assert ws + evts[..i] + [evts[i]] == ws + evts[..i + 1];
        LabelledMore(more, wire[|wire| - 1], payload, threadID, runID);
        assert old(wire) + more + [wire[|wire| - 1]] == old(wire) + (more + [wire[|wire| - 1]]);
        more := more + [wire[|wire| - 1]];
        i := i + 1;
      }
      assert evts[..i] == evts;
      assert wire[|old(wire)|..] == more;
    }

    static lemma LabelledStart(payload: AgentEvent, thread: string, run: string)
      ensures Labelled([], payload, thread, run)
    {}

    static lemma LabelledMore(wire: seq<WireEvent>, w: WireEvent, payload: AgentEvent, thread: string, run: string)
      requires Labelled(wire, payload, thread, run) && Labelled([w], payload, thread, run)
      ensures Labelled(wire + [w], payload, thread, run)
    {
      assert [w][0] == w;
    }

    /** Accepts one internal event. Nothing is required of the caller: the
        laws of `OpenOf` and `WireOf` say what any sequence of events does. */
    method Event(payload: AgentEvent)
      requires Valid()
      modifies this
      ensures Valid() && log == old(log) + [payload] && old(wire) <= wire
      ensures !old(terminal) ==> threadID == Pick(payload.threadId, old(threadID)) && runID == Pick(payload.runId, old(runID))
      ensures old(terminal) ==> wire == old(wire)
      ensures Labelled(wire[|old(wire)|..], payload, old(threadID), old(runID))
    {
      hide OpenOf, WireOf, LastProposal, Frames, TerminalBody, Labelled;
      LabelledStart(payload, threadID, runID);
      RunAppend(log, payload);
      LastProposalAppend(log, payload);
      ghost var f, ws, pending := Open(), WireOf(log), LastProposal(log);
      log := log + [payload];
      if terminal {
        assert wire[|wire|..] == [];
        return;
      }
      var evts := Translate(payload);
      FramesTerminal(f, pending, payload);
      WriteAll(payload, evts, ws);
      if |payload.threadId| > 0 {
        threadID := payload.threadId;
      }
      if |payload.runId| > 0 {
        runID := payload.runId;
      }
    }
  }
}
