/** Which events keep the stream of a run steady: the facts the agent loop needs
    about the writer, stated over the log of internal events. */
module AgentStream {
  import opened Common
  import opened Sse
  import opened AgentTypes
  import opened Interleaving

  /** The stream so far is grammatical and running; only the run's own text and
      reasoning messages may be open, the text message exactly when `textOpen`. */
  predicate Steady(input: RunInput, log: seq<AgentEvent>, textOpen: bool) {
    var f := OpenOf(log);
    && Disciplined(log)
    && f.started && !f.done
    && f.text == (if textOpen then MessageId(input) else "")
    && (|f.reasoning| == 0 || f.reasoning == ReasoningId(input.runId))
  }

  lemma Starts(input: RunInput)
    ensures Steady(input, [Emit(input, RunStarted)], false)
    ensures !Reported([Emit(input, RunStarted)])
  {
    DisciplinedAppend([], Emit(input, RunStarted));
    RunAppend([], Emit(input, RunStarted));
    assert [] + [Emit(input, RunStarted)] == [Emit(input, RunStarted)];
  }

  lemma Keeps(input: RunInput, log: seq<AgentEvent>, textOpen: bool, ev: AgentEvent, after: bool)
    requires Steady(input, log, textOpen)
    requires Fits(OpenOf(log), ev)
    requires var g := After(OpenOf(log), ev);
      && g.started && !g.done && g.text == (if after then MessageId(input) else "")
      && (|g.reasoning| == 0 || g.reasoning == ReasoningId(input.runId))
    ensures Steady(input, log + [ev], after)
  {
    DisciplinedAppend(log, ev);
    RunAppend(log, ev);
  }

  lemma ToolKeeps(input: RunInput, log: seq<AgentEvent>, textOpen: bool, ev: AgentEvent)
    requires Steady(input, log, textOpen) && IsToolEvent(ev) && ToolFits(OpenOf(log).tools, ev)
    ensures Steady(input, log + [ev], textOpen)
    ensures OpenOf(log + [ev]).tools == ToolsAfter(OpenOf(log).tools, ev)
  {
    Keeps(input, log, textOpen, ev, textOpen);
    RunAppend(log, ev);
  }

  /** A tool call gets its arguments and its end while it is open. */
  predicate ToolFits(tools: multiset<string>, ev: AgentEvent) {
    ev.body.ToolArgs? || ev.body.ToolEnd? ==> ev.body.callId in tools
  }

  function ToolsAfter(tools: multiset<string>, ev: AgentEvent): multiset<string> {
    if ev.body.ToolStart? then tools + multiset{ev.body.callId}
    else if ev.body.ToolEnd? then tools - multiset{ev.body.callId}
    else tools
  }

  /** An event that is no tool's leaves the proposal and the open calls alone. */
  lemma Logged(input: RunInput, log: seq<AgentEvent>, textOpen: bool, ev: AgentEvent)
    requires Steady(input, log, textOpen) && !IsToolEvent(ev)
    ensures AllCarried(log + [ev]) == AllCarried(log) + Carried(ev)
    ensures LastProposal(log + [ev]) == LastProposal(log) && OpenOf(log + [ev]).tools == OpenOf(log).tools
  {
    hide AllCarried, LastProposal, Carried;
    AllCarriedAppend(log, ev);
    LastProposalAppend(log, ev);
    RunAppend(log, ev);
  }

  lemma SayKeeps(input: RunInput, log: seq<AgentEvent>, textOpen: bool, delta: string)
    requires Steady(input, log, textOpen)
    ensures Steady(input, log + [Emit(input, TextContent(MessageId(input), delta))], true)
  {
    Keeps(input, log, textOpen, Emit(input, TextContent(MessageId(input), delta)), true);
  }

  lemma OpenKeeps(input: RunInput, log: seq<AgentEvent>)
    requires Steady(input, log, false)
    ensures Steady(input, log + [Emit(input, TextStart(MessageId(input)))], true)
  {
    Keeps(input, log, false, Emit(input, TextStart(MessageId(input))), true);
  }

  lemma CloseKeeps(input: RunInput, log: seq<AgentEvent>)
    requires Steady(input, log, true)
    ensures Steady(input, log + [Emit(input, TextEnd(MessageId(input)))], false)
  {
    Keeps(input, log, true, Emit(input, TextEnd(MessageId(input))), false);
  }

  lemma ThinkKeeps(input: RunInput, log: seq<AgentEvent>, textOpen: bool, delta: string)
    requires Steady(input, log, textOpen)
    ensures Steady(input, log + [Emit(input, Reasoning(delta))], textOpen)
  {
    Keeps(input, log, textOpen, Emit(input, Reasoning(delta)), textOpen);
  }

  /** What the client has read once the run is over: a complete grammatical
      stream, no message open and of the tool calls only these, numbered without a
      gap, one terminal event and that one last, and exactly this content between
      the framing. */
  ghost predicate Complete(wire: seq<WireEvent>, last: WireBody, content: seq<WireBody>, open: multiset<string>) {
    && Numbered(wire)
    && exists ws :: Holds(wire, ws) && IsWholeStream(ws, last, open) && Essence(ws) == content
  }

  predicate IsWholeStream(ws: seq<WireBody>, last: WireBody, open: multiset<string>) {
    && Scan(ws) == Some(Frame(true, "", "", open, true))
    && Ended(ws) && ws[|ws| - 1] == last
    && forall i :: 0 <= i < |ws| - 1 ==> !IsTerminal(ws[i])
  }

  lemma StillRunning(input: RunInput, log: seq<AgentEvent>, textOpen: bool)
    requires Steady(input, log, textOpen)
    ensures !OpenOf(log).done
  {
    hide OpenOf;
  }

  lemma CompleteAs(wire: seq<WireEvent>, ws: seq<WireBody>, last: WireBody, open: multiset<string>)
    requires Numbered(wire) && Holds(wire, ws) && IsWholeStream(ws, last, open)
    ensures Complete(wire, last, Essence(ws), open)
  {
    hide Numbered, Holds, IsWholeStream, Essence;
  }

  lemma LiveAppend(log: seq<AgentEvent>, ev: AgentEvent)
    ensures Live(log + [ev]) == if OpenOf(log).done then Live(log) else Live(log) + [ev]
  {
    hide OpenOf;
    assert (log + [ev])[..|log|] == log;
  }

  lemma LiveAll(log: seq<AgentEvent>, fin: AgentEvent)
    requires !OpenOf(log).done && fin.body.RunFinished?
    ensures Live(log + [fin]) == log + [fin] && AllCarried(log + [fin]) == AllCarried(log)
  {
    hide OpenOf, Live, AllCarried;
    LiveUntilDone(log);
    LiveAppend(log, fin);
    AllCarriedAppend(log, fin);
    assert AllCarried(log) + [] == AllCarried(log);
  }

  lemma FinishFits(input: RunInput, log: seq<AgentEvent>, textOpen: bool, error: string)
    requires Steady(input, log, textOpen)
    ensures var all := log + [Emit(input, RunFinished(error))];
      Disciplined(all) && OpenOf(all) == Frame(true, "", "", OpenOf(log).tools, true)
  {
    hide Disciplined, OpenOf, WireOf, LastProposal;
    var fin := Emit(input, RunFinished(error));
    DisciplinedAppend(log, fin);
    RunAppend(log, fin);
  }

  lemma Finishes(input: RunInput, log: seq<AgentEvent>, textOpen: bool, error: string)
    requires Steady(input, log, textOpen)
    ensures var all := log + [Emit(input, RunFinished(error))];
      && OpenOf(all).done
      && OpenOf(all).tools == OpenOf(log).tools
      && IsWholeStream(WireOf(all), TerminalBody(LastProposal(log), error), OpenOf(log).tools)
      && Essence(WireOf(all)) == AllCarried(log)
  {
    hide Steady, Disciplined, OpenOf, WireOf, LastProposal, Scan, AllCarried, Live, Essence, IsTerminal, TerminalBody, Ended;
    FinishFits(input, log, textOpen, error);
    StillRunning(input, log, textOpen);
    var fin := Emit(input, RunFinished(error));
    var all := log + [fin];
    LiveAll(log, fin);
    RunGrammar(all);
    RunContent(all);
    RunTerminal(all);
    EndsSo(log, fin);
  }

  lemma EndsSo(log: seq<AgentEvent>, fin: AgentEvent)
    requires !OpenOf(log).done && fin.body.RunFinished?
    ensures WireOf(log + [fin]) != []
    ensures WireOf(log + [fin])[|WireOf(log + [fin])| - 1] == TerminalBody(LastProposal(log), fin.body.error)
  {
    RunEnds(log, fin, fin);
    hide OpenOf, WireOf, LastProposal;
  }

  // ----- Proposals reported over a log

  lemma ReportedAppend(a: seq<AgentEvent>, b: seq<AgentEvent>)
    ensures Reported(a + b) <==> Reported(a) || Reported(b)
  {
    if i :| 0 <= i < |a| && |ProposalOf(a[i])| > 0 {
      assert (a + b)[i] == a[i];
    }
    if i :| 0 <= i < |b| && |ProposalOf(b[i])| > 0 {
      assert (a + b)[|a| + i] == b[i];
    }
  }

  lemma ReportedOne(ev: AgentEvent)
    ensures Reported([ev]) <==> |ProposalOf(ev)| > 0
  {
    if |ProposalOf(ev)| > 0 { assert |ProposalOf([ev][0])| > 0; }
  }

  // ----- Interleaving of tool calls

  function Work(input: RunInput, calls: seq<PlannedCall>): (work: seq<seq<AgentEvent>>)
    ensures |work| == |calls| && forall w :: 0 <= w < |calls| ==> work[w] == CallEvents(input, calls[w])
  {
    seq(|calls|, w requires 0 <= w < |calls| => CallEvents(input, calls[w]))
  }

  lemma WorkIsTools(input: RunInput, calls: seq<PlannedCall>)
    ensures forall w, i :: 0 <= w < |calls| && 0 <= i < |Work(input, calls)[w]| ==> IsToolEvent(Work(input, calls)[w][i])
  {
    forall w | 0 <= w < |calls| { CallProtocol(input, calls[w]); }
  }

  lemma {:induction false} ProjectReports(evs: seq<AgentEvent>, sender: seq<nat>, i: nat)
    requires |evs| == |sender| && i < |evs| && |ProposalOf(evs[i])| > 0
    ensures Reported(Project(evs, sender, sender[i]))
  {
    hide ProposalOf;
    var n := |evs| - 1;
    var before := Project(evs[..n], sender[..n], sender[i]);
    var last := if sender[n] == sender[i] then [evs[n]] else [];
    if i < n {
      ProjectReports(evs[..n], sender[..n], i);
    } else {
      ReportedOne(evs[n]);
    }
    ReportedAppend(before, last);
  }

  lemma {:induction false} ProjectReported(evs: seq<AgentEvent>, sender: seq<nat>, w: nat)
    requires |evs| == |sender| && Reported(Project(evs, sender, w))
    ensures Reported(evs)
  {
    hide ProposalOf;
    if evs != [] {
      var n := |evs| - 1;
      var last := if sender[n] == w then [evs[n]] else [];
      ReportedAppend(Project(evs[..n], sender[..n], w), last);
      ReportedAppend(evs[..n], [evs[n]]);
      assert evs[..n] + [evs[n]] == evs;
      if Reported(Project(evs[..n], sender[..n], w)) {
        ProjectReported(evs[..n], sender[..n], w);
      }
    }
  }

  /** However the workers are scheduled, a proposal is on the wire exactly when
      one of the calls names one. */
  lemma InterleavingReports(input: RunInput, evs: seq<AgentEvent>, calls: seq<PlannedCall>)
    requires Interleaves(evs, Work(input, calls))
    ensures Reported(evs) <==> exists w :: 0 <= w < |calls| && Names(calls[w])
  {
    hide ProposalOf, CallEvents, Project;
    var work := Work(input, calls);
    var sender: seq<nat> :| IsSchedule(evs, sender, work);
    if i :| 0 <= i < |evs| && |ProposalOf(evs[i])| > 0 {
      ProjectReports(evs, sender, i);
      CallProtocol(input, calls[sender[i]]);
    }
    if w :| 0 <= w < |calls| && Names(calls[w]) {
      CallProtocol(input, calls[w]);
      ProjectReported(evs, sender, w);
    }
  }

  // ----- Tool calls open on the wire

  /** How many more calls with the id the events start than end. */
  function Balance(evs: seq<AgentEvent>, id: string): int {
    if evs == [] then 0 else Balance(evs[..|evs| - 1], id) + Weight(evs[|evs| - 1], id)
  }

  function Weight(ev: AgentEvent, id: string): int {
    if ev.body.ToolStart? && ev.body.callId == id then 1
    else if ev.body.ToolEnd? && ev.body.callId == id then -1
    else 0
  }

  lemma BalanceAppend(evs: seq<AgentEvent>, ev: AgentEvent, id: string)
    ensures Balance(evs + [ev], id) == Balance(evs, id) + Weight(ev, id)
  {
    assert (evs + [ev])[..|evs|] == evs;
  }

  lemma {:induction false} BalanceConcat(a: seq<AgentEvent>, b: seq<AgentEvent>, id: string)
    ensures Balance(a + b, id) == Balance(a, id) + Balance(b, id)
    decreases |b|
  {
    if b == [] {
      assert a + b == a;
    } else {
      var n := |b| - 1;
      assert a + b == a + b[..n] + [b[n]];
      BalanceConcat(a, b[..n], id);
      BalanceAppend(a + b[..n], b[n], id);
    }
  }

  /** On a stream that is kept grammatical a call is open as often as it was
      started more than ended. */
  lemma {:induction false} OpenBalance(input: RunInput, log: seq<AgentEvent>, textOpen: bool, evs: seq<AgentEvent>, id: string)
    requires Steady(input, log, textOpen) && Steady(input, log + evs, textOpen)
    requires forall i :: 0 <= i < |evs| ==> IsToolEvent(evs[i])
    ensures OpenOf(log + evs).tools[id] == OpenOf(log).tools[id] + Balance(evs, id)
    decreases |evs|
  {
    hide OpenOf, Disciplined, Steady, Fits;
    if evs == [] {
      assert log + evs == log;
    } else {
      var n := |evs| - 1;
      var before, ev := evs[..n], evs[n];
      assert log + evs == log + before + [ev];
      StillSteady(input, log + before, textOpen, ev);
      OpenBalance(input, log, textOpen, before, id);
    }
  }

  lemma StillSteady(input: RunInput, log: seq<AgentEvent>, textOpen: bool, ev: AgentEvent)
    requires Steady(input, log + [ev], textOpen) && IsToolEvent(ev)
    ensures Steady(input, log, textOpen)
    ensures forall id :: OpenOf(log + [ev]).tools[id] == OpenOf(log).tools[id] + Weight(ev, id)
  {
    hide OpenOf, Disciplined;
    DisciplinedAppend(log, ev);
    RunAppend(log, ev);
  }

  /** A call's events balance, except that one that panics is never ended; its
      arguments and its end come while it is open. */
  lemma CallBalance(input: RunInput, c: PlannedCall, k: nat, id: string)
    requires k <= |CallEvents(input, c)|
    ensures Balance(CallEvents(input, c)[..k], id)
         == if Executes(c) && 1 <= k <= 2 && c.call.id == id then 1 else 0
    ensures k < |CallEvents(input, c)| ==>
      var ev := CallEvents(input, c)[k];
      (ev.body.ToolArgs? || ev.body.ToolEnd? ==> ev.body.callId == c.call.id && Executes(c) && 1 <= k <= 2)
  {
    var evs := CallEvents(input, c);
    hide CallEvents;
    BalanceUpto(evs, 0, id);
    if k >= 1 { BalanceUpto(evs, 1, id); }
    if k >= 2 { BalanceUpto(evs, 2, id); }
    if k >= 3 { BalanceUpto(evs, 3, id); }
    if k >= 4 { BalanceUpto(evs, 4, id); }
    CallShape(input, c);
  }

  lemma BalanceUpto(evs: seq<AgentEvent>, k: nat, id: string)
    requires k <= |evs|
    ensures Balance(evs[..0], id) == 0
    ensures k > 0 ==> Balance(evs[..k], id) == Balance(evs[..k - 1], id) + Weight(evs[k - 1], id)
  {
    if k > 0 { assert evs[..k] == evs[..k - 1] + [evs[k - 1]]; BalanceAppend(evs[..k - 1], evs[k - 1], id); }
  }

  /** The kinds of a call's events. */
  lemma CallShape(input: RunInput, c: PlannedCall)
    ensures var evs := CallEvents(input, c);
      if Executes(c) then
        && |evs| == (if Panics(c) then 2 else 4)
        && evs[0].body.ToolStart? && evs[0].body.callId == c.call.id && evs[0].body.name == c.call.name
        && evs[1].body.ToolArgs? && evs[1].body.callId == c.call.id && evs[1].body.delta == c.call.arguments
        && (!Panics(c) ==>
              evs[2].body.ToolEnd? && evs[2].body.callId == c.call.id
              && evs[3].body.ToolResult? && evs[3].body.callId == c.call.id)
      else |evs| == 1 && evs[0].body.ToolResult? && evs[0].body.callId == c.call.id
  {}

  // ----- Tool calls open while workers run

  function BalanceAll(parts: seq<seq<AgentEvent>>, id: string): int {
    if parts == [] then 0 else BalanceAll(parts[..|parts| - 1], id) + Balance(parts[|parts| - 1], id)
  }

  lemma {:induction false} BalanceAllUpdate(parts: seq<seq<AgentEvent>>, v: nat, part: seq<AgentEvent>, id: string)
    requires v < |parts|
    ensures BalanceAll(parts[v := part], id) == BalanceAll(parts, id) - Balance(parts[v], id) + Balance(part, id)
  {
    hide Balance;
    var n := |parts| - 1;
    if v < n {
      BalanceAllUpdate(parts[..n], v, part, id);
      assert parts[v := part][..n] == parts[..n][v := part];
    } else {
      assert parts[v := part][..n] == parts[..n];
    }
  }

  lemma {:induction false} BalanceAllCovers(parts: seq<seq<AgentEvent>>, w: nat, id: string)
    requires w < |parts| && forall v :: 0 <= v < |parts| ==> Balance(parts[v], id) >= 0
    ensures BalanceAll(parts, id) >= Balance(parts[w], id)
  {
    hide Balance;
    var n := |parts| - 1;
    if w < n {
      BalanceAllCovers(parts[..n], w, id);
    } else if n > 0 {
      BalanceAllCovers(parts[..n], 0, id);
    }
  }

  /** What each of n workers has sent. */
  function Parts(evs: seq<AgentEvent>, sender: seq<nat>, n: nat): (parts: seq<seq<AgentEvent>>)
    requires |sender| == |evs|
    ensures |parts| == n && forall w :: 0 <= w < n ==> parts[w] == Project(evs, sender, w)
  {
    seq(n, w requires 0 <= w < n => Project(evs, sender, w))
  }

  lemma {:induction false} NoneSent(n: nat, id: string)
    ensures BalanceAll(Parts([], [], n), id) == 0
  {
    if n > 0 {
      assert Parts([], [], n)[..n - 1] == Parts([], [], n - 1);
      NoneSent(n - 1, id);
    }
  }

  lemma PartsStep(evs: seq<AgentEvent>, sender: seq<nat>, n: nat)
    requires |sender| == |evs| > 0 && sender[|sender| - 1] < n
    ensures var m := |evs| - 1;
      var before := Parts(evs[..m], sender[..m], n);
      Parts(evs, sender, n) == before[sender[m] := before[sender[m]] + [evs[m]]]
  {
    var m := |evs| - 1;
    var before := Parts(evs[..m], sender[..m], n);
    forall w | 0 <= w < n ensures Project(evs, sender, w) == if w == sender[m] then before[w] + [evs[m]] else before[w] {
      assert before[w] + [] == before[w];
    }
  }

  /** What is open is open for one of the workers. */
  lemma {:induction false} PartsBalance(evs: seq<AgentEvent>, sender: seq<nat>, n: nat, id: string)
    requires |sender| == |evs| && forall i :: 0 <= i < |sender| ==> sender[i] < n
    ensures Balance(evs, id) == BalanceAll(Parts(evs, sender, n), id)
    decreases |evs|
  {
    hide BalanceAll, Weight;
    if evs == [] {
      NoneSent(n, id);
    } else {
      var m := |evs| - 1;
      var before, v, ev := Parts(evs[..m], sender[..m], n), sender[m], evs[m];
      PartsBalance(evs[..m], sender[..m], n, id);
      PartsStep(evs, sender, n);
      BalanceAllUpdate(before, v, before[v] + [ev], id);
      BalanceAppend(before[v], ev, id);
    }
  }

  /** Whatever a worker sends next fits the stream, however the others are
      scheduled. */
  lemma WorkerFits(input: RunInput, log: seq<AgentEvent>, textOpen: bool, calls: seq<PlannedCall>, left: seq<nat>,
                   evs: seq<AgentEvent>, sender: seq<nat>, w: nat)
    requires Progress(Work(input, calls), left, evs, sender)
    requires w < |calls| && 1 < left[w] < |Work(input, calls)[w]| + 2
    requires Steady(input, log, textOpen) && Steady(input, log + evs, textOpen)
    requires forall i :: 0 <= i < |evs| ==> IsToolEvent(evs[i])
    ensures ToolFits(OpenOf(log + evs).tools, Work(input, calls)[w][|Work(input, calls)[w]| + 1 - left[w]])
  {
    hide Steady, OpenOf, CallEvents, BalanceAll, Project;
    var work := Work(input, calls);
    var k := |work[w]| + 1 - left[w];
    var ev: AgentEvent := work[w][k];
    if ev.body.ToolArgs? || ev.body.ToolEnd? {
      var id := ev.body.callId;
      var parts := Parts(evs, sender, |calls|);
      forall v | 0 <= v < |calls| ensures Balance(parts[v], id) >= 0 {
        CallBalance(input, calls[v], Sent(left[v], |work[v]|), id);
      }
      CallBalance(input, calls[w], k, id);
      OpenBalance(input, log, textOpen, evs, id);
      PartsBalance(evs, sender, |calls|, id);
      BalanceAllCovers(parts, w, id);
    }
  }

  /** The calls whose tool panicked: started and never ended. */
  function Unended(calls: seq<PlannedCall>): multiset<string> {
    if calls == [] then multiset{}
    else
      var c := calls[|calls| - 1];
      Unended(calls[..|calls| - 1]) + if Panics(c) then multiset{c.call.id} else multiset{}
  }

  lemma {:induction false} WorkBalance(input: RunInput, calls: seq<PlannedCall>, id: string)
    ensures BalanceAll(Work(input, calls), id) == Unended(calls)[id]
  {
    hide CallEvents, Balance;
    if calls != [] {
      var n := |calls| - 1;
      WorkBalance(input, calls[..n], id);
      assert Work(input, calls)[..n] == Work(input, calls[..n]);
      CallBalanced(input, calls[n], id);
    }
  }

  lemma CallBalanced(input: RunInput, c: PlannedCall, id: string)
    ensures Balance(CallEvents(input, c), id) == if Panics(c) && c.call.id == id then 1 else 0
  {
    hide CallEvents;
    var evs := CallEvents(input, c);
    assert evs[..|evs|] == evs;
    CallBalance(input, c, |evs|, id);
    CallShape(input, c);
  }

  /** Once all workers are done, only the calls whose tool panicked are open. */
  lemma InterleavingBalance(input: RunInput, calls: seq<PlannedCall>, evs: seq<AgentEvent>, id: string)
    requires Interleaves(evs, Work(input, calls))
    ensures Balance(evs, id) == Unended(calls)[id]
  {
    hide Balance, BalanceAll, CallEvents;
    var work := Work(input, calls);
    var sender: seq<nat> :| IsSchedule(evs, sender, work);
    PartsBalance(evs, sender, |calls|, id);
    assert Parts(evs, sender, |calls|) == work;
    WorkBalance(input, calls, id);
  }

  /** Everything workers send is a tool event. */
  lemma InterleavingIsTools(input: RunInput, calls: seq<PlannedCall>, evs: seq<AgentEvent>)
    requires Interleaves(evs, Work(input, calls))
    ensures forall i :: 0 <= i < |evs| ==> IsToolEvent(evs[i])
  {
    hide CallEvents, IsToolEvent, Project;
    var work := Work(input, calls);
    var sender: seq<nat> :| IsSchedule(evs, sender, work);
    WorkIsTools(input, calls);
    forall i | 0 <= i < |evs| ensures IsToolEvent(evs[i]) {
      FromWorker(evs, sender, i);
      var k :| 0 <= k < |Project(evs, sender, sender[i])| && Project(evs, sender, sender[i])[k] == evs[i];
    }
  }

  lemma {:induction false} FromWorker(evs: seq<AgentEvent>, sender: seq<nat>, i: nat)
    requires |evs| == |sender| && i < |evs|
    ensures exists k :: 0 <= k < |Project(evs, sender, sender[i])| && Project(evs, sender, sender[i])[k] == evs[i]
    decreases |evs|
  {
    var n := |evs| - 1;
    var before := Project(evs[..n], sender[..n], sender[i]);
    if i < n {
      FromWorker(evs[..n], sender[..n], i);
      var k :| 0 <= k < |before| && before[k] == evs[i];
      assert Project(evs, sender, sender[i])[k] == evs[i];
    } else {
      assert Project(evs, sender, sender[i])[|before|] == evs[i];
    }
  }
}
