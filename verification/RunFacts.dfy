/** What a run does, read off the script of its environment in plain terms: what
    the model is told about every call, which tools run under which ceiling, how
    the run ends and what it costs (agentStepsLoop in handler/agent.go). */
module RunFacts {
  import opened Common
  import opened Sse
  import opened AgentTypes
  import opened ToolTurn
  import opened Conversation
  import opened TurnState
  import opened TurnWire
  import opened AgentStream
  import opened AgentRun
  import Citations
  import Text

  // ----- What a model turn says and asks

  lemma CutLast<T>(a: seq<T>, b: seq<T>)
    requires b != []
    ensures (a + b)[..|a + b| - 1] == a + b[..|b| - 1] && (a + b)[|a + b| - 1] == b[|b| - 1]
  {}

  /** The text, the thoughts and the calls of a turn are those of its deltas, in
      order, and nothing else. */
  lemma StreamConcat(a: seq<Delta>, b: seq<Delta>)
    ensures TextOf(a + b) == TextOf(a) + TextOf(b)
    ensures ThoughtOf(a + b) == ThoughtOf(a) + ThoughtOf(b)
    ensures CallsOf(a + b) == CallsOf(a) + CallsOf(b)
  {
    hide TextOf, ThoughtOf, CallsOf;
    TextConcat(a, b);
    ThoughtConcat(a, b);
    CallsConcat(a, b);
  }

  lemma {:induction false} TextConcat(a: seq<Delta>, b: seq<Delta>)
    ensures TextOf(a + b) == TextOf(a) + TextOf(b)
    decreases |b|
  {
    if b == [] {
      assert a + b == a;
    } else {
      TextConcat(a, b[..|b| - 1]);
      CutLast(a, b);
    }
  }

  lemma {:induction false} ThoughtConcat(a: seq<Delta>, b: seq<Delta>)
    ensures ThoughtOf(a + b) == ThoughtOf(a) + ThoughtOf(b)
    decreases |b|
  {
    if b == [] {
      assert a + b == a;
    } else {
      ThoughtConcat(a, b[..|b| - 1]);
      CutLast(a, b);
    }
  }

  lemma {:induction false} CallsConcat(a: seq<Delta>, b: seq<Delta>)
    ensures CallsOf(a + b) == CallsOf(a) + CallsOf(b)
    decreases |b|
  {
    if b == [] {
      assert a + b == a;
    } else {
      CallsConcat(a, b[..|b| - 1]);
      CutLast(a, b);
    }
  }

  lemma {:induction false} SpokenConcat(input: RunInput, a: seq<Delta>, b: seq<Delta>)
    ensures SpokenOf(input, a + b) == SpokenOf(input, a) + SpokenOf(input, b)
    decreases |b|
  {
    if b == [] {
      assert a + b == a;
    } else {
      hide SpokenOne;
      SpokenConcat(input, a, b[..|b| - 1]);
      CutLast(a, b);
    }
  }

  /** One delta: what it adds to the turn and to the wire. */
  lemma DeltaExactly(input: RunInput, t: string, c: PlannedCall)
    ensures TextOf([Say(t)]) == t && TextOf([Think(t)]) == "" && TextOf([Ask(c)]) == ""
    ensures ThoughtOf([Think(t)]) == t && ThoughtOf([Say(t)]) == "" && ThoughtOf([Ask(c)]) == ""
    ensures CallsOf([Ask(c)]) == [c] && CallsOf([Say(t)]) == [] && CallsOf([Think(t)]) == []
    ensures SpokenOf(input, [Say(t)]) == [WTextContent("msg-" + input.runId, t)]
    ensures t != "" ==> SpokenOf(input, [Think(t)]) == [WReasoningContent("rsn-" + input.runId, t)]
    ensures SpokenOf(input, [Think("")]) == [] && SpokenOf(input, [Ask(c)]) == []
  {
    assert [Say(t)][..0] == [] && [Think(t)][..0] == [] && [Ask(c)][..0] == [] && [Think("")][..0] == [];
  }

  // ----- What the model is told about a call

  /** The calls with this name and these arguments among some calls. */
  function Same(ran: seq<PlannedCall>, c: PlannedCall): nat {
    multiset(Keys(ran))[(c.call.name, c.call.arguments)]
  }

  function Keys(ran: seq<PlannedCall>): (keys: seq<(string, string)>)
    ensures |keys| == |ran| && forall i :: 0 <= i < |ran| ==> keys[i] == (ran[i].call.name, ran[i].call.arguments)
  {
    seq(|ran|, i requires 0 <= i < |ran| => (ran[i].call.name, ran[i].call.arguments))
  }

  /** The words the model is told, for a call that is the `times`-th of its kind:
      what the tool answered, or why it did not run; a warning around it when the
      identical call ran before. A call that waits is never wrapped. */
  predicate Told(c: PlannedCall, times: nat, told: Feedback) {
    match c.resolution
    case UnknownTool => Wrapped(c, times, told, Feedback("{\"error\":\"unknown_tool\"}", []))
    case Forbidden => Wrapped(c, times, told, Feedback("{\"error\":\"forbidden\"}", []))
    case InvalidArguments => Wrapped(c, times, told, Feedback("{\"error\":\"invalid_arguments\"}", []))
    case ApprovalRequired(Disabled) => Wrapped(c, times, told, Feedback("{\"denied\":\"approval_unavailable\"}", []))
    case ApprovalRequired(NotPersisted(_)) => Wrapped(c, times, told, Feedback("{\"denied\":\"approval_unavailable\"}", []))
    case ApprovalRequired(Created(id)) =>
      AsksForDecision(told, id)
    case Ready(AuditUnavailable) => Wrapped(c, times, told, Feedback("{\"error\":\"ai.tool_persistence_unavailable\"}", []))
    case Ready(Proposed(id)) =>
      AsksForDecision(told, id)
    case Ready(Completed(_, answer)) => Wrapped(c, times, told, answer)
    case Ready(Panicked) => Wrapped(c, times, told, Feedback("{\"error\":\"ai.tool_execution_failed\"}", []))
  }

  /** The model is told to wait for the approval of this id. */
  predicate AsksForDecision(told: Feedback, id: string) {
    told == Feedback(
      "{\"approvalId\":\"" + id
      + "\",\"note\":\"Người dùng cần phê duyệt trước khi hành động được thực hiện.\",\"status\":\"WAITING_APPROVAL\"}", [])
  }

  predicate Wrapped(c: PlannedCall, times: nat, told: Feedback, own: Feedback) {
    told == if times > 1 then Repeated(c.call.name, times, own) else own
  }

  lemma {:induction false} TimesAreSame(ran: seq<PlannedCall>, c: PlannedCall)
    ensures Times(ran, KeyOf(c)) == Same(ran, c)
    decreases |ran|
  {
    if ran != [] {
      var n := |ran| - 1;
      TimesAreSame(ran[..n], c);
      assert Keys(ran) == Keys(ran[..n]) + [(ran[n].call.name, ran[n].call.arguments)];
    }
  }

  lemma ToldLastExactly(ran: seq<PlannedCall>, c: PlannedCall)
    ensures Told(c, Same(ran + [c], c), ToldLast(ran + [c]))
  {
    TimesAreSame(ran + [c], c);
    hide Times, Same;
  }

  lemma {:induction false} ReplyAt(ran: seq<PlannedCall>, done: seq<PlannedCall>, i: nat)
    requires i < |done|
    ensures Replies(ran, done)[i] == ToolReply(done[i].call.id, ToldLast(ran + done[..i] + [done[i]]))
    decreases |done|
  {
    hide ToldLast;
    var n := |done| - 1;
    if i < n {
      ReplyAt(ran, done[..n], i);
      assert done[..n][..i] == done[..i];
    } else {
      assert ran + done == ran + done[..i] + [done[i]];
    }
  }

  /** The calls of the turns before a step. */
  lemma {:induction false} RanBeforeIs(script: nat -> Turn, step: nat, j: nat)
    requires j < step
    ensures RanBefore(script, 0) == []
    ensures RanBefore(script, step) == RanBefore(script, step - 1) + CallsOf(script(step - 1).stream)
    ensures forall c :: c in CallsOf(script(j).stream) ==> c in RanBefore(script, step)
  {
    hide CallsOf;
    if j < step - 1 { RanBeforeIs(script, step - 1, j); }
  }

  /** The step limit: what was configured when that is from one to twenty, and ten
      otherwise. */
  function Limit(configured: int): nat { if 1 <= configured <= 20 then configured else 10 }

  lemma LimitIs(configured: int)
    ensures MaxSteps(configured) == Limit(configured)
  {}

  /** Tools are offered in every request except the last a budget of two or more
      allows, which carries a note to answer now; the first carries the
      conversation the run was given. */
  lemma OfferedExactly(r: Report, env: Environment, initial: seq<Message>, k: nat)
    requires Dictated(r, env, initial) && k < |r.requests|
    ensures r.requests[k].offered <==> !(Limit(env.configured) >= 2 && k == Limit(env.configured) - 1)
    ensures k == 0 ==> r.requests[0] == Request(initial, true)
  {
    hide Written, Calls, Shown, Downgraded;
    LimitIs(env.configured);
    if k == 0 { ShownFirst(env.script, initial); }
  }

  lemma ShownFirst(script: nat -> Turn, initial: seq<Message>)
    ensures Shown(script, 0, initial) == initial
  {}

  lemma ShownNext(script: nat -> Turn, step: nat, initial: seq<Message>)
    ensures Shown(script, step + 1, initial)
         == Shown(script, step, initial)
            + [Assistant(TextOf(script(step).stream), ThoughtOf(script(step).stream), CallIds(CallsOf(script(step).stream)))]
            + Replies(RanBefore(script, step), CallsOf(script(step).stream))
  {
    hide TextOf, ThoughtOf, CallsOf, Replies, RanBefore;
  }

  lemma NoteExactly()
    ensures WRITE_NOW == "Tool budget reached. Write the final answer now using only verified evidence already collected. "
      + "If data or parameters are missing, state precisely what is missing. "
      + "Do not claim the analysis is complete unless the evidence supports it."
  {}

  /** Of two consecutive requests the second repeats the first and adds what the
      model answered, with its calls, and one reply to each of them in order; the
      note comes last. */
  lemma NextRequest(r: Report, env: Environment, initial: seq<Message>, k: nat)
    requires Dictated(r, env, initial) && k + 1 < |r.requests|
    ensures var stream := env.script(k).stream;
      r.requests[k + 1].messages
      == r.requests[k].messages
         + [Assistant(TextOf(stream), ThoughtOf(stream), CallIds(CallsOf(stream)))]
         + Replies(RanBefore(env.script, k), CallsOf(stream))
         + (if r.requests[k + 1].offered then [] else [System(WRITE_NOW)])
  {
    hide Written, Shown, Downgraded, TextOf, ThoughtOf, CallsOf, Replies, RanBefore, TurnCount;
    FewerThanLimit(env);
    RequestStep(env.script, k, MaxSteps(env.configured), initial);
    assert r.requests[k + 1] == RequestAt(env.script, k + 1, MaxSteps(env.configured), initial);
  }

  lemma RequestStep(script: nat -> Turn, k: nat, maxSteps: nat, initial: seq<Message>)
    requires k + 1 < maxSteps
    ensures var a, b := RequestAt(script, k, maxSteps, initial), RequestAt(script, k + 1, maxSteps, initial);
      var stream := script(k).stream;
      b.messages == a.messages
         + [Assistant(TextOf(stream), ThoughtOf(stream), CallIds(CallsOf(stream)))]
         + Replies(RanBefore(script, k), CallsOf(stream))
         + (if b.offered then [] else [System(WRITE_NOW)])
  {
    ShownNext(script, k, initial);
    hide Shown, TextOf, ThoughtOf, CallsOf, Replies, RanBefore;
    var next := Shown(script, k + 1, initial);
    assert next + [] == next;
  }

  lemma FewerThanLimit(env: Environment)
    ensures Calls(env) <= MaxSteps(env.configured)
  {
    hide TurnCount;
  }

  lemma InPlace<T>(a: seq<T>, x: T, b: seq<T>, c: seq<T>, i: nat)
    requires i < |b|
    ensures |a| + 1 + i < |a + [x] + b + c| && (a + [x] + b + c)[|a| + 1 + i] == b[i]
  {}

  /** What the model is told about every call, at its place in the next request:
      the tool's own answer, or why it did not run, and a warning around it when
      the identical call ran before. */
  lemma FedBack(r: Report, env: Environment, initial: seq<Message>, k: nat, i: nat)
    requires Dictated(r, env, initial) && k + 1 < |r.requests| && i < |CallsOf(env.script(k).stream)|
    ensures var calls := CallsOf(env.script(k).stream);
      var after := r.requests[k + 1].messages;
      var place := |r.requests[k].messages| + 1 + i;
      && place < |after| && after[place].ToolReply? && after[place].callId == calls[i].call.id
      && Told(calls[i], Same(RanBefore(env.script, k) + calls[..i + 1], calls[i]), after[place].feedback)
  {
    hide Dictated, Told, Same, CallsOf, Replies, RanBefore, ToldLast, TextOf, ThoughtOf;
    NextRequest(r, env, initial, k);
    var calls := CallsOf(env.script(k).stream);
    var ran := RanBefore(env.script, k);
    ReplyAt(ran, calls, i);
    ToldLastExactly(ran + calls[..i], calls[i]);
    assert ran + calls[..i + 1] == ran + calls[..i] + [calls[i]];
    var note := if r.requests[k + 1].offered then [] else [System(WRITE_NOW)];
    InPlace(r.requests[k].messages, Assistant(TextOf(env.script(k).stream), ThoughtOf(env.script(k).stream), CallIds(calls)),
            Replies(ran, calls), note, i);
  }

  // ----- Act mode

  /** The call's tool ran to its end and answered with citations. */
  predicate Cited(c: PlannedCall) {
    c.resolution.Ready? && c.resolution.execution.Completed? && c.resolution.execution.feedback.Labels() != []
  }

  lemma ReadsIsCited(c: PlannedCall)
    ensures Reads(c) <==> Cited(c)
  {}

  predicate CitedIn(calls: seq<PlannedCall>) { exists i :: 0 <= i < |calls| && Cited(calls[i]) }

  lemma {:induction false} CeilingOfTurns(script: nat -> Turn, k: nat, initial: string)
    requires forall j :: 0 <= j < k ==> ResultOf(script(j)).NextTurn?
    ensures CeilingAt(script, k, initial)
         == if exists j :: 0 <= j < k && CitedIn(CallsOf(script(j).stream)) then "" else initial
  {
    hide CallsOf, Consumed, CeilingOver, Walk, InParallel, ResultOf, Cited;
    if k > 0 {
      CeilingOfTurns(script, k - 1, initial);
      var calls := CallsOf(script(k - 1).stream);
      GoesOnConsumes(script(k - 1));
      CeilingOfCalls(calls, CeilingAt(script, k - 1, initial));
    }
  }

  lemma CeilingOfCalls(calls: seq<PlannedCall>, ceiling: string)
    ensures CeilingOver(calls, ceiling) == if CitedIn(calls) then "" else ceiling
  {
    CeilingOverRead(calls, ceiling);
    hide CeilingOver, Cited, Reads;
    forall i | 0 <= i < |calls| ensures Reads(calls[i]) <==> Cited(calls[i]) { ReadsIsCited(calls[i]); }
  }

  lemma GoesOnConsumes(turn: Turn)
    requires ResultOf(turn).NextTurn?
    ensures Consumed(CallsOf(turn.stream), InParallel(CallsOf(turn.stream))) == CallsOf(turn.stream)
  {
    hide CallsOf, Walk, InParallel, Consumed;
    WalkConsumes(CallsOf(turn.stream), InParallel(CallsOf(turn.stream)));
  }

  lemma {:induction false} WalkConsumes(calls: seq<PlannedCall>, parallel: bool)
    requires Walk(calls, parallel).Proceed?
    ensures Consumed(calls, parallel) == calls
  {
    hide Pends, Panics;
    if calls != [] { WalkConsumes(calls[1..], parallel); }
  }

  lemma {:induction false} CountedGoOn(script: nat -> Turn, step: nat, maxSteps: nat, j: nat)
    requires step <= j && j + 1 < step + TurnCount(script, step, maxSteps)
    ensures ResultOf(script(j)).NextTurn?
    decreases maxSteps - step
  {
    hide ResultOf;
    if step < j { CountedGoOn(script, step + 1, maxSteps, j); }
  }

  lemma EarlierGoOn(env: Environment, j: nat)
    requires j + 1 < Calls(env)
    ensures ResultOf(env.script(j)).NextTurn?
  {
    hide TurnCount, ResultOf;
    CountedGoOn(env.script, 0, MaxSteps(env.configured), j);
  }

  /** At every model call the ceiling is the initial one until a tool of an earlier
      turn has answered with citations, and none from then on. */
  lemma CeilingExactly(env: Environment, k: nat)
    requires k < Calls(env)
    ensures CeilingAt(env.script, k, env.risk)
         == if exists j, i :: 0 <= j < k && 0 <= i < |CallsOf(env.script(j).stream)| && Cited(CallsOf(env.script(j).stream)[i])
            then "" else env.risk
  {
    hide Calls, ResultOf, CallsOf, CeilingAt, Cited;
    forall j | 0 <= j < k ensures ResultOf(env.script(j)).NextTurn? { EarlierGoOn(env, j); }
    CeilingOfTurns(env.script, k, env.risk);
    if j, i :| 0 <= j < k && 0 <= i < |CallsOf(env.script(j).stream)| && Cited(CallsOf(env.script(j).stream)[i]) {
      assert CitedIn(CallsOf(env.script(j).stream));
    }
  }

  /** The tool's code runs: the call was resolved and its start was recorded. */
  predicate ToolRuns(c: PlannedCall) {
    c.resolution.Ready? && c.resolution.execution != AuditUnavailable
  }

  /** What the calls of a turn do one after the other, call by call: a tool that
      runs does so under the ceiling in force, an answer with citations is noted
      and takes the ceiling away, and a call that panics, waits or finds the
      request gone is the last. */
  lemma ActsStep(c: PlannedCall, rest: seq<PlannedCall>, ceiling: string)
    ensures ActsInOrder([c] + rest, ceiling)
         == (if ToolRuns(c) then [Ran(c.call.id, ceiling)] else [])
            + (if Cited(c) then [Act.Cited] else [])
            + (if Holds(c) then [] else ActsInOrder(rest, if Cited(c) then "" else ceiling))
    ensures ActsInOrder([], ceiling) == []
  {
    ReadsIsCited(c);
    assert ([c] + rest)[1..] == rest;
    hide Cited, Reads;
  }

  /** The call is the last of a turn that goes one after the other. */
  predicate Holds(c: PlannedCall) {
    || c.resolution == Resolution.Ready(Execution.Panicked)
    || c.ctxAfter != Alive
    || Waits(c)
  }

  /** The call waits for a human decision. */
  predicate Waits(c: PlannedCall) {
    (c.resolution.ApprovalRequired? && c.resolution.creation.Created?)
    || (c.resolution.Ready? && c.resolution.execution.Proposed?)
  }

  /** The places of the calls with this id whose tools run. */
  function Runners(calls: seq<PlannedCall>, id: string): set<nat> {
    set i: nat | i < |calls| && ToolRuns(calls[i]) && calls[i].call.id == id
  }

  lemma RunnersMore(calls: seq<PlannedCall>, id: string)
    requires calls != []
    ensures var n := |calls| - 1;
      |Runners(calls, id)| == |Runners(calls[..n], id)| + if ToolRuns(calls[n]) && calls[n].call.id == id then 1 else 0
  {
    hide ToolRuns;
    var n := |calls| - 1;
    assert Runners(calls, id) == Runners(calls[..n], id) + if ToolRuns(calls[n]) && calls[n].call.id == id then {n} else {};
  }

  /** Concurrent calls: each tool that runs does so once, under one ceiling, and
      nothing else happens meanwhile. */
  lemma {:induction false} RunsExactly(calls: seq<PlannedCall>, ceiling: string, id: string)
    ensures RunsOf(calls, ceiling)[Ran(id, ceiling)] == |Runners(calls, id)|
    ensures forall act :: act in RunsOf(calls, ceiling) ==> act.Ran? && act.ceiling == ceiling
  {
    if calls != [] {
      hide Runners;
      var n := |calls| - 1;
      RunsExactly(calls[..n], ceiling, id);
      RunnersMore(calls, id);
      assert ToolRuns(calls[n]) <==> Executes(calls[n]);
      hide ToolRuns, Executes;
    }
  }

  /** The three pairs of ceiling and risk under which a method that needs a
      confirmation runs without one. */
  lemma AutoApproveExactly(ceiling: string, risk: string)
    ensures AutoApprove(ceiling, risk) <==>
      (ceiling == "low" && risk == "low") || (ceiling == "medium" && (risk == "low" || risk == "medium"))
  {}

  // ----- How a turn and a run end

  /** Where a turn leads. A model call that was cut short or failed ends the run,
      an answer without calls too. Otherwise the first call that holds the turn
      up decides: a panic outside a worker, the request context, or a proposal. */
  lemma TurnExactly(turn: Turn)
    ensures turn.ctxAfter != Alive ==> ResultOf(turn) == Over(Stopped(turn.ctxAfter, false))
    ensures turn.ctxAfter == Alive && turn.failure.Some? ==> ResultOf(turn) == Over(ModelFailed(turn.failure.value))
    ensures turn.ctxAfter == Alive && turn.failure.None? && CallsOf(turn.stream) == [] ==> ResultOf(turn) == Over(Answered)
    ensures turn.ctxAfter == Alive && turn.failure.None? && CallsOf(turn.stream) != [] ==>
      ToolsLead(CallsOf(turn.stream), ResultOf(turn))
  {
    hide InParallel, HoldsUp, FirstUp, Waits;
    var calls := CallsOf(turn.stream);
    WalkExactly(calls, InParallel(calls));
    hide CallsOf, Walk;
  }

  /** Where the calls of a turn lead: on, unless one of them holds the turn up. */
  predicate ToolsLead(calls: seq<PlannedCall>, result: TurnResult) {
    && (result.NextTurn? <==> forall i :: 0 <= i < |calls| ==> !HoldsUp(calls[i], InParallel(calls)))
    && forall i: nat :: i < |calls| && FirstUp(calls, InParallel(calls), i) ==>
         result == if !InParallel(calls) && calls[i].resolution == Resolution.Ready(Execution.Panicked) then Over(Crashed)
                   else if calls[i].ctxAfter != Alive then Over(Stopped(calls[i].ctxAfter, Waits(calls[i])))
                   else PausedTurn
  }

  predicate HoldsUp(c: PlannedCall, parallel: bool) {
    (!parallel && c.resolution == Resolution.Ready(Execution.Panicked)) || c.ctxAfter != Alive || Waits(c)
  }

  predicate FirstUp(calls: seq<PlannedCall>, parallel: bool, i: nat) {
    i < |calls| && HoldsUp(calls[i], parallel) && forall j :: 0 <= j < i ==> !HoldsUp(calls[j], parallel)
  }

  lemma PendsIsWaits(c: PlannedCall)
    ensures Pends(c) <==> Waits(c)
    ensures Panics(c) <==> c.resolution == Resolution.Ready(Execution.Panicked)
    ensures Executes(c) <==> ToolRuns(c)
  {}

  lemma {:induction false} WalkExactly(calls: seq<PlannedCall>, parallel: bool)
    ensures Walk(calls, parallel).Proceed? <==> forall i :: 0 <= i < |calls| ==> !HoldsUp(calls[i], parallel)
    ensures forall i: nat :: FirstUp(calls, parallel, i) ==>
      Walk(calls, parallel) == if !parallel && calls[i].resolution == Resolution.Ready(Execution.Panicked) then Fatal
                               else if calls[i].ctxAfter != Alive then Broken(calls[i].ctxAfter, Waits(calls[i]))
                               else Paused
  {
    if calls != [] {
      var rest := calls[1..];
      WalkExactly(rest, parallel);
      PendsIsWaits(calls[0]);
      hide Waits, Pends, Panics;
      assert forall i :: 0 <= i < |rest| ==> rest[i] == calls[i + 1];
      forall i: nat | FirstUp(calls, parallel, i)
        ensures Walk(calls, parallel) == if !parallel && calls[i].resolution == Resolution.Ready(Execution.Panicked) then Fatal
                                         else if calls[i].ctxAfter != Alive then Broken(calls[i].ctxAfter, Waits(calls[i]))
                                         else Paused
      {
        if i > 0 { assert FirstUp(rest, parallel, i - 1); }
      }
    }
  }

  /** How many results are fed back when the i-th call holds the turn up. */
  function FedUpTo(calls: seq<PlannedCall>, parallel: bool, i: nat): nat
    requires i < |calls|
  {
    if !parallel && calls[i].resolution == Resolution.Ready(Execution.Panicked) then i else i + 1
  }

  lemma Headed<T>(s: seq<T>, m: nat)
    requires 0 < m <= |s|
    ensures [s[0]] + s[1..][..m - 1] == s[..m]
  {}

  lemma FirstOfRest(calls: seq<PlannedCall>, parallel: bool, i: nat)
    requires FirstUp(calls, parallel, i) && i > 0
    ensures FirstUp(calls[1..], parallel, i - 1) && !HoldsUp(calls[0], parallel)
  {
    hide HoldsUp;
    assert forall j :: 0 <= j < |calls| - 1 ==> calls[1..][j] == calls[j + 1];
  }

  lemma ConsumedHead(calls: seq<PlannedCall>, parallel: bool)
    requires calls != []
    ensures Consumed(calls, parallel)
         == if HoldsUp(calls[0], parallel) then calls[..FedUpTo(calls, parallel, 0)]
            else [calls[0]] + Consumed(calls[1..], parallel)
  {
    PendsIsWaits(calls[0]);
    hide Waits, Pends, Panics;
  }

  /** The results fed back are those of the calls up to the first that holds the
      turn up, with its own unless its tool panicked outside a worker. */
  lemma {:induction false} ConsumedExactly(calls: seq<PlannedCall>, parallel: bool)
    ensures (forall i :: 0 <= i < |calls| ==> !HoldsUp(calls[i], parallel)) ==> Consumed(calls, parallel) == calls
    ensures forall i: nat :: FirstUp(calls, parallel, i) ==> Consumed(calls, parallel) == calls[..FedUpTo(calls, parallel, i)]
  {
    if calls != [] {
      hide HoldsUp, Consumed;
      var rest := calls[1..];
      ConsumedExactly(rest, parallel);
      ConsumedHead(calls, parallel);
      assert forall i :: 0 <= i < |rest| ==> rest[i] == calls[i + 1];
      forall i: nat | FirstUp(calls, parallel, i)
        ensures Consumed(calls, parallel) == calls[..FedUpTo(calls, parallel, i)]
      {
        if i > 0 {
          FirstOfRest(calls, parallel, i);
          if FedUpTo(calls, parallel, i) > 0 { Headed(calls, FedUpTo(calls, parallel, i)); }
        }
      }
    }
  }

  /** The places of the calls that answered with citations. */
  function CitedPlaces(calls: seq<PlannedCall>): set<nat> { set i: nat | i < |calls| && Cited(calls[i]) }

  /** Feeding results back notes one reading for every answer with citations. */
  lemma {:induction false} CitesExactly(done: seq<PlannedCall>)
    ensures |AllCites(done)| == |CitedPlaces(done)| && forall i :: 0 <= i < |AllCites(done)| ==> AllCites(done)[i] == Act.Cited
  {
    if done != [] {
      var n := |done| - 1;
      CitesExactly(done[..n]);
      ReadsIsCited(done[n]);
      hide Cited, Reads;
      assert CitedPlaces(done) == CitedPlaces(done[..n]) + if Cited(done[n]) then {n} else {};
    }
  }

  /** A completed answer is cited exactly when it carries labels, and a warning
      around it keeps them. */
  lemma LabelsExactly(c: PlannedCall, streamed: string, text: string, labels: seq<string>, times: nat)
    requires c.resolution == Resolution.Ready(Completed(streamed, Feedback(text, labels)))
    ensures Cited(c) <==> labels != []
    ensures Repeated(c.call.name, times, Feedback(text, labels)).Labels() == labels
    ensures FeedbackOf(c).Labels() == labels
  {}

  /** While a run waits, the calls up to the one that waits are told about as
      ever, and those after it that they were skipped. */
  lemma PausedReplies(ran: seq<PlannedCall>, calls: seq<PlannedCall>, n: nat, i: nat)
    requires n <= |calls| && i < |calls|
    ensures var replies := Replies(ran, calls[..n]) + Skips(calls[n..]);
      && |replies| == |calls| && replies[i].ToolReply? && replies[i].callId == calls[i].call.id
      && if i < n then Told(calls[i], Same(ran + calls[..i + 1], calls[i]), replies[i].feedback)
         else replies[i].feedback == Feedback("{\"error\":\"skipped_pending_approval\"}", [])
  {
    hide Told, Same, Replies, ToldLast;
    if i < n {
      ReplyAt(ran, calls[..n], i);
      ToldLastExactly(ran + calls[..i], calls[i]);
      assert calls[..n][..i] == calls[..i] && ran + calls[..i + 1] == ran + calls[..i] + [calls[i]];
    }
  }

  /** How many model calls a run makes and how it ends: every turn but the last
      goes on, and the last one ends the run, waits, or was the last allowed. */
  lemma {:induction false} CountExactly(script: nat -> Turn, step: nat, maxSteps: nat)
    requires step < maxSteps
    ensures var n := TurnCount(script, step, maxSteps);
      && 1 <= n <= maxSteps - step
      && (forall j :: step <= j < step + n - 1 ==> ResultOf(script(j)).NextTurn?)
      && var last := ResultOf(script(step + n - 1));
         && (last.NextTurn? ==> step + n == maxSteps)
         && ExpectedEnd(script, step, maxSteps)
            == match last case Over(end) => end case PausedTurn => Waiting case NextTurn => StepLimit
    decreases maxSteps - step
  {
    hide ResultOf;
    OneTurn(script, step, maxSteps);
    if step + 1 < maxSteps {
      if ResultOf(script(step)).NextTurn? { CountExactly(script, step + 1, maxSteps); }
    } else {
      OneTurn(script, step + 1, maxSteps);
    }
  }

  /** The outcome of a run from its last model call. */
  lemma EndExactly(r: Report, env: Environment, initial: seq<Message>)
    requires Dictated(r, env, initial)
    ensures env.ctx != Alive ==> r.outcome == Refused(env.ctx) && r.requests == []
    ensures env.ctx == Alive && !env.hasProvider ==> r.outcome == NoProvider && r.requests == []
    ensures env.ctx == Alive && env.hasProvider ==>
      var n := |r.requests|;
      && 1 <= n <= Limit(env.configured)
      && (forall j :: 0 <= j < n - 1 ==> ResultOf(env.script(j)).NextTurn?)
      && var last := ResultOf(env.script(n - 1));
         && (last.NextTurn? ==> n == Limit(env.configured))
         && r.outcome == Looped(match last case Over(end) => end case PausedTurn => Waiting case NextTurn => StepLimit)
  {
    hide Written, Downgraded, ResultOf, TurnCount, ExpectedEnd, RequestAt, CeilingAt, TurnActs;
    LimitIs(env.configured);
    if OutcomeOf(env).Looped? { CountExactly(env.script, 0, MaxSteps(env.configured)); }
  }

  /** What is told, kept and paid for every way a run ends. */
  lemma EndsExactly(end: End, ctx: Ctx, tokens: int)
    ensures ErrorOf(Answered) == "" && FinishesOf(Answered) == [SUCCEEDED] && QuotaOf(Answered, tokens) == [tokens]
    ensures ErrorOf(Waiting) == "" && FinishesOf(Waiting) == [] && QuotaOf(Waiting, tokens) == []
    ensures ErrorOf(StepLimit) == "ai.agent_step_limit" && FinishesOf(StepLimit) == [FAILED]
            && QuotaOf(StepLimit, tokens) == [tokens]
    ensures FinishesOf(Crashed) == [] && QuotaOf(Crashed, tokens) == [tokens]
    ensures end.ModelFailed? ==>
      && FinishesOf(end) == [FAILED] && QuotaOf(end, tokens) == [tokens]
      && ErrorOf(end) == match end.error
                         case Unauthorized => "ai.model_unauthorized"
                         case RateLimited => "ai.model_rate_limited"
                         case TimedOut => "ai.model_timeout"
                         case Unavailable => "ai.model_unavailable"
    ensures end.Stopped? && end.ctx == DeadlineExceeded ==> ErrorOf(end) == "ai.run_timeout" && FinishesOf(end) == [FAILED]
    ensures end.Stopped? && end.ctx == Cancelled ==> ErrorOf(end) == "ai.run_cancelled" && FinishesOf(end) == [CANCELLED]
    ensures end.Stopped? ==> QuotaOf(end, tokens) == if end.paused then [] else [tokens]
    ensures ErrorCode(NoProvider) == "ai.model_unavailable" && Persisted(NoProvider) == [FAILED] && Settled(NoProvider, tokens) == [0]
    ensures Settled(Refused(ctx), tokens) == [0]
    ensures ErrorCode(Refused(DeadlineExceeded)) == "ai.run_timeout" && Persisted(Refused(DeadlineExceeded)) == [FAILED]
    ensures ErrorCode(Refused(Cancelled)) == "ai.run_cancelled" && Persisted(Refused(Cancelled)) == [CANCELLED]
  {}

  /** The tokens of the turns from a step on: those reported by the model calls
      that succeeded. */
  function Spent(script: nat -> Turn, step: nat, n: nat): int
    decreases n
  {
    if n == 0 then 0
    else
      var turn := script(step);
      (if turn.ctxAfter == Alive && turn.failure == None && turn.tokens > 0 then turn.tokens else 0)
      + Spent(script, step + 1, n - 1)
  }

  lemma {:induction false} TokensExactly(script: nat -> Turn, step: nat, maxSteps: nat)
    ensures ExpectedTokens(script, step, maxSteps) == Spent(script, step, TurnCount(script, step, maxSteps))
    decreases maxSteps - step
  {
    hide ResultOf;
    OneTurn(script, step, maxSteps);
    if step < maxSteps && ResultOf(script(step)).NextTurn? { TokensExactly(script, step + 1, maxSteps); }
  }

  // ----- The proposal

  /** The call asks for an approval with this id. */
  predicate Proposal(c: PlannedCall, id: string) {
    c.resolution == ApprovalRequired(Created(id)) || c.resolution == Resolution.Ready(Proposed(id))
  }

  predicate NamesOne(c: PlannedCall) { Waits(c) && !Proposal(c, "") }

  /** Some call asks for the approval, under its own id. */
  predicate AskedBy(calls: seq<PlannedCall>, pending: (string, string)) {
    exists i :: 0 <= i < |calls| && Proposal(calls[i], pending.0) && calls[i].call.id == pending.1
  }

  lemma NamesIsOne(c: PlannedCall)
    ensures Names(c) <==> NamesOne(c)
    ensures Names(c) ==> ApprovalId(c).value != "" && Proposal(c, ApprovalId(c).value)
  {}

  lemma DictatedParts(r: Report, env: Environment, initial: seq<Message>)
    requires Dictated(r, env, initial)
    ensures r.outcome == OutcomeOf(env) && |r.requests| == Calls(env)
    ensures Written(env.input, env.script, Calls(env), OPENED, r.output, r.contents, AgentRun.Closing(env))
  {
    hide Written, Calls, OutcomeOf, Downgraded, CeilingAt, TurnActs, RequestAt, AgentRun.Closing;
  }

  lemma AskedOf(pending: (string, string), calls: seq<PlannedCall>)
    requires Proposes(pending, calls)
    ensures AskedBy(calls, pending)
  {
    hide Proposal;
    var i :| 0 <= i < |calls| && Names(calls[i]) && pending == (ApprovalId(calls[i]).value, calls[i].call.id);
    NamesIsOne(calls[i]);
  }

  lemma PendingAsked(r: Report, env: Environment)
    requires Written(env.input, env.script, Calls(env), OPENED, r.output, r.contents, AgentRun.Closing(env))
    requires r.output.pending.0 != ""
    ensures Calls(env) > 0 && AskedBy(CallsOf(env.script(Calls(env) - 1).stream), r.output.pending)
  {
    hide *;
    PendingOf(r, env);
    AskedOf(r.output.pending, CallsOf(env.script(Calls(env) - 1).stream));
  }

  /** A run that leaves a proposal pending ends with an interrupt that names the
      approval of a call of its last turn, and that call. */
  lemma InterruptNames(r: Report, env: Environment, initial: seq<Message>)
    requires Dictated(r, env, initial) && r.output.pending.0 != ""
    ensures TerminalBody(r.output.pending, ErrorCode(r.outcome))
         == WRunFinished(Interrupt(r.output.pending.0, r.output.pending.1))
    ensures |r.requests| > 0 && AskedBy(CallsOf(env.script(|r.requests| - 1).stream), r.output.pending)
  {
    hide Dictated, Written, AskedBy, CallsOf, Calls, ErrorCode;
    DictatedParts(r, env, initial);
    PendingAsked(r, env);
  }

  predicate NamesFirst(calls: seq<PlannedCall>, i: nat) {
    i < |calls| && NamesOne(calls[i]) && forall j :: 0 <= j < i ==> !HoldsUp(calls[j], false)
  }

  /** Which turns report a proposal: concurrent calls when one of them names one,
      the others when the first call that holds the turn up, or one before it,
      does. */
  lemma {:induction false} ReportsInOrder(calls: seq<PlannedCall>)
    ensures NamesInOrder(calls) <==> exists i: nat :: NamesFirst(calls, i)
  {
    if calls != [] {
      var rest := calls[1..];
      ReportsInOrder(rest);
      NamesIsOne(calls[0]);
      PendsIsWaits(calls[0]);
      hide Names, NamesOne, Waits, Panics, Pends;
      assert forall i :: 0 <= i < |rest| ==> rest[i] == calls[i + 1];
      if NamesOne(calls[0]) { assert NamesFirst(calls, 0); }
      forall i: nat | NamesFirst(rest, i) && !HoldsUp(calls[0], false) ensures NamesFirst(calls, i + 1) {
        forall j | 0 <= j < i + 1 ensures !HoldsUp(calls[j], false) { if j > 0 { assert calls[j] == rest[j - 1]; } }
      }
      forall i: nat | NamesFirst(calls, i) && i > 0 ensures NamesFirst(rest, i - 1) && !HoldsUp(calls[0], false) {}
    }
  }

  /** The calls of a turn run concurrently when there are several and each resolved
      beforehand. */
  lemma ParallelExactly(calls: seq<PlannedCall>)
    ensures InParallel(calls) <==> |calls| >= 2 && forall i :: 0 <= i < |calls| ==> calls[i].probed
  {}

  /** Which turns report a proposal. */
  predicate Reports(turn: Turn) {
    && turn.ctxAfter == Alive && turn.failure == None
    && if InParallel(CallsOf(turn.stream)) then exists i :: 0 <= i < |CallsOf(turn.stream)| && NamesOne(CallsOf(turn.stream)[i])
       else exists i: nat :: i < |CallsOf(turn.stream)| && NamesFirst(CallsOf(turn.stream), i)
  }

  lemma ReportsExactly(turn: Turn)
    ensures TurnReports(turn) <==> Reports(turn)
  {
    hide CallsOf, NamesOne, NamesFirst;
    var calls := CallsOf(turn.stream);
    forall i | 0 <= i < |calls| ensures Names(calls[i]) <==> NamesOne(calls[i]) { NamesIsOne(calls[i]); }
    hide Names, NamesInOrder, InParallel;
    ReportsInOrder(calls);
    forall i: nat | NamesFirst(calls, i) ensures i < |calls| { NamesWithin(calls, i); }
  }

  lemma NamesWithin(calls: seq<PlannedCall>, i: nat)
    requires NamesFirst(calls, i)
    ensures i < |calls|
  {}

  /** A run leaves a proposal pending exactly when its last turn reports one. */
  lemma PendingExactly(r: Report, env: Environment, initial: seq<Message>)
    requires Dictated(r, env, initial)
    ensures r.output.pending.0 != "" <==> |r.requests| > 0 && Reports(env.script(|r.requests| - 1))
  {
    hide *;
    DictatedParts(r, env, initial);
    PendingOf(r, env);
    if Calls(env) > 0 {
      ReportsExactly(env.script(Calls(env) - 1));
      if TurnReports(env.script(Calls(env) - 1)) {
        ProposesSome(r.output.pending, CallsOf(env.script(Calls(env) - 1).stream));
      }
    }
  }

  lemma ProposesSome(pending: (string, string), calls: seq<PlannedCall>)
    requires Proposes(pending, calls)
    ensures pending.0 != ""
  {}

  // ----- Tool calls on the wire

  /** Every tool call announced to the client is ended before the run is, unless
      its tool panicked in a worker. */
  lemma {:induction false} NothingLeftOpen(script: nat -> Turn, n: nat)
    requires forall k, i :: 0 <= k < n && 0 <= i < |CallsOf(script(k).stream)| ==>
      CallsOf(script(k).stream)[i].resolution != Resolution.Ready(Execution.Panicked)
    ensures OpenAfter(script, n) == multiset{}
  {
    hide CallsOf, Unended;
    if n > 0 {
      NothingLeftOpen(script, n - 1);
      NoneUnended(CallsOf(script(n - 1).stream));
    }
  }

  lemma {:induction false} NoneUnended(calls: seq<PlannedCall>)
    requires forall i :: 0 <= i < |calls| ==> calls[i].resolution != Resolution.Ready(Execution.Panicked)
    ensures Unended(calls) == multiset{}
  {
    if calls != [] { NoneUnended(calls[..|calls| - 1]); }
  }

  lemma OpenOfWritten(r: Report, env: Environment)
    requires Written(env.input, env.script, Calls(env), OPENED, r.output, r.contents, AgentRun.Closing(env))
    requires Calls(env) == 0 || ResultOf(env.script(Calls(env) - 1)) != Over(Crashed)
    ensures r.output.open == OpenAfter(env.script, Calls(env))
  {
    hide Calls, ResultOf, OpenAfter, TurnContent, TurnReports, Proposes, AgentRun.Closing, Text.Flatten, CitedBy, RanBefore;
  }

  lemma {:induction false} FatalPanics(calls: seq<PlannedCall>, parallel: bool)
    requires Walk(calls, parallel).Fatal?
    ensures exists i :: 0 <= i < |calls| && calls[i].resolution == Resolution.Ready(Execution.Panicked)
  {
    if !Panics(calls[0]) {
      FatalPanics(calls[1..], parallel);
      var i :| 0 <= i < |calls| - 1 && calls[1..][i].resolution == Resolution.Ready(Execution.Panicked);
      assert calls[i + 1].resolution == Resolution.Ready(Execution.Panicked);
    }
  }

  lemma CrashPanics(turn: Turn)
    requires ResultOf(turn) == Over(Crashed)
    ensures exists i :: 0 <= i < |CallsOf(turn.stream)| && CallsOf(turn.stream)[i].resolution == Resolution.Ready(Execution.Panicked)
  {
    hide CallsOf, Walk, InParallel;
    FatalPanics(CallsOf(turn.stream), InParallel(CallsOf(turn.stream)));
  }

  /** A run in which no tool panics leaves no tool call open. */
  lemma AllEnded(r: Report, env: Environment, initial: seq<Message>)
    requires Dictated(r, env, initial)
    requires forall k, i :: 0 <= k < |r.requests| && 0 <= i < |CallsOf(env.script(k).stream)| ==>
      CallsOf(env.script(k).stream)[i].resolution != Resolution.Ready(Execution.Panicked)
    ensures r.output.open == multiset{}
  {
    hide *;
    DictatedParts(r, env, initial);
    if Calls(env) > 0 && ResultOf(env.script(Calls(env) - 1)) == Over(Crashed) {
      CrashPanics(env.script(Calls(env) - 1));
      assert false;
    }
    OpenOfWritten(r, env);
    NothingLeftOpen(env.script, Calls(env));
  }

  // ----- The answer

  /** The stand-in for a blank answer, the note after one that was cut, the note of
      a run out of steps, and the list of sources, in their own words. */
  lemma NotesExactly(input: RunInput, turn: Turn, text: string, citations: seq<string>, more: string)
    ensures Notes(input, turn, text, citations)
         == (if Text.Blank(text) then [Said(input, "Tôi chưa có câu trả lời cho yêu cầu này.")] else [])
            + (if turn.cutOff then [Said(input, 
                   "\n\n[Câu trả lời bị cắt vì đạt giới hạn độ dài. Hãy yêu cầu tiếp tục hoặc hỏi cụ thể hơn.]")] else [])
            + (if citations != [] && !turn.noEvidence && !NamesSource(turn.cleaned, citations)
               then [Said(input, CitationBlock(citations))] else [])
    ensures CitationBlock([]) == "\n\nNguồn tham khảo:"
    ensures CitationBlock(citations + [more]) == CitationBlock(citations) + "\n- " + more
    ensures ClosingOf(input, StepLimit)
         == [Said(input, "Dừng lại sau số bước xử lý tối đa. Vui lòng thử lại với yêu cầu cụ thể hơn.")]
    ensures ClosingOf(input, Answered) == []
  {
    hide Text.Blank;
    SourceNamed(turn.cleaned, citations);
    ListedMore(citations, more);
    hide Listed, HasValidCitation, NamesSource;
    assert "\n\nNguồn tham khảo:" + "" == "\n\nNguồn tham khảo:";
    var head := "\n\nNguồn tham khảo:";
    assert head + (Listed(citations) + "\n- " + more) == head + Listed(citations) + "\n- " + more;
  }

  function Said(input: RunInput, text: string): WireBody { WTextContent("msg-" + input.runId, text) }

  /** A citation that is not blank stands somewhere in the answer. */
  predicate NamesSource(answer: string, citations: seq<string>) {
    exists i, k, n :: 0 <= i < |citations| && !Text.Blank(citations[i]) && 0 <= k <= n <= |answer|
                      && answer[k..n] == citations[i]
  }

  lemma SourceNamed(answer: string, citations: seq<string>)
    ensures HasValidCitation(answer, citations) <==> NamesSource(answer, citations)
  {
    hide Text.Blank;
    forall i, k | 0 <= i < |citations| && !Text.Blank(citations[i]) && 0 <= k <= |answer| && citations[i] <= answer[k..]
      ensures NamesSource(answer, citations)
    {
      assert answer[k..k + |citations[i]|] == citations[i];
    }
    forall i, k, n | 0 <= i < |citations| && !Text.Blank(citations[i]) && 0 <= k <= n <= |answer|
                     && answer[k..n] == citations[i]
      ensures HasValidCitation(answer, citations)
    {
      assert citations[i] <= answer[k..];
      PartNotBlank(answer, k, n);
    }
  }

  lemma PartNotBlank(answer: string, k: nat, n: nat)
    requires k <= n <= |answer| && !Text.Blank(answer[k..n])
    ensures !Text.Blank(answer)
  {
    var j :| 0 <= j < n - k && !Text.IsSpace(answer[k..n][j]);
    assert answer[k + j] == answer[k..n][j];
  }

  lemma ListedMore(citations: seq<string>, more: string)
    ensures Listed(citations + [more]) == Listed(citations) + "\n- " + more && Listed([]) == ""
  {
    assert (citations + [more])[..|citations|] == citations;
  }

  // ----- Citations

  lemma CitedLast(ran: seq<PlannedCall>)
    requires ran != []
    ensures var n := |ran| - 1;
      var before, labels := CitedBy(ran[..n]), FeedbackOf(ran[n]).Labels();
      CitedBy(ran) == before + Citations.Take(Citations.Fresh(before, labels), Citations.Room(|before|))
  {
    hide FeedbackOf, Citations.Fresh, Citations.Take, Citations.Room;
  }

  lemma CitedLabels(c: PlannedCall)
    ensures Cited(c) <==> FeedbackOf(c).Labels() != []
    ensures Cited(c) ==> FeedbackOf(c).Labels() == c.resolution.execution.feedback.Labels()
  {}

  /** The citations held are labels of answers fed back, each once; there are none
      exactly when no answer had any. */
  lemma {:induction false} CitedByExactly(ran: seq<PlannedCall>)
    ensures forall x :: x in CitedBy(ran) ==> exists i :: 0 <= i < |ran| && Cited(ran[i]) && x in ran[i].resolution.execution.feedback.Labels()
    ensures forall i, j :: 0 <= i < j < |CitedBy(ran)| ==> CitedBy(ran)[i] != CitedBy(ran)[j]
    ensures CitedBy(ran) == [] <==> !CitedIn(ran)
  {
    if ran != [] {
      var n := |ran| - 1;
      var before, labels := CitedBy(ran[..n]), FeedbackOf(ran[n]).Labels();
      CitedByExactly(ran[..n]);
      CitedLast(ran);
      CitedLabels(ran[n]);
      Citations.ListStaysUnique(before, labels);
      Citations.AddedExactly(before, labels);
      hide CitedBy, FeedbackOf, Citations.Fresh, Citations.Take, Citations.Room, Citations.Place, Cited;
      assert forall i :: 0 <= i < n ==> ran[..n][i] == ran[i];
    }
  }
}
