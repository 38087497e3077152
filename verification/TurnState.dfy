/** What the agent loop holds between its steps, and how the results of a turn
    change it (agentStepsLoop in handler/agent.go). */
module TurnState {
  import opened Common
  import opened AgentTypes
  import opened ToolTurn
  import opened Conversation
  import opened Text

  /** The conversation, what tools did so far, the calls fed back so far, and the
      auto-approval ceiling in force. */
  datatype Held = Held(messages: seq<Message>, acts: seq<Act>, ran: seq<PlannedCall>, risk: string)

  /** Joining three lists, and reading off what came after the first. */
  lemma Joined<T>(a: seq<T>, b: seq<T>, c: seq<T>)
    ensures a + b + c == a + (b + c) && (a + b)[|a|..] == b && (a + b + c)[|a|..] == b + c
    ensures a + b + [] == a + b && b + [] == b
  {
  }

  // ----- One result

  /** A call was processed: outside a worker it ran under the ceiling in force;
      its reply is what the model reads next, and that decides the ceiling. */
  predicate Processed(a: Held, b: Held, c: PlannedCall, parallel: bool, panicked: bool) {
    && b.acts == a.acts + (if parallel then [] else RunActs(c, a.risk)) + (if panicked then [] else CiteActs(c))
    && if panicked then b.ran == a.ran && b.messages == a.messages && b.risk == a.risk
       else
         && b.ran == a.ran + [c]
         && b.messages == a.messages + [ToolReply(c.call.id, ToldLast(b.ran))]
         && b.risk == CeilingAfter(c, a.risk)
  }

  lemma ProcessedAs(a: Held, b: Held, c: PlannedCall, parallel: bool)
    requires b.ran == a.ran + [c] && b.messages == a.messages + [ToolReply(c.call.id, ToldLast(b.ran))]
    requires var labels := FeedbackOf(c).Labels();
      && b.acts == a.acts + (if parallel then [] else RunActs(c, a.risk)) + (if labels != [] then [Cited] else [])
      && b.risk == if labels != [] then "" else a.risk
    ensures Processed(a, b, c, parallel, false)
  {
    hide RunActs, ToldLast, FeedbackOf;
  }

  lemma ProcessedPanic(a: Held, b: Held, c: PlannedCall)
    requires b == a.(acts := a.acts + RunActs(c, a.risk))
    ensures Processed(a, b, c, false, true)
  {
    hide RunActs, ToldLast, FeedbackOf;
    assert b.acts + [] == b.acts;
  }

  predicate SkippedOne(a: Held, b: Held, c: PlannedCall) {
    b == a.(messages := a.messages + [SkipReply(c)])
  }

  // ----- The results of a turn

  ghost predicate Consuming(a: Held, b: Held, calls: seq<PlannedCall>, parallel: bool, i: nat, waits: bool) {
    && i <= |calls| && a.ran <= b.ran && a.acts <= b.acts
    && var done := b.ran[|a.ran|..];
       && Feeding(calls, parallel, i, waits, done, b.acts[|a.acts|..], a.risk, b.risk)
       && b.messages == a.messages + Replies(a.ran, done) + Skips(calls[|done|..i])
  }

  /** The results of a turn were fed back in the order of its calls; the calls
      after one that pauses are only answered. */
  ghost predicate Consumes(a: Held, b: Held, calls: seq<PlannedCall>, parallel: bool, verdict: TurnEnd) {
    && a.ran <= b.ran && a.acts <= b.acts
    && var done := b.ran[|a.ran|..];
       && Fed(calls, parallel, verdict, done, b.acts[|a.acts|..], a.risk, b.risk)
       && b.messages == a.messages + Replies(a.ran, done) + (if verdict.Paused? then Skips(calls[|done|..]) else [])
  }

  lemma ConsumingStart(a: Held, calls: seq<PlannedCall>, parallel: bool)
    ensures Consuming(a, a, calls, parallel, 0, false)
  {
    FeedStart(calls, parallel, a.risk);
    NoReplies(a.ran);
    NoSkips(calls, 0);
    hide Feeding, Replies, Skips;
    assert a.ran[|a.ran|..] == [] && a.acts[|a.acts|..] == [];
    assert a.messages + [] + [] == a.messages;
  }

  lemma ConsumingSkip(a: Held, b: Held, c: Held, calls: seq<PlannedCall>, parallel: bool, i: nat)
    requires i < |calls| && Consuming(a, b, calls, parallel, i, true) && SkippedOne(b, c, calls[i])
    ensures Consuming(a, c, calls, parallel, i + 1, true)
  {
    var done := b.ran[|a.ran|..];
    FeedSkip(calls, parallel, i, done, b.acts[|a.acts|..], a.risk, b.risk);
    SkipsAppend(calls, |done|, i);
    Joined(a.messages + Replies(a.ran, done), Skips(calls[|done|..i]), [SkipReply(calls[i])]);
    hide Replies, Skips, SkipReply;
  }

  lemma ConsumingTake(a: Held, b: Held, c: Held, calls: seq<PlannedCall>, parallel: bool, i: nat)
    requires i < |calls| && Consuming(a, b, calls, parallel, i, false)
    requires (parallel || !Panics(calls[i])) && Processed(b, c, calls[i], parallel, false)
    ensures if calls[i].ctxAfter != Alive then
              Consumes(a, c, calls, parallel, Broken(calls[i].ctxAfter, Pends(calls[i])))
            else Consuming(a, c, calls, parallel, i + 1, Pends(calls[i]))
  {
    hide Feeding, Fed, Replies, Skips, RunActs, CiteActs, CeilingAfter, Pends, Panics, ToldLast;
    var call := calls[i];
    var done, acts := b.ran[|a.ran|..], b.acts[|a.acts|..];
    FeedTake(calls, parallel, i, done, acts, a.risk, b.risk);
    var own := if parallel then [] else RunActs(call, b.risk);
    assert b.ran == a.ran + done && b.acts == a.acts + acts;
    Joined(a.ran, done, [call]);
    Joined(a.acts, acts, own);
    Joined(a.acts, acts + own, CiteActs(call));
    assert c.ran[|a.ran|..] == done + [call] && c.acts[|a.acts|..] == acts + own + CiteActs(call);
    RepliesAppend(a.ran, done, call);
    assert |done| == i by { Aligned(calls, parallel, i, false, done, acts, a.risk, b.risk); }
    NoSkips(calls, i);
    NoSkips(calls, i + 1);
    Joined(a.messages, Replies(a.ran, done), [ToolReply(call.call.id, ToldLast(c.ran))]);
  }

  lemma Aligned(calls: seq<PlannedCall>, parallel: bool, i: nat, waits: bool, done: seq<PlannedCall>, acts: seq<Act>,
                before: string, now: string)
    requires Feeding(calls, parallel, i, waits, done, acts, before, now)
    ensures |done| <= i <= |calls| && (!waits ==> |done| == i)
  {
  }

  lemma ConsumingPanic(a: Held, b: Held, c: Held, calls: seq<PlannedCall>, i: nat)
    requires i < |calls| && Consuming(a, b, calls, false, i, false) && Panics(calls[i])
    requires Processed(b, c, calls[i], false, true)
    ensures Consumes(a, c, calls, false, Fatal)
  {
    hide Feeding, Fed, Replies, Skips, RunActs, Panics;
    var done, acts := b.ran[|a.ran|..], b.acts[|a.acts|..];
    FeedPanic(calls, i, done, acts, a.risk, b.risk);
    assert |done| == i by { Aligned(calls, false, i, false, done, acts, a.risk, b.risk); }
    NoSkips(calls, i);
    assert b.acts == a.acts + acts;
    Joined(a.acts, acts, RunActs(calls[i], b.risk));
    Joined(a.acts, acts + RunActs(calls[i], b.risk), []);
  }

  lemma ConsumingEnd(a: Held, b: Held, calls: seq<PlannedCall>, parallel: bool, waits: bool)
    requires Consuming(a, b, calls, parallel, |calls|, waits)
    ensures Consumes(a, b, calls, parallel, if waits then Paused else Proceed)
  {
    hide Feeding, Fed, Replies, Skips;
    var done, acts := b.ran[|a.ran|..], b.acts[|a.acts|..];
    FeedEnd(calls, parallel, waits, done, acts, a.risk, b.risk);
    Aligned(calls, parallel, |calls|, waits, done, acts, a.risk, b.risk);
    NoSkips(calls, |calls|);
    assert calls[|done|..|calls|] == calls[|done|..];
  }

  // ----- A turn

  /** The tools of a turn ran and their results were fed back: whenever the run
      goes on or waits, every call is answered, in order. */
  ghost predicate ToolsRan(a: Held, b: Held, calls: seq<PlannedCall>, verdict: TurnEnd) {
    var done := Consumed(calls, InParallel(calls));
    && verdict == Walk(calls, InParallel(calls))
    && b.ran == a.ran + done && b.risk == CeilingOver(done, a.risk) && (verdict.Proceed? ==> done == calls)
    && b.messages == a.messages + Replies(a.ran, done) + (if verdict.Paused? then Skips(calls[|done|..]) else [])
    && (verdict.Proceed? || verdict.Paused? ==>
          exists replies :: b.messages == a.messages + replies && Answers(replies, CallIds(calls)))
    && a.acts <= b.acts && ToolActs(b.acts[|a.acts|..], calls, a.risk)
  }

  /** Concurrent calls run before any result is fed back; the others one by one. */
  lemma ToolsRanOf(a: Held, begun: Held, b: Held, calls: seq<PlannedCall>, verdict: TurnEnd)
    requires begun == a.(acts := begun.acts) && a.acts <= begun.acts
    requires InParallel(calls) ==> multiset(begun.acts[|a.acts|..]) == RunsOf(calls, a.risk)
    requires !InParallel(calls) ==> begun.acts == a.acts
    requires Consumes(begun, b, calls, InParallel(calls), verdict)
    ensures ToolsRan(a, b, calls, verdict)
  {
    hide Walk, Replies, Skips, RunsOf, AllCites, ActsInOrder, CeilingOver, Answers, ToolActs, Consumed;
    var done := b.ran[|a.ran|..];
    assert b.ran == a.ran + done;
    ToolActsOf(a.acts, begun.acts, b.acts, calls, a.risk);
    RepliesAnswer(a.ran, done);
    if verdict.Proceed? {
      assert b.messages == a.messages + Replies(a.ran, calls);
    }
    if verdict.Paused? {
      assert done == calls[..|done|];
      PauseAnswers(a.ran, calls, |done|);
      Joined(a.messages, Replies(a.ran, done), Skips(calls[|done|..]));
    }
  }

  lemma ToolActsOf(begun: seq<Act>, started: seq<Act>, all: seq<Act>, calls: seq<PlannedCall>, ceiling: string)
    requires begun <= started <= all
    requires if InParallel(calls) then
               multiset(started[|begun|..]) == RunsOf(calls, ceiling)
               && all[|started|..] == AllCites(Consumed(calls, true))
             else started == begun && all[|started|..] == ActsInOrder(calls, ceiling)
    ensures begun <= all && ToolActs(all[|begun|..], calls, ceiling)
  {
    hide RunsOf, AllCites, Consumed, ActsInOrder;
    if InParallel(calls) {
      var n := |started| - |begun|;
      assert all[|begun|..][..n] == started[|begun|..];
      assert all[|begun|..][n..] == all[|started|..];
      assert Concurrently(all[|begun|..], calls, ceiling, n);
    }
  }

  /** A model turn of which `sent` was the conversation. */
  ghost predicate Turned(a: Held, b: Held, sent: seq<Message>, turn: Turn, result: TurnResult) {
    var calls := CallsOf(turn.stream);
    && a.acts <= b.acts && TurnActs(b.acts[|a.acts|..], turn, a.risk)
    && (result.NextTurn? ==>
          && b.ran == a.ran + calls
          && b.risk == CeilingOver(Consumed(calls, InParallel(calls)), a.risk)
          && b.messages == sent + [Assistant(TextOf(turn.stream), ThoughtOf(turn.stream), CallIds(calls))]
                           + Replies(a.ran, calls))
    && (result.PausedTurn? ==> WellPaired(b.messages))
  }

  lemma TurnedQuiet(a: Held, b: Held, sent: seq<Message>, turn: Turn, end: End)
    requires b.acts == a.acts && (Succeeds(turn) ==> CallsOf(turn.stream) == [])
    ensures Turned(a, b, sent, turn, Over(end))
  {
    hide CallsOf;
    assert b.acts[|a.acts|..] == [];
    assert ActsInOrder([], a.risk) == [];
  }

  lemma TurnedTools(a: Held, asked: Held, b: Held, turn: Turn, verdict: TurnEnd, result: TurnResult)
    requires Succeeds(turn) && WellPaired(a.messages)
    requires var stream := turn.stream;
      asked == a.(messages := a.messages + [Assistant(TextOf(stream), ThoughtOf(stream), CallIds(CallsOf(stream)))])
    requires ToolsRan(asked, b, CallsOf(turn.stream), verdict)
    requires (result.NextTurn? <==> verdict.Proceed?) && (result.PausedTurn? <==> verdict.Paused?)
    ensures Turned(a, b, a.messages, turn, result)
  {
    hide CallsOf, TextOf, ThoughtOf, WellPaired, Replies, ToolActs, CeilingOver, Consumed, Walk, Skips, Answers;
    var stream := turn.stream;
    var assistant := Assistant(TextOf(stream), ThoughtOf(stream), CallIds(CallsOf(stream)));
    Joined(a.messages + [assistant], Replies(a.ran, CallsOf(stream)), []);
    if verdict.Paused? {
      PairedTurn(a.messages, assistant, b.messages);
    }
  }

  // ----- The steps of a run

  /** The turns so far did what the script says, each under the ceiling the script
      dictates, and the run stands where the script leaves it. */
  ghost predicate Reached(script: nat -> Turn, step: nat, a: Held, b: Held, turns: seq<seq<Act>>) {
    && |turns| == step && b.acts == Flatten(turns)
    && (forall k :: 0 <= k < step ==> TurnActs(turns[k], script(k), CeilingAt(script, k, a.risk)))
  }

  ghost predicate Stands(script: nat -> Turn, step: nat, maxSteps: nat, a: Held, b: Held) {
    && b.ran == RanBefore(script, step) && b.risk == CeilingAt(script, step, a.risk)
    && (step < maxSteps ==> b.messages == Shown(script, step, a.messages))
  }

  lemma ReachedStart(script: nat -> Turn, maxSteps: nat, a: Held)
    requires a.acts == [] && a.ran == []
    ensures Reached(script, 0, a, a, []) && Stands(script, 0, maxSteps, a, a)
    ensures Requests(script, 0, maxSteps, a.messages) == []
  {
    hide RequestAt;
    FlattenNone<Act>();
  }

  lemma StandsNext(script: nat -> Turn, step: nat, maxSteps: nat, a: Held, b: Held, c: Held)
    requires step < maxSteps && Stands(script, step, maxSteps, a, b)
    requires Turned(b, c, RequestAt(script, step, maxSteps, a.messages).messages, script(step), NextTurn)
    ensures Stands(script, step + 1, maxSteps, a, c)
  {
    hide Replies, CeilingOver, CallsOf, TurnActs, Consumed, TextOf, ThoughtOf, WellPaired;
  }

  lemma RequestsNext(script: nat -> Turn, n: nat, maxSteps: nat, initial: seq<Message>)
    ensures Requests(script, n + 1, maxSteps, initial)
         == Requests(script, n, maxSteps, initial) + [RequestAt(script, n, maxSteps, initial)]
  {
    hide RequestAt;
  }

  lemma ReachedNext(script: nat -> Turn, step: nat, maxSteps: nat, a: Held, b: Held, c: Held, turns: seq<seq<Act>>,
                    result: TurnResult)
    requires step < maxSteps && Reached(script, step, a, b, turns) && Stands(script, step, maxSteps, a, b)
    requires Turned(b, c, RequestAt(script, step, maxSteps, a.messages).messages, script(step), result)
    ensures b.acts <= c.acts && Reached(script, step + 1, a, c, turns + [c.acts[|b.acts|..]])
    ensures result.NextTurn? ==> Stands(script, step + 1, maxSteps, a, c)
  {
    hide Replies, CeilingOver, CallsOf, TurnActs, Consumed, TextOf, ThoughtOf, WellPaired, Flatten, CeilingAt, RanBefore,
      Shown, RequestAt, CallIds;
    if result.NextTurn? { StandsNext(script, step, maxSteps, a, b, c); }
    FlattenAppend(turns, c.acts[|b.acts|..]);
    assert c.acts == b.acts + c.acts[|b.acts|..];
  }

  /** Where the run stands the conversation is well paired. */
  lemma StandsPaired(script: nat -> Turn, step: nat, maxSteps: nat, a: Held, b: Held)
    requires step < maxSteps && WellPaired(a.messages) && Stands(script, step, maxSteps, a, b)
    ensures WellPaired(b.messages) && b.messages == Shown(script, step, a.messages) && b.ran == RanBefore(script, step)
  {
    hide Shown, WellPaired;
    ShownPaired(script, step, a.messages);
  }

  lemma VerdictOf(a: Held, b: Held, calls: seq<PlannedCall>, verdict: TurnEnd)
    requires ToolsRan(a, b, calls, verdict)
    ensures verdict == Walk(calls, InParallel(calls))
  {
  }

  /** A note added before the model is asked changes only what it is sent. */
  lemma TurnedFrom(a: Held, asked: Held, b: Held, turn: Turn, result: TurnResult)
    requires asked == a.(messages := asked.messages) && Turned(asked, b, asked.messages, turn, result)
    ensures Turned(a, b, asked.messages, turn, result)
  {
    hide CallsOf, TurnActs, WellPaired, CeilingOver, Consumed;
  }
}
