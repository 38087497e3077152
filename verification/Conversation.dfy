/** The conversation of a run, told from the script of the environment: what the
    model is shown at every step of the loop (agentStepsLoop in handler/agent.go). */
module Conversation {
  import opened Common
  import opened AgentTypes
  import opened ToolTurn

  const WRITE_NOW := "Tool budget reached. Write the final answer now using only verified evidence already collected. "
    + "If data or parameters are missing, state precisely what is missing. "
    + "Do not claim the analysis is complete unless the evidence supports it."

  /** The configured step limit, or ten when it is out of range. */
  function MaxSteps(configured: int): (n: nat)
    ensures 1 <= n <= 20
    ensures 1 <= configured <= 20 ==> n == configured
  {
    if configured <= 0 || configured > 20 then 10 else configured
  }

  // ----- Repeated calls

  function KeyOf(c: PlannedCall): (string, string) { (c.call.name, c.call.arguments) }

  function Times(ran: seq<PlannedCall>, key: (string, string)): nat {
    if ran == [] then 0
    else Times(ran[..|ran| - 1], key) + (if KeyOf(ran[|ran| - 1]) == key then 1 else 0)
  }

  /** What the model is told about the last call of the list: its own feedback,
      wrapped in a warning when the identical call ran before. */
  function ToldLast(ran: seq<PlannedCall>): Feedback
    requires ran != []
  {
    var c := ran[|ran| - 1];
    var times := Times(ran, KeyOf(c));
    if times > 1 && !Pends(c) then Repeated(c.call.name, times, FeedbackOf(c)) else FeedbackOf(c)
  }

  ghost predicate Remembers(executed: map<(string, string), nat>, ran: seq<PlannedCall>) {
    && (forall key :: key in executed ==> executed[key] == Times(ran, key))
    && (forall key :: key !in executed ==> Times(ran, key) == 0)
  }

  predicate ToldAll(ran: seq<PlannedCall>, told: seq<Feedback>) {
    |told| == |ran| && forall i :: 0 <= i < |ran| ==> told[i] == ToldLast(ran[..i + 1])
  }

  lemma RememberOne(executed: map<(string, string), nat>, ran: seq<PlannedCall>, told: seq<Feedback>, c: PlannedCall)
    requires Remembers(executed, ran) && ToldAll(ran, told)
    ensures var n := (if KeyOf(c) in executed then executed[KeyOf(c)] else 0) + 1;
      && Times(ran + [c], KeyOf(c)) == n
      && Remembers(executed[KeyOf(c) := n], ran + [c])
      && ToldAll(ran + [c], told + [ToldLast(ran + [c])])
  {
    var all := ran + [c];
    assert all[..|ran|] == ran;
    forall key ensures Times(all, key) == Times(ran, key) + (if KeyOf(c) == key then 1 else 0) {}
    forall i | 0 <= i < |all| ensures (told + [ToldLast(all)])[i] == ToldLast(all[..i + 1]) {
      if i < |ran| { assert all[..i + 1] == ran[..i + 1]; } else { assert all[..i + 1] == all; }
    }
  }

  lemma {:induction false} ToldLabels(ran: seq<PlannedCall>)
    requires ran != []
    ensures ToldLast(ran).Labels() == FeedbackOf(ran[|ran| - 1]).Labels()
  {
  }

  // ----- The replies of a turn

  function CallIds(calls: seq<PlannedCall>): (ids: seq<ToolCall>)
    ensures |ids| == |calls| && forall i :: 0 <= i < |calls| ==> ids[i] == calls[i].call
  {
    seq(|calls|, i requires 0 <= i < |calls| => calls[i].call)
  }

  /** The replies to the calls whose results were fed back, after `ran`. */
  function Replies(ran: seq<PlannedCall>, done: seq<PlannedCall>): (ms: seq<Message>)
    ensures |ms| == |done|
    decreases |done|
  {
    if done == [] then []
    else Replies(ran, done[..|done| - 1]) + [ToolReply(done[|done| - 1].call.id, ToldLast(ran + done))]
  }

  function SkipReply(c: PlannedCall): Message { ToolReply(c.call.id, Feedback(SKIPPED, [])) }

  /** The replies to the calls skipped while the run waits for approval. */
  function Skips(calls: seq<PlannedCall>): (ms: seq<Message>)
    ensures |ms| == |calls|
  {
    seq(|calls|, i requires 0 <= i < |calls| => SkipReply(calls[i]))
  }

  lemma NoSkips(calls: seq<PlannedCall>, i: nat)
    requires i <= |calls|
    ensures Skips(calls[i..i]) == []
  {
  }

  lemma NoReplies(ran: seq<PlannedCall>)
    ensures Replies(ran, []) == []
  {
  }

  lemma SkipsAppend(calls: seq<PlannedCall>, from: nat, i: nat)
    requires from <= i < |calls|
    ensures Skips(calls[from..i + 1]) == Skips(calls[from..i]) + [SkipReply(calls[i])]
  {
  }

  lemma {:induction false} RepliesAnswer(ran: seq<PlannedCall>, done: seq<PlannedCall>)
    ensures Answers(Replies(ran, done), CallIds(done))
    decreases |done|
  {
    if done != [] {
      var n := |done| - 1;
      RepliesAnswer(ran, done[..n]);
      assert CallIds(done) == CallIds(done[..n]) + [done[n].call];
    }
  }

  /** Replies and skips together answer every call of a turn that pauses. */
  lemma PauseAnswers(ran: seq<PlannedCall>, calls: seq<PlannedCall>, n: nat)
    requires n <= |calls|
    ensures Answers(Replies(ran, calls[..n]) + Skips(calls[n..]), CallIds(calls))
  {
    RepliesAnswer(ran, calls[..n]);
    hide Replies;
  }

  lemma RepliesAppend(ran: seq<PlannedCall>, done: seq<PlannedCall>, c: PlannedCall)
    ensures Replies(ran, done + [c]) == Replies(ran, done) + [ToolReply(c.call.id, ToldLast(ran + done + [c]))]
  {
    assert (done + [c])[..|done|] == done;
    assert ran + (done + [c]) == ran + done + [c];
  }

  // ----- What the model is shown

  /** One model call: the conversation sent and whether tools were offered. */
  datatype Request = Request(messages: seq<Message>, offered: bool)

  /** The calls fed back before a step, all turns before it having gone on. */
  function RanBefore(script: nat -> Turn, step: nat): seq<PlannedCall> {
    if step == 0 then [] else RanBefore(script, step - 1) + CallsOf(script(step - 1).stream)
  }

  /** The conversation at the start of a step. */
  function Shown(script: nat -> Turn, step: nat, initial: seq<Message>): seq<Message> {
    if step == 0 then initial
    else
      var stream := script(step - 1).stream;
      Shown(script, step - 1, initial)
      + [Assistant(TextOf(stream), ThoughtOf(stream), CallIds(CallsOf(stream)))]
      + Replies(RanBefore(script, step - 1), CallsOf(stream))
  }

  predicate Reserved(step: nat, maxSteps: nat) { maxSteps > 1 && step == maxSteps - 1 }

  /** What the model call of a step is sent: on the reserved last step of a longer
      budget a note to answer now, and no tools. */
  function RequestAt(script: nat -> Turn, step: nat, maxSteps: nat, initial: seq<Message>): Request {
    if Reserved(step, maxSteps) then Request(Shown(script, step, initial) + [System(WRITE_NOW)], false)
    else Request(Shown(script, step, initial), true)
  }

  function Requests(script: nat -> Turn, n: nat, maxSteps: nat, initial: seq<Message>): (rs: seq<Request>)
    ensures |rs| == n && forall k :: 0 <= k < n ==> rs[k] == RequestAt(script, k, maxSteps, initial)
  {
    seq(n, k requires 0 <= k < n => RequestAt(script, k, maxSteps, initial))
  }

  lemma PairedSystem(ms: seq<Message>, note: string)
    requires WellPaired(ms)
    ensures WellPaired(ms + [System(note)])
  {
    assert [System(note)][1..] == [];
    WellPairedAppend(ms, [System(note)]);
  }

  lemma PairedTurn(ms: seq<Message>, assistant: Message, after: seq<Message>)
    requires WellPaired(ms) && assistant.Assistant?
    requires exists replies :: after == ms + [assistant] + replies && Answers(replies, assistant.toolCalls)
    ensures WellPaired(after)
  {
    hide WellPaired, Answers;
    var replies :| after == ms + [assistant] + replies && Answers(replies, assistant.toolCalls);
    TurnPaired(assistant, replies);
    WellPairedAppend(ms, [assistant] + replies);
    assert ms + ([assistant] + replies) == after;
  }

  /** Every conversation the model is shown is well paired. */
  lemma {:induction false} ShownPaired(script: nat -> Turn, step: nat, initial: seq<Message>)
    requires WellPaired(initial)
    ensures WellPaired(Shown(script, step, initial))
    decreases step
  {
    if step > 0 {
      var stream := script(step - 1).stream;
      ShownPaired(script, step - 1, initial);
      RepliesAnswer(RanBefore(script, step - 1), CallsOf(stream));
      PairedTurn(Shown(script, step - 1, initial),
                 Assistant(TextOf(stream), ThoughtOf(stream), CallIds(CallsOf(stream))),
                 Shown(script, step, initial));
    }
  }

  /** From the script alone: whatever the model, the tools and the context do, at
      most twenty model calls are made, each on a well-paired conversation. */
  lemma RequestsPaired(script: nat -> Turn, configured: int, initial: seq<Message>)
    requires WellPaired(initial)
    ensures var maxSteps := MaxSteps(configured);
      var rs := Requests(script, TurnCount(script, 0, maxSteps), maxSteps, initial);
      |rs| <= 20 && forall k :: 0 <= k < |rs| ==> WellPaired(rs[k].messages)
  {
    var maxSteps := MaxSteps(configured);
    var n := TurnCount(script, 0, maxSteps);
    hide WellPaired, TurnCount, Shown;
    forall k | 0 <= k < n ensures WellPaired(RequestAt(script, k, maxSteps, initial).messages) {
      ShownPaired(script, k, initial);
      if Reserved(k, maxSteps) { PairedSystem(Shown(script, k, initial), WRITE_NOW); }
    }
  }
}
