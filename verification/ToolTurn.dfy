/** What the tool calls of a turn do, told from the turn alone: which results are
    fed back, what runs and under which auto-approval ceiling (agentStepsLoop in
    handler/agent.go). */
module ToolTurn {
  import opened Common
  import opened AgentTypes

  /** The feedback of the call carries citations. */
  predicate Reads(c: PlannedCall) { FeedbackOf(c).Labels() != [] }

  /** Processing of the turn ends with this call. */
  predicate Stops(c: PlannedCall, parallel: bool) {
    (!parallel && Panics(c)) || c.ctxAfter != Alive || Pends(c)
  }

  /** The calls whose results are fed back to the model. */
  function Consumed(calls: seq<PlannedCall>, parallel: bool): (done: seq<PlannedCall>)
    ensures done <= calls
  {
    if calls == [] then []
    else if !parallel && Panics(calls[0]) then []
    else if Stops(calls[0], parallel) then [calls[0]]
    else [calls[0]] + Consumed(calls[1..], parallel)
  }

  function CeilingAfter(c: PlannedCall, ceiling: string): string { if Reads(c) then "" else ceiling }

  /** The ceiling once these results have been fed back. */
  function CeilingOver(done: seq<PlannedCall>, ceiling: string): string {
    if done == [] then ceiling else CeilingAfter(done[|done| - 1], CeilingOver(done[..|done| - 1], ceiling))
  }

  function RunActs(c: PlannedCall, ceiling: string): seq<Act> {
    if Executes(c) then [Ran(c.call.id, ceiling)] else []
  }

  function CiteActs(c: PlannedCall): seq<Act> { if Reads(c) then [Cited] else [] }

  function AllCites(done: seq<PlannedCall>): seq<Act> {
    if done == [] then [] else AllCites(done[..|done| - 1]) + CiteActs(done[|done| - 1])
  }

  /** One call after the other: each runs under the ceiling its predecessors
      left. */
  function ActsInOrder(calls: seq<PlannedCall>, ceiling: string): seq<Act> {
    if calls == [] then []
    else
      RunActs(calls[0], ceiling) + CiteActs(calls[0])
      + (if Stops(calls[0], false) then [] else ActsInOrder(calls[1..], CeilingAfter(calls[0], ceiling)))
  }

  /** Concurrent calls: every one that executes runs once, under one ceiling. */
  function RunsOf(calls: seq<PlannedCall>, ceiling: string): multiset<Act> {
    if calls == [] then multiset{}
    else RunsOf(calls[..|calls| - 1], ceiling) + multiset(RunActs(calls[|calls| - 1], ceiling))
  }

  ghost predicate Concurrently(acts: seq<Act>, calls: seq<PlannedCall>, ceiling: string, n: nat) {
    n <= |acts| && multiset(acts[..n]) == RunsOf(calls, ceiling) && acts[n..] == AllCites(Consumed(calls, true))
  }

  /** What the tools of a turn did, and under which ceiling. */
  ghost predicate ToolActs(acts: seq<Act>, calls: seq<PlannedCall>, ceiling: string) {
    if InParallel(calls) then exists n: nat :: Concurrently(acts, calls, ceiling, n)
    else acts == ActsInOrder(calls, ceiling)
  }

  ghost predicate TurnActs(acts: seq<Act>, turn: Turn, ceiling: string) {
    if Succeeds(turn) then ToolActs(acts, CallsOf(turn.stream), ceiling) else acts == []
  }

  /** The ceiling in force at a step of the loop, told from the script. */
  function CeilingAt(script: nat -> Turn, step: nat, initial: string): string {
    if step == 0 then initial
    else
      var calls := CallsOf(script(step - 1).stream);
      CeilingOver(Consumed(calls, InParallel(calls)), CeilingAt(script, step - 1, initial))
  }

  /** How many model calls the script leads to. */
  function TurnCount(script: nat -> Turn, step: nat, maxSteps: nat): (n: nat)
    ensures step <= maxSteps ==> n <= maxSteps - step
    decreases maxSteps - step
  {
    if step >= maxSteps then 0
    else 1 + if ResultOf(script(step)).NextTurn? then TurnCount(script, step + 1, maxSteps) else 0
  }

  lemma OneTurn(script: nat -> Turn, step: nat, maxSteps: nat)
    ensures step < maxSteps ==>
      var goesOn := ResultOf(script(step)).NextTurn?;
      && TurnCount(script, step, maxSteps) == 1 + (if goesOn then TurnCount(script, step + 1, maxSteps) else 0)
      && ExpectedTokens(script, step, maxSteps)
         == TurnTokens(script(step)) + (if goesOn then ExpectedTokens(script, step + 1, maxSteps) else 0)
      && ExpectedEnd(script, step, maxSteps)
         == match ResultOf(script(step))
            case Over(end) => end
            case PausedTurn => Waiting
            case NextTurn => ExpectedEnd(script, step + 1, maxSteps)
    ensures step >= maxSteps ==>
      && TurnCount(script, step, maxSteps) == 0 && ExpectedTokens(script, step, maxSteps) == 0
      && ExpectedEnd(script, step, maxSteps) == StepLimit
  {
    hide ResultOf, TurnTokens;
  }

  /** So many turns are made, the run ends so, and has counted so many tokens. */
  predicate Ends(script: nat -> Turn, maxSteps: nat, n: nat, end: End, tokens: int) {
    && TurnCount(script, 0, maxSteps) == n && ExpectedEnd(script, 0, maxSteps) == end
    && ExpectedTokens(script, 0, maxSteps) == tokens
  }

  /** The first turns are made; what is left is what the script says from here. */
  predicate Remains(script: nat -> Turn, step: nat, maxSteps: nat, waits: bool, tokens: int) {
    if waits then Ends(script, maxSteps, step, Waiting, tokens)
    else Ends(script, maxSteps, step + TurnCount(script, step, maxSteps), ExpectedEnd(script, step, maxSteps),
              tokens + ExpectedTokens(script, step, maxSteps))
  }

  lemma RemainsStart(script: nat -> Turn, maxSteps: nat)
    ensures Remains(script, 0, maxSteps, false, 0)
  {
  }

  lemma RemainsNext(script: nat -> Turn, step: nat, maxSteps: nat, tokens: int, result: TurnResult)
    requires step < maxSteps && Remains(script, step, maxSteps, false, tokens) && result == ResultOf(script(step))
    ensures var more := tokens + TurnTokens(script(step));
      if result.Over? then Ends(script, maxSteps, step + 1, result.end, more)
      else Remains(script, step + 1, maxSteps, result.PausedTurn?, more)
  {
    hide ResultOf, TurnTokens;
    OneTurn(script, step, maxSteps);
  }

  lemma RemainsEnd(script: nat -> Turn, step: nat, maxSteps: nat, waits: bool, tokens: int)
    requires (waits || step >= maxSteps) && Remains(script, step, maxSteps, waits, tokens)
    ensures Ends(script, maxSteps, step, if waits then Waiting else StepLimit, tokens)
  {
    OneTurn(script, step, maxSteps);
  }

  lemma ConsumedAppend(done: seq<PlannedCall>, c: PlannedCall)
    ensures AllCites(done + [c]) == AllCites(done) + CiteActs(c)
    ensures forall ceiling :: CeilingOver(done + [c], ceiling) == CeilingAfter(c, CeilingOver(done, ceiling))
  {
    assert (done + [c])[..|done|] == done;
  }

  lemma PanicReadsNothing(c: PlannedCall)
    requires Panics(c)
    ensures CiteActs(c) == []
  {
  }

  // ----- Concurrent starts

  /** What the workers that have taken their call ran. */
  function Begun(calls: seq<PlannedCall>, waiting: seq<bool>, ceiling: string): multiset<Act>
    requires |waiting| == |calls|
    decreases |calls|
  {
    if calls == [] then multiset{}
    else
      var n := |calls| - 1;
      Begun(calls[..n], waiting[..n], ceiling)
      + if waiting[n] then multiset{} else multiset(RunActs(calls[n], ceiling))
  }

  lemma {:induction false} NoneBegun(calls: seq<PlannedCall>, waiting: seq<bool>, ceiling: string)
    requires |waiting| == |calls| && forall w :: 0 <= w < |calls| ==> waiting[w]
    ensures Begun(calls, waiting, ceiling) == multiset{}
    decreases |calls|
  {
    if calls != [] { NoneBegun(calls[..|calls| - 1], waiting[..|calls| - 1], ceiling); }
  }

  lemma {:induction false} AllBegun(calls: seq<PlannedCall>, waiting: seq<bool>, ceiling: string)
    requires |waiting| == |calls| && forall w :: 0 <= w < |calls| ==> !waiting[w]
    ensures Begun(calls, waiting, ceiling) == RunsOf(calls, ceiling)
    decreases |calls|
  {
    if calls != [] { AllBegun(calls[..|calls| - 1], waiting[..|calls| - 1], ceiling); }
  }

  lemma {:induction false} BeginOne(calls: seq<PlannedCall>, waiting: seq<bool>, ceiling: string, w: nat)
    requires |waiting| == |calls| && w < |calls| && waiting[w]
    ensures Begun(calls, waiting[w := false], ceiling)
         == Begun(calls, waiting, ceiling) + multiset(RunActs(calls[w], ceiling))
    decreases |calls|
  {
    var n := |calls| - 1;
    if w < n {
      BeginOne(calls[..n], waiting[..n], ceiling, w);
      assert waiting[w := false][..n] == waiting[..n][w := false];
    } else {
      assert waiting[w := false][..n] == waiting[..n];
    }
  }

  lemma {:induction false} CeilingOverRead(done: seq<PlannedCall>, ceiling: string)
    ensures CeilingOver(done, ceiling) == if exists i :: 0 <= i < |done| && Reads(done[i]) then "" else ceiling
    decreases |done|
  {
    if done != [] {
      var n := |done| - 1;
      CeilingOverRead(done[..n], ceiling);
      assert forall i :: 0 <= i < n ==> done[..n][i] == done[i];
    }
  }

  /** From the script alone: once a result fed back in turn j carried a citation,
      no tool of any later turn runs under a ceiling. */
  lemma {:induction false} CeilingNeverRestored(script: nat -> Turn, j: nat, k: nat, initial: string, i: nat)
    requires j < k
    requires var calls := CallsOf(script(j).stream);
      i < |Consumed(calls, InParallel(calls))| && Reads(Consumed(calls, InParallel(calls))[i])
    ensures CeilingAt(script, k, initial) == ""
    decreases k
  {
    hide Consumed, CeilingOver, CallsOf, InParallel, Reads;
    var calls := CallsOf(script(k - 1).stream);
    CeilingOverRead(Consumed(calls, InParallel(calls)), CeilingAt(script, k - 1, initial));
    if j < k - 1 { CeilingNeverRestored(script, j, k - 1, initial, i); }
  }

  // ----- Feeding results back, one after the other

  /** The first i calls have been looked at; `done` were fed back, `acts` is what
      was done meanwhile, and the run may be waiting for an approval. */
  ghost predicate Feeding(calls: seq<PlannedCall>, parallel: bool, i: nat, waits: bool, done: seq<PlannedCall>,
                          acts: seq<Act>, before: string, now: string)
  {
    && |done| <= i <= |calls| && done == calls[..|done|] && (!waits ==> |done| == i)
    && Walk(calls, parallel) == (if waits then Paused else Walk(calls[i..], parallel))
    && Consumed(calls, parallel) == done + (if waits then [] else Consumed(calls[i..], parallel))
    && now == CeilingOver(done, before)
    && Did(calls, parallel, i, waits, done, acts, before, now)
  }

  /** What was done is what the calls looked at do. */
  ghost predicate Did(calls: seq<PlannedCall>, parallel: bool, i: nat, waits: bool, done: seq<PlannedCall>,
                      acts: seq<Act>, before: string, now: string)
    requires i <= |calls|
  {
    if parallel then acts == AllCites(done)
    else ActsInOrder(calls, before) == acts + (if waits then [] else ActsInOrder(calls[i..], now))
  }

  /** The calls of a turn have been processed with a verdict. */
  ghost predicate Fed(calls: seq<PlannedCall>, parallel: bool, verdict: TurnEnd, done: seq<PlannedCall>,
                      acts: seq<Act>, before: string, now: string)
  {
    && verdict == Walk(calls, parallel) && done == Consumed(calls, parallel)
    && now == CeilingOver(done, before)
    && acts == (if parallel then AllCites(done) else ActsInOrder(calls, before))
    && (verdict.Proceed? ==> done == calls)
  }

  lemma FeedStart(calls: seq<PlannedCall>, parallel: bool, ceiling: string)
    ensures Feeding(calls, parallel, 0, false, [], [], ceiling, ceiling)
  {
    hide Walk, Consumed, ActsInOrder;
    assert calls[0..] == calls;
  }

  lemma FeedSkip(calls: seq<PlannedCall>, parallel: bool, i: nat, done: seq<PlannedCall>, acts: seq<Act>, before: string,
                 now: string)
    requires i < |calls| && Feeding(calls, parallel, i, true, done, acts, before, now)
    ensures Feeding(calls, parallel, i + 1, true, done, acts, before, now)
  {
    hide Walk, Consumed, ActsInOrder, CeilingOver, AllCites;
  }

  lemma FeedPanic(calls: seq<PlannedCall>, i: nat, done: seq<PlannedCall>, acts: seq<Act>, before: string, now: string)
    requires i < |calls| && Feeding(calls, false, i, false, done, acts, before, now) && Panics(calls[i])
    ensures Fed(calls, false, Fatal, done, acts + RunActs(calls[i], now), before, now)
  {
    PanicReadsNothing(calls[i]);
    hide CeilingOver, AllCites, RunActs, CiteActs;
    assert acts + (RunActs(calls[i], now) + [] + []) == acts + RunActs(calls[i], now);
    assert done + [] == done;
  }

  lemma Heads(rest: seq<PlannedCall>, parallel: bool, now: string)
    requires rest != [] && (parallel || !Panics(rest[0]))
    ensures var c, tail := rest[0], rest[1..];
      var ends := c.ctxAfter != Alive || Pends(c);
      && Consumed(rest, parallel) == [c] + (if ends then [] else Consumed(tail, parallel))
      && (!parallel ==>
            ActsInOrder(rest, now)
            == RunActs(c, now) + CiteActs(c) + (if ends then [] else ActsInOrder(tail, CeilingAfter(c, now))))
      && Walk(rest, parallel)
         == (if c.ctxAfter != Alive then Broken(c.ctxAfter, Pends(c)) else if Pends(c) then Paused
             else Walk(tail, parallel))
  {
    hide Pends, RunActs, CiteActs, CeilingAfter, Panics;
  }

  lemma DidMore(calls: seq<PlannedCall>, parallel: bool, i: nat, done: seq<PlannedCall>, acts: seq<Act>, before: string,
                now: string)
    requires i < |calls| && Did(calls, parallel, i, false, done, acts, before, now)
    requires parallel || !Panics(calls[i])
    ensures var c := calls[i];
      var more := acts + (if parallel then [] else RunActs(c, now)) + CiteActs(c);
      Did(calls, parallel, i + 1, c.ctxAfter != Alive || Pends(c), done + [c], more, before, CeilingAfter(c, now))
  {
    hide ActsInOrder, RunActs, CiteActs, Pends, Panics, CeilingAfter, AllCites, Consumed, Walk, CeilingOver;
    var c := calls[i];
    var own, cites := RunActs(c, now), CiteActs(c);
    ConsumedAppend(done, c);
    Around(calls, i);
    Heads(calls[i..], parallel, now);
    var rest := if c.ctxAfter != Alive || Pends(c) then [] else ActsInOrder(calls[i + 1..], CeilingAfter(c, now));
    Grouped(acts, own, cites);
    Grouped(acts, own + cites, rest);
  }

  /** Taking one more call: where processing leads and what is fed back. */
  lemma TakeOne(calls: seq<PlannedCall>, parallel: bool, i: nat, done: seq<PlannedCall>)
    requires i < |calls| && done == calls[..i] && (parallel || !Panics(calls[i]))
    requires Walk(calls, parallel) == Walk(calls[i..], parallel)
    requires Consumed(calls, parallel) == done + Consumed(calls[i..], parallel)
    ensures var c := calls[i];
      var ends := c.ctxAfter != Alive || Pends(c);
      && done + [c] == calls[..i + 1]
      && Consumed(calls, parallel) == done + [c] + (if ends then [] else Consumed(calls[i + 1..], parallel))
      && Walk(calls, parallel)
         == (if c.ctxAfter != Alive then Broken(c.ctxAfter, Pends(c)) else if Pends(c) then Paused
             else Walk(calls[i + 1..], parallel))
  {
    hide Walk, Consumed, Pends, Panics;
    var c := calls[i];
    Around(calls, i);
    Heads(calls[i..], parallel, "");
    Grouped(done, [c], if c.ctxAfter != Alive || Pends(c) then [] else Consumed(calls[i + 1..], parallel));
  }

  lemma Around<T>(s: seq<T>, i: nat)
    requires i < |s|
    ensures s[i..] != [] && s[i..][0] == s[i] && s[i..][1..] == s[i + 1..] && s[..i] + [s[i]] == s[..i + 1]
  {}

  lemma Grouped<T>(a: seq<T>, b: seq<T>, c: seq<T>)
    ensures a + (b + c) == a + b + c && a + [] == a
  {}

  lemma FeedTake(calls: seq<PlannedCall>, parallel: bool, i: nat, done: seq<PlannedCall>, acts: seq<Act>, before: string,
                 now: string)
    requires i < |calls| && Feeding(calls, parallel, i, false, done, acts, before, now)
    requires parallel || !Panics(calls[i])
    ensures var c := calls[i];
      var more := acts + (if parallel then [] else RunActs(c, now)) + CiteActs(c);
      if c.ctxAfter != Alive then
        Fed(calls, parallel, Broken(c.ctxAfter, Pends(c)), done + [c], more, before, CeilingAfter(c, now))
      else Feeding(calls, parallel, i + 1, Pends(c), done + [c], more, before, CeilingAfter(c, now))
  {
    hide Walk, Consumed, ActsInOrder, CeilingOver, AllCites, RunActs, CiteActs, Pends, Panics, CeilingAfter, Did;
    var c := calls[i];
    var more := acts + (if parallel then [] else RunActs(c, now)) + CiteActs(c);
    DidMore(calls, parallel, i, done, acts, before, now);
    ConsumedAppend(done, c);
    TakeOne(calls, parallel, i, done);
    if c.ctxAfter != Alive { DidAll(calls, parallel, i + 1, done + [c], more, before, CeilingAfter(c, now)); }
  }

  lemma DidAll(calls: seq<PlannedCall>, parallel: bool, i: nat, done: seq<PlannedCall>, acts: seq<Act>, before: string,
               now: string)
    requires i <= |calls| && Did(calls, parallel, i, true, done, acts, before, now)
    ensures acts == if parallel then AllCites(done) else ActsInOrder(calls, before)
  {
  }

  lemma FeedEnd(calls: seq<PlannedCall>, parallel: bool, waits: bool, done: seq<PlannedCall>, acts: seq<Act>,
                before: string, now: string)
    requires Feeding(calls, parallel, |calls|, waits, done, acts, before, now)
    ensures Fed(calls, parallel, if waits then Paused else Proceed, done, acts, before, now)
  {
    assert calls[|calls|..] == [];
  }
}
