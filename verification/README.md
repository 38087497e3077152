# Verified models of the Arda platform's core algorithms

This project models the parts of the Arda repository whose correctness rests on
state, ordering or arithmetic, and proves what they promise for every input,
every run or every reachable state. Code that updates fields, slices or maps in
place is modelled by classes, arrays and loops with contracts; code made of
expressions is modelled by functions; what the source promises is then proved
about the functions the contracts mention.

`dafny verify dfyconfig.toml` checks everything.

## Contents

- **Agent run and its event stream**: `Sse` (the stream writer), `AgentTypes`
  (the vocabulary), `ToolTurn` (what the tools of a turn do, and under which
  ceiling), `Conversation` (what the model is sent), `TurnState` and `TurnWire`
  (what a turn leaves behind and writes), `Interleaving`, `AgentStream`,
  `Citations`, `Agent` (the loop), `Messages`, `AgentRun` (whole runs), `RunFacts`
  (what a run does, read off the script in plain terms). A run is
  verified for every script of environment choices: what the model streams, how
  each tool call resolves and ends, when the request context is cancelled or
  expires, and how parallel workers are scheduled. The wire is read by an
  automaton that knows nothing of the translator; the loop and the writer are
  proved to agree with it.
- **Markdown chunker**: `Text`, `Overlap`, `Chunker`, `Sections`.
- **Document numbering**: `NumberPattern`, `NumberPieces`, `Decimals`, `Docno`,
  `Issuing`.
- **Money**: `Money`.
- **Response allowlists**: `PruneSchema`.
- **OpenAPI generator**: `OpenApi` (what a type's schema is), `OpenApiTables`
  (the name tables and what a finished document promises), `OpenApiClaims` (what
  operations use names for, told from operations and types), `OpenApiSteps`,
  `OpenApiGenerator` (the walk), `OpenApiCollisions` (documents that go wrong).
- **Calendar**: `CivilDates`, `ArdaTime`, `BusinessDate`.
- **Rate limiter**: `RateLimit`. **Rank fusion**: `RankFusion`. **Override
  cache**: `Governance`. **Event publisher**: `Publisher`. **History and text
  cuts**: `Utf8`, `History`. `Common` and `Sequences` are shared.

## Where the code does less than its documentation says

Each follows from the contract named with it; where a promise fails, the
contract gives the condition under which it holds.

- A tool that panics in a sequential turn ends the run without a terminal event
  (the quota is still settled). Every other run ends with exactly one.
  (`AgentRun.RunAgent`)
- A tool that panics in a worker leaves its tool call open on the wire: it was
  announced and is never ended. (`TurnWire.ToolsOpen`, `RunFacts.AllEnded`)
- A run cancelled in the very step in which a call paused it is stored
  CANCELLED and its quota stays reserved, while the client reads an interrupt.
  In a parallel turn the same happens to the client when the cancellation is
  met at an earlier call; then the quota is settled. The interrupt follows the
  proposal, not the stored status. (`AgentRun.InterruptExactly`,
  `AgentRun.RunAgent`)
- Act mode ends with the first citation for the rest of one loop
  (`ToolTurn.CeilingNeverRestored`); a resumed run is a new loop that has read
  none. (`AgentRun.ResumeRun`)
- The citation list can reach a sixth label. (`Citations.BoundExactly`)
- The override cache is marked loaded by a local write that read nothing. Until
  the first refresh the other rows are missing from it, so a stored kill switch
  is ignored (`Governance.KillSwitchMissed`), and a replica that keeps writing
  postpones reading for ever (`Governance.WritesPostponeReading`). The
  documented staleness bound holds after a run if and only if no write made here
  since the last read came at a later time than that read
  (`Governance.StaleBound`).
- The OpenAPI generator files all components in one table and checks only some
  of the collisions. All references stay defined; each leads to the component it
  was written for if and only if no name is used for two things by the
  operations, the types they lead to, and the standard and hand-written
  components (`OpenApiGenerator.Generator.Generate`). Documents that are
  generated without an error and go wrong: two slices answered under one name,
  where the second envelope or page replaces the first
  (`OpenApiCollisions.SlicesCollide`); a request type answered later, whose
  lenient schema becomes strict (`OpenApiCollisions.RequestCollides`); a type
  called `Problem`, which replaces the standard component
  (`OpenApiCollisions.StandardCollides`).
- A response schema that refers back to itself is compiled to a tree that is cut
  at the second visit. Pruning with it equals pruning with references resolved
  on demand if and only if no property with a target is cut, and no array items
  are cut whose target declares properties along its own items
  (`PruneSchema.AgreeExactly`). Below a cut in array items everything passes,
  undeclared keys included (`PruneSchema.ItemsCyclePartsThem`); a property that
  is cut is dropped although declared (`PruneSchema.PropertyCyclePartsThem`).
  A response schema that compiles to nothing is written as null, and null prunes
  nothing.
- History truncation counts a message that is then not replayed
  (`History.BoundedHistory`).
- Text dates beyond the year 9999 can be produced but not read back, so a chain
  of shifts can fail (`ArdaTime.ClampedUndone`).
- `AddWorkingDays` refuses a start on January 1 of the year 1 that is not
  midnight, which `NextWorkingDay` accepts (`BusinessDate.NthExactly`).
- Events still queued when the worker stops are never delivered nor buffered
  (`Publisher.StoppedForGood`).

## Model

| member | source | states |
|---|---|---|
| `Sse.SseWriter.Event` | apps/ai-service/internal/handler/sse.go:71-106 | accepts any event in any state: numbers stay 1, 2, 3, …, the wire only grows, its bodies, the open messages and tool calls and the pending proposal are those of the log of events received, and every new event carries the thread and run id handed over or in force |
| `Sse.SseWriter.Translate` | apps/ai-service/internal/handler/sse.go:144-280 | the wire events of one internal event, and the open messages and pending proposal left behind |
| `Sse.SseWriter.Write` | apps/ai-service/internal/handler/sse.go:71-106 | one numbered wire event with the thread and run ids in force, latching on a terminal one |
| `Sse.SseWriter.WriteAll` | apps/ai-service/internal/handler/sse.go:76-105 | a translated batch reaches the wire whole and in order |
| `Sse.FramesScan` | apps/ai-service/internal/handler/sse.go:144-280 | one translated event moves a grammar automaton of the client, which also keeps the tool calls started and not ended, to the state the caller meant exactly when the event fits, and is rejected otherwise |
| `Sse.FramesEssence` | apps/ai-service/internal/handler/sse.go:144-280 | erasing the framing of a translated event gives back its content |
| `Sse.RunGrammar` | apps/ai-service/internal/handler/sse.go:144-280 | for every sequence of events: the client can parse the whole stream, tool framing included, if and only if the caller kept the discipline of messages and tool calls |
| `Sse.RunContent` | apps/ai-service/internal/handler/sse.go:144-280 | for every sequence of events: erasing the framing gives the content of the accepted events, nothing lost, invented or reordered |
| `Sse.RunTerminal` | apps/ai-service/internal/handler/sse.go:71-106 | the latch is closed exactly when the last wire event is terminal, and no earlier one is |
| `Sse.RunDone` | apps/ai-service/internal/handler/sse.go:236-276 | only a run-finished event closes the latch |
| `Sse.RunEnds` | apps/ai-service/internal/handler/sse.go:236-276 | the terminal event is an interrupt for the last proposal reported, else the error, else success; later events change nothing |
| `Sse.LastProposalIff` | apps/ai-service/internal/handler/sse.go:205-264 | a proposal is pending exactly when some accepted tool result carried one |
| `Sse.LastProposalExactly` | apps/ai-service/internal/handler/sse.go:205-264 | the pending proposal is that of the last tool result that named one, with the call it belongs to; without one there is none |
| `Sse.LiveUntilDone` | apps/ai-service/internal/handler/sse.go:71-79 | every event is accepted until the latch closes |
| `AgentTypes.CallProtocol` | apps/ai-service/internal/handler/agent.go:1192-1360 | a call sends exactly one result, last, unless it panics; reports a proposal exactly when it created one; a tool that ran is bracketed by start and end |
| `AgentTypes.DowngradedAppend` | apps/ai-service/internal/handler/agent.go:646-654 | the act-mode rule is kept by a tool run under the ceiling in force and by reading a citation |
| `AgentTypes.NothingAutoApproved` | apps/ai-service/internal/handler/agent.go:646-654 | after any citation was read no later call of the run is auto-approved at any risk |
| `AgentTypes.WellPairedAppend` | apps/ai-service/internal/handler/agent.go:564-660 | paired conversations join to paired conversations |
| `AgentTypes.TurnPaired` | apps/ai-service/internal/handler/agent.go:564-660 | an assistant message and the replies to all its calls are paired |
| `AgentTypes.NoOrphanReply` | apps/ai-service/internal/handler/agent.go:564-660 | in a paired conversation every tool message answers one call of an earlier assistant message, at its place |
| `Interleaving.SomeoneMoves` | apps/ai-service/internal/handler/agent.go:594-616 | the worker pool never deadlocks: while work is left some worker can move |
| `Interleaving.ProgressStep` | apps/ai-service/internal/handler/agent.go:594-616 | any step of any worker keeps the events a merge of the workers’ prefixes and the pool within its slots |
| `Interleaving.ProgressDone` | apps/ai-service/internal/handler/agent.go:594-616 | when all workers are done the events are an interleaving of every worker’s events, each in order |
| `Interleaving.MidwayBusy` | apps/ai-service/internal/handler/agent.go:594-616 | every worker that has sent some of its events and not all holds a slot |
| `AgentStream.InterleavingReports` | apps/ai-service/internal/handler/agent.go:594-616 | under any schedule a proposal is on the wire exactly when one of the calls created one |
| `AgentStream.Finishes` | apps/ai-service/internal/handler/agent.go:669-705 | from any steady point a run-finished event completes the stream: grammatical, no message open, one terminal event, last, between the framing exactly the content of the events sent, and the tool calls left open exactly those of the log |
| `AgentStream.CallBalance` | apps/ai-service/internal/handler/agent.go:1248-1360 | the arguments and the end of a call come while it is open, and it ends as often as it starts unless its tool panics |
| `AgentStream.OpenBalance` | apps/ai-service/internal/handler/sse.go:172-199 | on a grammatical stream a call is open as often as it was started more than ended |
| `AgentStream.InterleavingBalance` | apps/ai-service/internal/handler/agent.go:594-616 | under any schedule only the calls whose tool panicked are open once all workers are done |
| `Citations.AppendUnique` | apps/ai-service/internal/handler/agent.go:1129-1145 | the list grows by the first new labels, up to five in all but always room for one |
| `Citations.FreshIsFresh` | apps/ai-service/internal/handler/agent.go:1129-1145 | the new labels are exactly those not held, each once |
| `Citations.FreshInOrder` | apps/ai-service/internal/handler/agent.go:1129-1145 | new labels come in the order in which they are first named |
| `Citations.AddedExactly` | apps/ai-service/internal/handler/agent.go:1129-1145 | what was held stays in front; every new label is held afterwards unless five, or one past the five held, are reached |
| `Citations.ListStaysUnique` | apps/ai-service/internal/handler/agent.go:1129-1145 | no label is held twice, and the list is empty only while none was ever read |
| `Citations.BoundExactly` | apps/ai-service/internal/handler/agent.go:1129-1145 | five labels are exceeded exactly when five are held and a new one arrives, or more than five were held |
| `Citations.SixthLabel` | apps/ai-service/internal/handler/agent.go:1129-1145 | a concrete sixth label |
| `Conversation.MaxSteps` | apps/ai-service/internal/handler/agent.go:367-370 | the step limit is between 1 and 20 |
| `Conversation.RememberOne` | apps/ai-service/internal/handler/agent.go:635-645 | the table of executed calls counts identical calls, and a repeated call is told so |
| `Conversation.PauseAnswers` | apps/ai-service/internal/handler/agent.go:619-630 | when a call pauses the turn, the replies fed back and the replies to the skipped calls together answer every call, in order |
| `Conversation.ShownPaired` | apps/ai-service/internal/handler/agent.go:382-663 | for every script: whatever turns went before, the conversation at a step is paired when the one the run began with is |
| `Conversation.RequestsPaired` | apps/ai-service/internal/handler/agent.go:382-398 | for every script: at most twenty model calls, each sent a paired conversation |
| `ToolTurn.CeilingOverRead` | apps/ai-service/internal/handler/agent.go:646-654 | after some results were fed back the ceiling is gone exactly when one of them carried a citation |
| `ToolTurn.CeilingNeverRestored` | apps/ai-service/internal/handler/agent.go:646-654 | for every script: once a result fed back carried a citation, no tool of any later turn runs under a ceiling |
| `TurnState.ToolsRanOf` | apps/ai-service/internal/handler/agent.go:572-663 | feeding back the results of a turn, concurrent or not, gives the conversation, the ceiling and the acts that the calls dictate; every call is answered whether the turn goes on or pauses |
| `TurnState.ReachedNext` | apps/ai-service/internal/handler/agent.go:382-663 | a turn made where the script leaves the run leads to where the script leaves it next |
| `TurnWire.ToolsPropose` | apps/ai-service/internal/handler/agent.go:572-663 | under any schedule the tools of a turn report a proposal exactly when the turn says so, and the last one reported is the approval and call id of a call of the turn |
| `TurnWire.NextReportsNothing` | apps/ai-service/internal/handler/agent.go:655-666 | a turn after which the loop goes on has reported no proposal |
| `TurnWire.ProposalIsLast` | apps/ai-service/internal/handler/agent.go:655-673 | a run reports a proposal exactly when its last turn does |
| `TurnWire.AnswerIsSourced` | apps/ai-service/internal/handler/agent.go:518-531 | unless it states that there is no evidence, an answer given after a citation was read names one by the time it is stored |
| `TurnWire.CallCarried` | apps/ai-service/internal/handler/agent.go:1192-1360 | what one call leaves with the client, told from the call: TOOL_CALL_START with its id and name, its arguments, its end, its result; or only a result |
| `TurnWire.ToolsCarried` | apps/ai-service/internal/handler/agent.go:572-663 | what the tools of a turn leave with the client, told from the calls: some interleaving of theirs and the skips, or theirs one after the other |
| `TurnWire.ToolsOpen` | apps/ai-service/internal/handler/agent.go:572-663 | a turn leaves open exactly the tool calls whose tool panicked in a worker |
| `Agent.AgentLoop.StreamChat` | apps/ai-service/internal/handler/agent.go:398-432 | the wire content of a model turn is its text and reasoning in order, and the text, reasoning and calls collected are those of the stream |
| `Agent.AgentLoop.ExecuteModelToolCall` | apps/ai-service/internal/handler/agent.go:1192-1360 | one call sends exactly its protocol events, runs its tool once, under the ceiling in force, exactly when the call executes, and yields its feedback |
| `Agent.AgentLoop.ExecuteInParallel` | apps/ai-service/internal/handler/agent.go:594-616 | at no time are more than three workers midway; every call that executes runs exactly once, under the ceiling at the start of the turn; the events are an interleaving of the calls’ events and every outcome lands at its call, for every schedule |
| `Agent.AgentLoop.DecideParallel` | apps/ai-service/internal/handler/agent.go:575-583 | calls run concurrently exactly when there are several and each resolves beforehand; what the second resolve of a call leads to is left open |
| `Agent.AgentLoop.Process` | apps/ai-service/internal/handler/agent.go:632-657 | one result: a reply for the model, the repeat warning, citations read, and the ceiling they clear for whatever runs next |
| `Agent.AgentLoop.Tell` | apps/ai-service/internal/handler/agent.go:635-645 | what the model is told is the call’s own feedback, wrapped when the identical call ran before |
| `Agent.AgentLoop.Cite` | apps/ai-service/internal/handler/agent.go:646-654 | any label found ends act mode for the rest of the run |
| `Agent.AgentLoop.Skip` | apps/ai-service/internal/handler/agent.go:619-630 | a call after the pausing one is answered without running |
| `Agent.AgentLoop.ConsumeCalls` | apps/ai-service/internal/handler/agent.go:618-663 | the results are fed back up to where the calls dictate, the rest only answered; conversation, acts with their ceilings, and events are those of the calls |
| `Agent.AgentLoop.TerminateOnContext` | apps/ai-service/internal/handler/agent.go:707-752 | a cancelled run is stored CANCELLED and an expired one FAILED, and the stream is completed either way |
| `Agent.AgentLoop.Answer` | apps/ai-service/internal/handler/agent.go:502-533 | an answer: what is written after it (stand-in, cut note, sources) is exactly what the turn calls for, and the stream is completed |
| `Agent.AgentLoop.GiveUp` | apps/ai-service/internal/handler/agent.go:676-683 | after the last step the message is reopened for the closing note and the stream is completed with the step-limit error |
| `Agent.AgentLoop.RunTools` | apps/ai-service/internal/handler/agent.go:572-663 | verdict, replies, acts with their ceilings, and events of a turn from its calls alone; every call is answered, in order, whether the turn goes on or pauses |
| `Agent.AgentLoop.Step` | apps/ai-service/internal/handler/agent.go:382-666 | one step: the model is sent the conversation, on the reserved last step with the closing note and without tools; what runs, what is fed back and what the client reads are those of the turn |
| `Agent.AgentLoop.Steps` | apps/ai-service/internal/handler/agent.go:382-705 | the loop makes the model calls the script dictates, sends each what the script dictates, runs every tool under the ceiling the script dictates, writes the content of each turn in order, and ends as the script dictates |
| `Agent.AgentLoop.Run` | apps/ai-service/internal/handler/agent.go:317-699 | in addition the quota is settled exactly once with the tokens used, or not at all while an approval is pending |
| `AgentRun.RunAgent` | apps/ai-service/internal/handler/agent.go:50-168 | a whole run for every environment: outcome, every request, the acts of every turn under the ceiling told from the script, and the content of every turn are those the environment dictates; one complete stream with exactly that content (unless a tool panics outside a worker); stored status and quota |
| `AgentRun.ResumeRun` | apps/ai-service/internal/handler/resume.go:186-213 | the same for a run resumed after an approval, starting from the conversation in which the approved call is answered |
| `AgentRun.InterruptExactly` | apps/ai-service/internal/handler/agent.go:669-673 | the stream ends in an interrupt if and only if an executed call reported a proposal, and the approval and call id it names are those of a call of the last turn |
| `AgentRun.RequestsSound` | apps/ai-service/internal/handler/agent.go:382-398 | at most twenty model calls, as many as the environment dictates, each on a paired conversation |
| `RunFacts.FedBack` | apps/ai-service/internal/handler/agent.go:635-645 | for every call of every turn that goes on, read off the script: the tool message at its place in the next request is what the tool answered, or the refusal in its own words, or a request to wait, with a repeat warning around it exactly when the identical call ran before |
| `RunFacts.NextRequest` | apps/ai-service/internal/handler/agent.go:382-663 | each request is the one before it, the model’s answer with its calls, and one reply to each in order; a reserved last one adds the note |
| `RunFacts.OfferedExactly` | apps/ai-service/internal/handler/agent.go:382-390 | tools are offered except in the last request a budget of two or more allows; the first request is the conversation the run was given |
| `RunFacts.PausedReplies` | apps/ai-service/internal/handler/agent.go:619-645 | while a run waits, the calls up to the one that waits are answered as ever and those after it with the skip notice |
| `RunFacts.ToldLastExactly` | apps/ai-service/internal/handler/agent.go:1192-1454 | the words for every way a call resolves: completed, refused, pending, panicked, unrecorded |
| `RunFacts.CeilingExactly` | apps/ai-service/internal/handler/agent.go:646-654 | at every model call the ceiling is the initial one until a tool of an earlier turn completed with citations, and none from then on |
| `RunFacts.ActsStep` | apps/ai-service/internal/handler/agent.go:632-663 | calls one after the other: a tool that runs does so under the ceiling in force, an answer with citations takes it away for the next, and the first call that holds the turn up is the last |
| `RunFacts.RunsExactly` | apps/ai-service/internal/handler/agent.go:594-616 | concurrent calls: as many runs of a call id as calls with it that run, all under one ceiling |
| `RunFacts.ConsumedExactly` | apps/ai-service/internal/handler/agent.go:618-663 | the results fed back are those up to the first call that holds the turn up, without it when it panicked outside a worker |
| `RunFacts.CitesExactly` | apps/ai-service/internal/handler/agent.go:646-648 | feeding back notes one reading for every answer with citations |
| `RunFacts.AutoApproveExactly` | apps/ai-service/internal/handler/agent.go:649-654 | the three pairs of ceiling and risk under which nobody is asked |
| `RunFacts.ParallelExactly` | apps/ai-service/internal/handler/agent.go:575-583 | calls run concurrently exactly when there are at least two and each resolved beforehand |
| `RunFacts.TurnExactly` | apps/ai-service/internal/handler/agent.go:432-663 | where a turn leads: the model call’s failure, an answer, or on unless a call panics outside a worker, finds the request gone, or waits; the first such call decides |
| `RunFacts.CountExactly` | apps/ai-service/internal/handler/agent.go:382-673 | every turn but the last goes on, and the last ends the run, waits, or was the last allowed |
| `RunFacts.EndExactly` | apps/ai-service/internal/handler/agent.go:317-699 | the number of model calls and the outcome of a run from its last turn |
| `RunFacts.EndsExactly` | apps/ai-service/internal/handler/agent.go:669-752 | the error code, the stored status and the quota of every end |
| `RunFacts.TokensExactly` | apps/ai-service/internal/handler/agent.go:491-499 | the tokens of a run are those of its model calls that succeeded |
| `RunFacts.InterruptNames` | apps/ai-service/internal/handler/agent.go:669-673 | a run that leaves a proposal ends with an interrupt naming the approval of a call of its last turn, and that call |
| `RunFacts.PendingExactly` | apps/ai-service/internal/handler/agent.go:655-673 | a proposal is left exactly when the last turn reports one, told from its calls |
| `RunFacts.ReportsInOrder` | apps/ai-service/internal/handler/agent.go:618-663 | calls one after the other report a proposal exactly when one names it and no call before it holds the turn up |
| `RunFacts.AllEnded` | apps/ai-service/internal/handler/agent.go:572-705 | a run in which no tool panics leaves no tool call open on the wire |
| `RunFacts.NotesExactly` | apps/ai-service/internal/handler/agent.go:502-533 | the stand-in, the cut note, the sources and the closing note in their own words, and when each is written |
| `RunFacts.StreamConcat` | apps/ai-service/internal/handler/agent.go:398-432 | text, thoughts and calls of a turn are those of its deltas in order |
| `RunFacts.CitedByExactly` | apps/ai-service/internal/handler/agent.go:646-648 | citations held are labels of completed answers, each once, and there are none exactly when no answer had any |
| `Messages.BuildModelMessages` | apps/ai-service/internal/handler/agent.go:772-823 | the conversation of a fresh run: prompts, omission note, what the byte budget admits of the history, activity note, question, in this order; always paired |
| `Messages.BuildResumeMessages` | apps/ai-service/internal/handler/resume.go:216-262 | the conversation of a resumed run: prompts, the eligible turns whole, and the approved call with its result; always paired |
| `Messages.PromptsExactly` | apps/ai-service/internal/handler/agent.go:772-793 | which prompts there are and in which order; a resumed run has no safety prompt |
| `Messages.SaidExactly` | apps/ai-service/internal/handler/agent.go:829-855 | replayed turns keep order, role and bytes |
| `Messages.WholeExactly` | apps/ai-service/internal/handler/resume.go:216-262 | a resumed run replays the turns that are not empty whole |
| `Messages.OmissionExactly` | apps/ai-service/internal/handler/agent.go:857-860 | the omission note gives the number of turns left out, and there is one exactly when some are |
| `Messages.ActivityExactly` | apps/ai-service/internal/handler/agent.go:808-820 | the activity note lists its items one a line |
| `Messages.AdmittedExactly` | apps/ai-service/internal/handler/agent.go:35-38 | 24576 bytes in all and 4096 a turn; the history breaks off where the next older turn as replayed would not fit |
| `Text.FieldsSplit` | apps/ai-service/internal/knowledge/chunker.go:99-101 | white space separates the words before it from those after it |
| `Text.FieldsOfSplit` | apps/ai-service/internal/knowledge/chunker.go:109-116 | splitting on a blank separator keeps the words in order |
| `Text.SplitCuts` | apps/ai-service/internal/knowledge/chunker.go:64-109 | a split joined again is the text, every cut is the leftmost, and no part holds the separator |
| `Text.OnlySplit` | apps/ai-service/internal/knowledge/chunker.go:64-109 | there is no other such split |
| `Text.ReplaceIsJoin` | apps/ai-service/internal/knowledge/chunker.go:63-64 | replacing is cutting at the old text and joining with the new |
| `Text.TrimExactly` | apps/ai-service/internal/knowledge/chunker.go:39-48 | trimming cuts white space at both ends, nothing else, and all of it |
| `Text.JoinReadsBack` | apps/ai-service/internal/knowledge/chunker.go:135-171 | words joined by spaces read back as the same words |
| `Overlap.Windows` | apps/ai-service/internal/knowledge/chunker.go:130-139 | windows overlap as asked, all but the last are full, and undoing the overlap gives the paragraph |
| `Overlap.AddUnit` | apps/ai-service/internal/knowledge/chunker.go:146-169 | adding a unit keeps every part’s overlap, size and fullness and covers exactly one more unit |
| `Overlap.Pack` | apps/ai-service/internal/knowledge/chunker.go:143-174 | parts have 1 to size words, repeat exactly the overlap, add a new word each, waste no room, and undo to the units |
| `Overlap.ClosePart` | apps/ai-service/internal/knowledge/chunker.go:151-167 | closing a part keeps what the parts cover |
| `Overlap.PartsRepeat` | apps/ai-service/internal/knowledge/chunker.go:143-174 | every part after the first begins with the last words of the one before and adds a word; none is too long |
| `Overlap.OnlyPacking` | apps/ai-service/internal/knowledge/chunker.go:143-174 | units can be packed in one way only |
| `Overlap.OnlySlicing` | apps/ai-service/internal/knowledge/chunker.go:125-141 | a paragraph can be sliced in one way only |
| `Chunker.SliceParagraph` | apps/ai-service/internal/knowledge/chunker.go:125-141 | a paragraph becomes one unit, or windows that undo to it |
| `Chunker.CollectParagraphs` | apps/ai-service/internal/knowledge/chunker.go:109-116 | the trimmed paragraphs that are not blank |
| `Chunker.ParagraphWords` | apps/ai-service/internal/knowledge/chunker.go:104-116 | the paragraphs hold the words of the body in order |
| `Chunker.SplitWithOverlap` | apps/ai-service/internal/knowledge/chunker.go:103-175 | both overlap mechanisms at once: the parts undo to the slices and the slices to the paragraphs; every part closes where the next unit would not fit; words are single-spaced; no parts exactly for a body without words |
| `Chunker.ParagraphsExactly` | apps/ai-service/internal/knowledge/chunker.go:109-116 | the paragraphs are the trimmed parts between blank lines that are not blank, in order, and no others |
| `Chunker.OnlyParts` | apps/ai-service/internal/knowledge/chunker.go:103-175 | a body has one split: its parts are determined by its text, the size and the overlap |
| `Chunker.SmallBody` | apps/ai-service/internal/knowledge/chunker.go:103-175 | a body that fits is one part, its words single-spaced |
| `Chunker.Reconstruct` | apps/ai-service/internal/knowledge/chunker.go:103-175 | undoing both overlaps gives back the words of the body in order |
| `Chunker.ReconstructDirectly` | apps/ai-service/internal/knowledge/chunker.go:103-175 | undoing the parts alone does so when nothing was pre-sliced or nothing overlaps |
| `Chunker.TwoSlices` | apps/ai-service/internal/knowledge/chunker.go:125-141 | a sliced paragraph has more words than a part holds |
| `Sections.SplitByHeadings` | apps/ai-service/internal/knowledge/chunker.go:62-97 | sections hold every body line once, in order, under its own heading; only headings and the first title are dropped; no section is empty |
| `Sections.MarksExactly` | apps/ai-service/internal/knowledge/chunker.go:17-21 | what a title and a heading are |
| `Sections.StripExactly` | apps/ai-service/internal/knowledge/chunker.go:20-97 | a heading’s text is the line without its marks and the white space after them |
| `Sections.KeptExactly` | apps/ai-service/internal/knowledge/chunker.go:62-97 | which lines a document keeps, in which order and under which heading |
| `Sections.OnlyChunking` | apps/ai-service/internal/knowledge/chunker.go:29-175 | a document has one chunking |
| `Sections.PlainLines` | apps/ai-service/internal/knowledge/chunker.go:63-64 | the lines of a text without carriage returns are its parts between line feeds |
| `Sections.DocumentChunks` | apps/ai-service/internal/knowledge/chunker.go:29-175 | two headings with a line each make two chunks, whatever the size and overlap |
| `Sections.ChunkMarkdown` | apps/ai-service/internal/knowledge/chunker.go:29-55 | refuses exactly the parameters out of range; otherwise the chunks are the parts of the sections in order under their trimmed headings |
| `Sections.ChunkSizes` | apps/ai-service/internal/knowledge/chunker.go:29-55 | every chunk has 1 to chunk_size words |
| `Sections.DocumentSurvives` | apps/ai-service/internal/knowledge/chunker.go:29-175 | undoing the overlaps of a whole document gives the words of its body lines in order |
| `NumberPattern.ValidIsClean` | libs/go/arda-docno/docno.go:108-116 | a pattern the validator accepts never lets a pass create a new sequence token |
| `NumberPattern.PassesAreSimultaneous` | libs/go/arda-docno/docno.go:178-181 | the four replacement passes equal one simultaneous substitution |
| `NumberPattern.SubstituteInjective` | libs/go/arda-docno/docno.go:178-181 | two substitutions agree exactly when they agree on the tokens that occur |
| `NumberPattern.SubstituteLonger` | libs/go/arda-docno/docno.go:178-181 | a year with more digits renders longer text |
| `NumberPieces.OnlyPieces` | libs/go/arda-docno/docno.go:63 | a pattern has one reading as characters and tokens |
| `NumberPieces.TokensBegin` | libs/go/arda-docno/docno.go:63 | a token begins exactly where the expression matches one |
| `NumberPieces.SubstitutePieces` | libs/go/arda-docno/docno.go:178-181 | the rendered text is the texts of the pieces put together |
| `NumberPieces.PlainLeftover` | libs/go/arda-docno/docno.go:108-116 | deleting the tokens leaves the literal characters |
| `Decimals.DecimalWidth` | libs/go/arda-docno/docno.go:173-177 | a number has at most w digits exactly when it is below 10^w |
| `Decimals.PaddedInjective` | libs/go/arda-docno/docno.go:173-177 | zero padding to a width loses nothing |
| `Decimals.DigitsInOrder` | libs/go/arda-docno/docno.go:173-177 | the digits stand in the order of their characters |
| `Decimals.ValueStep` | libs/go/arda-docno/docno.go:173-177 | what a digit string is worth |
| `Decimals.PaddedReads` | libs/go/arda-docno/docno.go:173-177 | padded text reads back as the number, padded no further than asked |
| `Decimals.ReadsOnce` | libs/go/arda-docno/docno.go:173-177 | no other text of the width does |
| `Docno.ValidateSeries` | libs/go/arda-docno/docno.go:68-116 | accepts exactly the series meeting every listed condition |
| `Docno.PeriodKeyNames` | libs/go/arda-docno/docno.go:141-156 | two dates share a period key exactly when they share the period of the reset |
| `Docno.FormatDisplayNumber` | libs/go/arda-docno/docno.go:158-183 | refuses exactly invalid series, zero or out-of-range dates and sequences, and overflow exactly from 10^width on; otherwise the text reads back: what stands at each token is worth the year, month, day and sequence |
| `Docno.RenderReadsBack` | libs/go/arda-docno/docno.go:158-183 | rendered text reads back piece by piece |
| `Docno.ReadsBackOnce` | libs/go/arda-docno/docno.go:158-183 | only one text reads back as a date and a sequence |
| `Docno.PeriodKeyReads` | libs/go/arda-docno/docno.go:141-156 | the parts of the period key are worth the year, month and day |
| `Docno.ValidExactly` | libs/go/arda-docno/docno.go:68-116 | which series are usable, told from the pieces of the pattern |
| `Docno.InEffectExactly` | libs/go/arda-docno/docno.go:158-172 | a series is in effect from its first day to its last |
| `Docno.BeforeExactly` | libs/go/arda-docno/docno.go:158-172 | dates are ordered as their eight digits |
| `Docno.MonthlyNumber` | libs/go/arda-docno/docno.go:141-183 | INV-{YYYY}{MM}-{SEQ:4} in March 2024: INV-202403-0001 in period 2024-03 |
| `Docno.RenderInjective` | libs/go/arda-docno/docno.go:158-183 | display numbers of one series are equal exactly when period key and sequence are, for every year |
| `Issuing.AddKeepsConsistent` | libs/go/arda-docno/docno.go:205-233 | the rows one call writes keep the tables consistent |
| `Issuing.NoGapNoRepeat` | libs/go/arda-docno/docno.go:1-5 | the committed sequences of a period are exactly those from the start of the series to the counter, each once |
| `Issuing.SeriesNeverCollides` | libs/go/arda-docno/docno.go:219-233 | two rows of one series show the same number only if they are the same row |
| `Issuing.NextIsNew` | libs/go/arda-docno/docno.go:205-218 | the counter’s next value is unused |
| `Issuing.CandidateIsSound` | libs/go/arda-docno/docno.go:205-224 | the row a call would write is what the renderer and the period key say |
| `Issuing.CollisionIsForeign` | libs/go/arda-docno/docno.go:219-233 | a refusal for a taken display number can only be due to another series of the tenant |
| `Issuing.TransactionKeeps` | libs/go/arda-docno/docno.go:188-235 | one transaction, committed or rolled back, keeps the tables consistent |
| `Issuing.EveryRunIsConsistent` | libs/go/arda-docno/docno.go:188-235 | so does every run of calls, accepted and refused |
| `Issuing.Database.Issue` | libs/go/arda-docno/docno.go:188-235 | which calls succeed, the row they add, whose number and period key read back as the date and sequence, and overflow exactly when the width is used up |
| `Issuing.RowReads` | libs/go/arda-docno/docno.go:205-233 | every row of consistent tables reads back as its date and sequence |
| `Issuing.MonthlyRun` | libs/go/arda-docno/docno.go:188-235 | two documents, the first submitted twice: two numbers in order |
| `Issuing.Database.IssueInTransaction` | libs/go/arda-docno/docno.go:188-235 | a failed call changes nothing; a successful one adds exactly its row |
| `Money.ExponentIgnoresSpelling` | libs/go/arda-money/money.go:31-36 | surrounding white space and the case of the letters of a currency code do not matter |
| `Money.ExponentExactly` | libs/go/arda-money/money.go:18-36 | three currencies have no minor unit, seven have thousandths, all others hundredths, however the code is written |
| `Money.MinorUnits` | libs/go/arda-money/money.go:40-44 | what a minor unit is worth |
| `Money.HalfAwayBounds` | libs/go/arda-money/money.go:59-61 | rounding never crosses an integer and moves by at most a half, a half only away from zero |
| `Money.RoundNearest` | libs/go/arda-money/money.go:59-61 | rounding is idempotent and no amount of the currency is nearer |
| `Money.MinorRoundTrip` | libs/go/arda-money/money.go:40-55 | minor units round-trip, conversion loses what rounding loses, and it fails exactly outside int64 |
| `Money.ShareBetween` | libs/go/arda-money/money.go:86-96 | the twice-rounded share is the floor or the ceiling of the exact quotient, so less than `parts` units are left over |
| `Money.ShareNearest` | libs/go/arda-money/money.go:89-96 | the share is a nearest whole number of minor units to the exact quotient, for every number of parts below ten million million |
| `Money.SumOfShares` | libs/go/arda-money/money.go:89-113 | the sum of adjusted shares |
| `Money.SharesBetween` | libs/go/arda-money/money.go:95-113 | adjusted shares stay between floor and ceiling |
| `Money.Distribute` | libs/go/arda-money/money.go:95-113 | the remainder loop adjusts exactly a prefix, ends with zero, for either sign, and its fractional branch is never taken |
| `Money.AllocateEven` | libs/go/arda-money/money.go:82-114 | exactly `parts` shares that sum to the rounded total, each floor or ceiling, the adjusted ones a prefix |
| `PruneSchema.Compiler.Compile` | tools/catalog-gen/main.go:131-161 | the compiler on its shared path set gives the normalized tree and restores the set, on every schema set, cyclic ones included |
| `PruneSchema.Compiler.CompileProperties` | tools/catalog-gen/main.go:147-153 | each property compiles on the same path |
| `PruneSchema.PruneByPath` | apps/ai-service/internal/catalog/httptarget.go:331-357 | a pruned value holds at every path exactly what the original holds, pruned on, when the tree declares the path; nothing at an undeclared key |
| `PruneSchema.PruneIdempotent` | apps/ai-service/internal/catalog/httptarget.go:331-357 | pruning twice is pruning once; scalars and array lengths are kept |
| `PruneSchema.Target` | tools/catalog-gen/main.go:132-143 | a chain of references ends at a schema that is none |
| `PruneSchema.TargetExactly` | tools/catalog-gen/main.go:132-143 | a schema leads to the end of its chain of references if and only if no name is missing or comes round again |
| `PruneSchema.NamesExactly` | tools/catalog-gen/main.go:132-138 | the name in a reference |
| `PruneSchema.UnfoldPrune` | apps/ai-service/internal/catalog/httptarget.go:331-357 | an object keeps exactly its declared keys, each pruned |
| `PruneSchema.NormalizeTarget` | tools/catalog-gen/main.go:132-143 | a tree exists exactly when the references lead somewhere |
| `PruneSchema.TargetMore` | tools/catalog-gen/main.go:131-143 | a longer path of references leads to the same schema or to none |
| `PruneSchema.TransparentKeeps` | apps/ai-service/internal/catalog/httptarget.go:331-357 | a schema that declares no property along its items prunes nothing |
| `PruneSchema.SomethingDropped` | apps/ai-service/internal/catalog/httptarget.go:331-357 | any other schema drops something from some value |
| `PruneSchema.FaithfulAgrees` | tools/catalog-gen/main.go:131-161 | where no property with a target is cut and no items are cut whose target prunes anything, the compiled tree prunes every value as references resolved on demand do |
| `PruneSchema.Differs` | tools/catalog-gen/main.go:131-161 | for every other schema it gives a value they prune differently |
| `PruneSchema.AgreeExactly` | tools/catalog-gen/main.go:131-161 | compiling first prunes every value as resolving on demand if and only if the schema leads nowhere or nothing harmful is cut |
| `PruneSchema.AcyclicFaithful` | tools/catalog-gen/main.go:131-161 | in an acyclic set nothing is cut |
| `PruneSchema.AcyclicAgree` | tools/catalog-gen/main.go:131-161 | so on acyclic sets compiled and on-demand pruning agree on every value |
| `PruneSchema.ItemsCyclePartsThem` | tools/catalog-gen/main.go:131-161 | a cycle through array items: undeclared keys pass below it |
| `PruneSchema.PropertyCyclePartsThem` | tools/catalog-gen/main.go:131-161 | a cycle through a property: a declared key is dropped |
| `PruneSchema.HarmlessCycle` | tools/catalog-gen/main.go:131-161 | a cycle that does no harm: arrays of themselves |
| `OpenApi.GatherIsFile` | libs/go/arda-openapi/openapi.go:667-712 | walking into embedded structs while filling one property table equals flattening first |
| `OpenApi.StructExactly` | libs/go/arda-openapi/openapi.go:646-712 | a struct has a schema exactly when its flattened fields differ in JSON name and each has one; it then has exactly one property per field and requires exactly the non-optional ones |
| `OpenApi.FlatExactly` | libs/go/arda-openapi/openapi.go:667-712 | which fields reach a struct’s schema |
| `OpenApi.FieldShapes` | libs/go/arda-openapi/openapi.go:690-712 | a field marked as text is a string; a slice or map may be null |
| `OpenApi.ScalarShapes` | libs/go/arda-openapi/openapi.go:587-600 | the schemas of scalar types |
| `OpenApi.SpecialShapes` | libs/go/arda-openapi/openapi.go:572-586 | schemas of their own first; times, raw messages, own encodings |
| `OpenApi.HoldingShapes` | libs/go/arda-openapi/openapi.go:601-641 | lists, maps, named and unnamed structs |
| `OpenApi.PointerShapes` | libs/go/arda-openapi/openapi.go:544-570 | a pointer is what it points to, or null |
| `OpenApi.JsonNames` | libs/go/arda-openapi/openapi.go:680-712 | a property is called after its tag, or after its field |
| `OpenApiTables.EveryRefIsDefined` | libs/go/arda-openapi/openapi.go:124-207 | in a finished document every reference names a component |
| `OpenApiTables.SharedNamesLose` | libs/go/arda-openapi/openapi.go:353-357 | every use of a name is served by the very component it was made for (type, request type, item of a page, result of an envelope) if and only if no name is used for two things |
| `OpenApiTables.EveryRefFindsItsOwn` | libs/go/arda-openapi/openapi.go:124-207 | then every reference anywhere leads to the component generated from the very type, item or result it was written for |
| `OpenApiTables.LenientRequiresNothing` | libs/go/arda-openapi/openapi.go:488-531 | a request’s schema has the properties of the struct’s and requires none |
| `OpenApiTables.InputsRequireNothing` | libs/go/arda-openapi/openapi.go:488-531 | so does every request component of a generated document |
| `OpenApiTables.EnvelopeExactly` | libs/go/arda-openapi/openapi.go:404-416 | the envelope of a result, whole |
| `OpenApiTables.PageExactly` | libs/go/arda-openapi/openapi.go:420-451 | a page of items, whole |
| `OpenApiTables.StandardExactly` | libs/go/arda-openapi/openapi.go:211-238 | what the standard components require |
| `OpenApiClaims.InputNames` | libs/go/arda-openapi/openapi.go:494-510 | what a request component is called |
| `OpenApiClaims.ReplyExactly` | libs/go/arda-openapi/openapi.go:340-372 | which reference a reply leaves |
| `OpenApiClaims.ReachedIsClaimed` | libs/go/arda-openapi/openapi.go:619-639 | every named struct a resolved schema leads to, through any number of others, has its name in the tables |
| `OpenApiTables.OwnAndFile` | libs/go/arda-openapi/openapi.go:625-639 | owning a name, walking its type and filing the schema extends the tables by exactly the newly owned names, each with the schema of its type |
| `OpenApiTables.GrewTransitive` | libs/go/arda-openapi/openapi.go:542-712 | walks compose |
| `OpenApiTables.GrewSound` | libs/go/arda-openapi/openapi.go:542-712 | a walk keeps every component vouched for |
| `OpenApiSteps.RequestAdded` | libs/go/arda-openapi/openapi.go:494-531 | a request takes its input name and the names of the structs its type leads to, and no others |
| `OpenApiSteps.TypesAdded` | libs/go/arda-openapi/openapi.go:455-487 | so does the walk of a result, with the name asked for when that is not the type’s own |
| `OpenApiGenerator.Generator.TypeSchema` | libs/go/arda-openapi/openapi.go:544-558 | terminates on every graph whose cycles pass a named struct; gives the schema the type alone determines; a failure names a real clash or defect |
| `OpenApiGenerator.Generator.ValueSchema` | libs/go/arda-openapi/openapi.go:572-641 | the same for a value type, custom schemas first |
| `OpenApiGenerator.Generator.NamedStruct` | libs/go/arda-openapi/openapi.go:619-639 | a named struct is owned before its fields are visited and only referred to |
| `OpenApiGenerator.Generator.CollectFields` | libs/go/arda-openapi/openapi.go:667-712 | the property table after all fields |
| `OpenApiGenerator.Generator.CollectField` | libs/go/arda-openapi/openapi.go:668-711 | one field: skipped, flattened, or filed under its JSON name |
| `OpenApiGenerator.Generator.NamedSchema` | libs/go/arda-openapi/openapi.go:455-487 | a result is filed under the name asked for and takes exactly the names told from the operation; a failure names a taken or ill-formed name or a defect of the types |
| `OpenApiGenerator.Generator.RenamedSchema` | libs/go/arda-openapi/openapi.go:469-485 | under a name not its type’s own a result is filed once; the name is refused when it belongs to another type |
| `OpenApiGenerator.Generator.InputSchema` | libs/go/arda-openapi/openapi.go:494-531 | on success the name holds an object with exactly the properties of the request type’s own schema and an empty required list, nothing else of it; an old one is the same type’s; a name that is a response’s and not a request’s is always refused; any failure is a bad name, a clash with a use so far, or a defect of the types |
| `OpenApiGenerator.Generator.ResultSchema` | libs/go/arda-openapi/openapi.go:420-451 | the envelope’s result and name; a list page is filed over whatever page had the name |
| `OpenApiGenerator.Generator.AddOperation` | libs/go/arda-openapi/openapi.go:240-372 | an operation keeps the tables sound, adds to the names in use exactly those it asks for, and leaves exactly its two references |
| `OpenApiGenerator.Generator.AddGiven` | libs/go/arda-openapi/openapi.go:126-141 | hand-written components are added if and only if every name is PascalCase and not reserved |
| `OpenApiGenerator.Generator.Generate` | libs/go/arda-openapi/openapi.go:124-207 | on success every request component requires nothing, the names in use are exactly those told from operations and types, and every reference leads to what it was written for if and only if no name is used for two things; a failure is due to an operation, a name or a defect told from the operations before it |
| `OpenApiCollisions.SlicesCollide` | libs/go/arda-openapi/openapi.go:353-355 | two slices answered under one name: the second envelope replaces the first, and the second page the first page |
| `OpenApiCollisions.StandardCollides` | libs/go/arda-openapi/openapi.go:619-639 | a type called Problem replaces the standard component |
| `OpenApiCollisions.RequestCollides` | libs/go/arda-openapi/openapi.go:494-531 | a request type answered later: its lenient schema, which requires nothing, is replaced by the strict one, which requires the code |
| `OpenApiCollisions.RequestReplaced` | libs/go/arda-openapi/openapi.go:494-531 | the run itself: lenient after the request, strict after the answer |
| `OpenApiCollisions.Collided` | libs/go/arda-openapi/openapi.go:124-207 | such documents are generated without an error, and some reference misses |
| `CivilDates.MonthStartStep` | libs/go/arda-time/arda.go:151-152 | the closed form of the day count grows by exactly the length of each month, leap years included |
| `CivilDates.DayOrder` | libs/go/arda-time/arda.go:146-158 | dates are ordered by month and day, and the day number identifies the date |
| `CivilDates.DateAtCounts` | libs/go/arda-time/arda.go:151-157 | time.Date with a day outside its month lands on the valid date with that day count |
| `CivilDates.MonthLengths` | libs/go/arda-time/arda.go:146-158 | the lengths of the months, leap years by the rule of four, hundred and four hundred |
| `CivilDates.DayNumberIs` | libs/go/arda-time/arda.go:146-158 | the day number of a date in closed form |
| `CivilDates.WeekdayExactly` | libs/go/arda-businessdate/businessdate.go:80-83 | January 1, 1970 was a Thursday, and the days of the week follow each other |
| `ArdaTime.AddMonthsLands` | libs/go/arda-time/arda.go:146-158 | day 0 of the next month is the last day of this one; the result is in the month `months` away, on the same day or its last |
| `ArdaTime.AddMonthsMonotone` | libs/go/arda-time/arda.go:146-158 | a later date never lands earlier |
| `ArdaTime.AddMonthsMoves` | libs/go/arda-time/arda.go:146-158 | strictly later if and only if months > 0, unchanged if and only if 0 |
| `ArdaTime.AddMonthsInSteps` | libs/go/arda-time/arda.go:146-158 | two steps land no later than one, and together exactly when the middle month is long enough; always for days up to 28 |
| `ArdaTime.AddMonthsUndone` | libs/go/arda-time/arda.go:146-158 | going back undoes going forth exactly when no day was cut off |
| `ArdaTime.FormatReads` | libs/go/arda-time/arda.go:98-107 | a formatted date reads back exactly in the years 0 to 9999 |
| `ArdaTime.ParseWrites` | libs/go/arda-time/arda.go:98-107 | what reads as a date is written back unchanged |
| `ArdaTime.ClampedUndone` | libs/go/arda-time/arda.go:146-158 | on text: fails exactly on text that is no date; going back restores the text exactly when no day was cut off and the month reached has a four-digit year |
| `ArdaTime.EndOfJanuary` | libs/go/arda-time/arda.go:146-158 | a month after January 31 is the last day of February |
| `ArdaTime.FormatShows` | libs/go/arda-time/arda.go:98-107 | a formatted date is four, two and two digits worth its year, month and day |
| `BusinessDate.NextWorkingDay` | libs/go/arda-businessdate/businessdate.go:94-110 | the first working day of the next 370, or the first error |
| `BusinessDate.AddWorkingDays` | libs/go/arda-businessdate/businessdate.go:114-131 | repeated searching; zero start and negative count refused |
| `BusinessDate.WorkingExactly` | libs/go/arda-businessdate/businessdate.go:72-91 | a day works exactly when it is no Saturday or Sunday and the calendar has no holiday |
| `BusinessDate.RefusedExactly` | libs/go/arda-businessdate/businessdate.go:72-80 | which questions are refused before the calendar is asked |
| `BusinessDate.ScopeExactly` | libs/go/arda-businessdate/businessdate.go:32-51 | which scopes are accepted |
| `BusinessDate.ZeroExactly` | libs/go/arda-businessdate/businessdate.go:77-80 | what the zero time is, in any zone |
| `BusinessDate.NextExactly` | libs/go/arda-businessdate/businessdate.go:94-110 | the first working day of the 370 after a date, told from the calendar |
| `BusinessDate.FridayToMonday` | libs/go/arda-businessdate/businessdate.go:94-110 | after a Friday comes Monday when nothing is a holiday |
| `BusinessDate.FirstWorkingExactly` | libs/go/arda-businessdate/businessdate.go:98-109 | a search succeeds with r exactly when r works and all days before it are off |
| `BusinessDate.FirstWorkingFails` | libs/go/arda-businessdate/businessdate.go:98-109 | it fails exactly with an error met after days off only, or with all days off |
| `BusinessDate.NthExactly` | libs/go/arda-businessdate/businessdate.go:94-131 | adding n gives r if and only if r is the n-th working day (exactly n lie in (d, r]), every day up to it is known, and no 370 days in a row are off |
| `BusinessDate.NthAdds` | libs/go/arda-businessdate/businessdate.go:121-130 | n working days and then m are n + m |
| `BusinessDate.NthIncreases` | libs/go/arda-businessdate/businessdate.go:121-130 | more working days lead strictly later |
| `BusinessDate.NthFails` | libs/go/arda-businessdate/businessdate.go:121-130 | it fails with an error exactly when the search from some day it reached does |
| `RateLimit.RateLimiter.Allow` | apps/ai-service/internal/handler/ratelimit.go:37-68 | verdict and new table for every call in terms of tokens and minutes, the table reset included |
| `RateLimit.LevelIsLeastRoom` | apps/ai-service/internal/handler/ratelimit.go:56-66 | the bucket holds the least room over all windows ending now |
| `RateLimit.AdmittedExactly` | apps/ai-service/internal/handler/ratelimit.go:56-66 | a request is admitted if and only if every window of t minutes ending at it has room for one more within limit·t |
| `RateLimit.AdmissionsBounded` | apps/ai-service/internal/handler/ratelimit.go:37-68 | at most 1 + limit + limit·t admissions in t minutes, whatever order the times come in |
| `RateLimit.TokensInRange` | apps/ai-service/internal/handler/ratelimit.go:56-66 | on a clock that does not run back tokens stay in [0, limit] |
| `RateLimit.SpacedNeverRefused` | apps/ai-service/internal/handler/ratelimit.go:56-66 | requests at least 1/limit minutes apart are never refused |
| `RateLimit.KeysAreIndependent` | apps/ai-service/internal/handler/ratelimit.go:45-55 | without a table reset a key’s bucket is that of its own calls, at the budget of its first |
| `RateLimit.VerdictIsOwn` | apps/ai-service/internal/handler/ratelimit.go:37-68 | and so is every verdict |
| `RateLimit.FirstCallDecides` | apps/ai-service/internal/handler/ratelimit.go:45-55 | a key’s first call gives its bucket its budget |
| `RankFusion.FuseRRF` | apps/ai-service/internal/knowledge/repository.go:426-452 | the loops and the sort give the cut of the stable order of the scored first-seen union |
| `RankFusion.FusedOrder` | apps/ai-service/internal/knowledge/repository.go:426-452 | every chunk met has one hit with its whole score, none comes twice; the list is exactly as long as topK and the union allow, and the front of the order in which of two chunks the one met earlier comes first if and only if it scores at least as much |
| `RankFusion.SortedPlaces` | apps/ai-service/internal/knowledge/repository.go:448 | the stable sort orders each pair by score, then by first appearance |
| `RankFusion.FirstSeenAll` | apps/ai-service/internal/knowledge/repository.go:430-441 | every chunk of either leg is in the union |
| `RankFusion.FirstSeenInOrder` | apps/ai-service/internal/knowledge/repository.go:430-441 | the union is in the order of first places |
| `RankFusion.ScoreGrows` | apps/ai-service/internal/knowledge/repository.go:430-441 | every place of a chunk adds one over sixty plus its rank to its score, and nothing else does |
| `RankFusion.Dominance` | apps/ai-service/internal/knowledge/repository.go:426-452 | a chunk no worse in both legs and better in one comes before the other wherever the other comes |
| `Governance.Governor.EnsureFresh` | apps/ai-service/internal/catalog/governance.go:72-108 | when the store is asked (no fresh snapshot, no failure within two seconds), what is kept on failure, and when success is reported |
| `Governance.Governor.IsEnabled` | apps/ai-service/internal/catalog/governance.go:145-162 | enabled by contract, loaded if a store exists, and not overridden off |
| `Governance.Governor.SetOverride` | apps/ai-service/internal/catalog/governance.go:167-184 | row and cache entry written together, or nothing |
| `Governance.Governor.ClearOverride` | apps/ai-service/internal/catalog/governance.go:188-201 | row and cache entry removed together, or nothing |
| `Governance.ClosedUntilLoaded` | apps/ai-service/internal/catalog/governance.go:145-162 | with a store nothing is enabled until a refresh or a write has succeeded; enabled implies contract-enabled |
| `Governance.CacheByMethod` | apps/ai-service/internal/catalog/governance.go:72-201 | as sole writer: agreement on every method written here, on all after a refresh; the others are missing from the cache before one |
| `Governance.AgreesExactly` | apps/ai-service/internal/catalog/governance.go:167-201 | cache equals table if and only if a refresh has succeeded or every initial row was written here |
| `Governance.KillSwitchMissed` | apps/ai-service/internal/catalog/governance.go:167-201 | a method switched off in the table is enabled exactly in the gap between the first write here and the first refresh |
| `Governance.SomeLastLoad` | apps/ai-service/internal/catalog/governance.go:72-108 | if any refresh of a run succeeded there is a last one |
| `Governance.SnapshotIs` | apps/ai-service/internal/catalog/governance.go:72-108 | after any run the cache is the table as it was at the last read with this replica’s later writes applied, and counts as loaded at the last of these |
| `Governance.StaleBound` | apps/ai-service/internal/catalog/governance.go:72-108 | after any run a snapshot in use was read less than the window ago if and only if no write made here since the last read came at a later time than that read |
| `Governance.CleanBound` | apps/ai-service/internal/catalog/governance.go:72-108 | without such a write a refresh that reports success leaves exactly the table as it was less than the window ago |
| `Governance.AsksSpaced` | apps/ai-service/internal/catalog/governance.go:72-108 | over every run the store is asked at most once every two seconds while it fails, and once it answered not before ten seconds after the last write made here |
| `Governance.WritesPostponeReading` | apps/ai-service/internal/catalog/governance.go:167-184 | a replica that keeps writing never sees another one’s kill switch, for any number of writes |
| `Publisher.Ring.Publish` | apps/ai-service/internal/events/publisher.go:49-59 | the ring holds the newest events sent to it, at most its capacity, in order |
| `Publisher.NatsPublisher.Publish` | apps/ai-service/internal/events/publisher.go:190-202 | a full queue sends the event to the ring |
| `Publisher.NatsPublisher.Dispatch` | apps/ai-service/internal/events/publisher.go:157-188 | an event in flight is dropped, acknowledged, or sent to the ring |
| `Publisher.StepConserves` | apps/ai-service/internal/events/publisher.go:145-202 | a step moves an event between places; only publishing adds one |
| `Publisher.EachInOnePlace` | apps/ai-service/internal/events/publisher.go:145-211 | in every reachable state each published event is in exactly one place, so none is acknowledged twice |
| `Publisher.QueueIsFifo` | apps/ai-service/internal/events/publisher.go:145-155 | settled, in-flight and queued events, in that order, are the accepted ones |
| `Publisher.AckedInOrder` | apps/ai-service/internal/events/publisher.go:145-188 | acknowledged events keep the order in which the queue took them |
| `Publisher.RunBounded` | apps/ai-service/internal/events/publisher.go:49-59 | in every reachable state at most a thousand events are queued, the ring holds the newest thousand sent to it, and every event sent to the ring is reported |
| `Publisher.SentExactly` | apps/ai-service/internal/events/publisher.go:157-202 | the ring was sent exactly the events published while the queue was full and those the broker refused |
| `Publisher.StopIsIdle` | apps/ai-service/internal/events/publisher.go:145-155 | the worker stops only between events and only when told to |
| `Publisher.StoppedForGood` | apps/ai-service/internal/events/publisher.go:204-211 | after the worker stopped nothing more settles: what is left in the queue stays there |
| `Utf8.TruncateRunes` | apps/ai-service/internal/decision/state.go:41-50 | any bytes: cut at the last rune start within the budget; well-formed text: the longest prefix of whole characters, giving up at most three bytes |
| `Utf8.StartsAreSplits` | apps/ai-service/internal/decision/state.go:46-48 | in well-formed text the rune starts are exactly the places that split it into well-formed halves, at most three bytes apart |
| `Utf8.WholePrefixIsUnique` | apps/ai-service/internal/decision/state.go:41-50 | there is only one such prefix |
| `Utf8.ValidExactly` | apps/ai-service/internal/decision/state.go:41-50 | well-formed bytes are exactly the encodings of sequences of Unicode scalar values (section 3 of RFC 3629) |
| `History.BoundedHistory` | apps/ai-service/internal/handler/agent.go:829-855 | a chronological run up to the newest message, within the total budget, that could not take the next older one; the truncation count includes the message it stopped at; well-formed text stays so |
| `History.Consider` | apps/ai-service/internal/handler/agent.go:834-849 | one older message: skipped, taken, or the one to stop at |
| `History.Reverse` | apps/ai-service/internal/handler/agent.go:851-853 | the in-place swap loop reverses |
| `History.OneOutcome` | apps/ai-service/internal/handler/agent.go:829-855 | these conditions admit one outcome only |
| `History.ReplayOne` | apps/ai-service/internal/handler/agent.go:834-849 | one turn: left out when empty or of another role, else whole, else cut within the budget and marked |
| `History.ReplaysJoin` | apps/ai-service/internal/handler/agent.go:829-855 | histories are replayed turn by turn |
| `History.MarkExactly` | apps/ai-service/internal/handler/agent.go:839-842 | the mark of a turn that was cut, byte by byte |

## Left out

Weaker than the source in some respect:

- AgentRun.RunAgent: begins after admission; quota reservation, persistence of the start, event publication, metrics and the stored reply text are not modelled.
- AgentRun.ResumeRun: one approved call, from RUN_STARTED on; the checks and the execution before it are left out, and so is the failure mark set on the run when no provider is left. A request that resumes several calls runs them all and tells the model of the first.
- Messages.BuildModelMessages: the wording of prompts is a parameter; message bytes become text one character a byte.
- RunFacts.FedBack: tool answers are the environment’s, in the words the model gets; shortening a tool’s data to a summary or to the content bound is not modelled. The repeat warning keeps the call’s name, the count and the answer, not its wording.
- TurnWire.CallCarried: the payload of a proposal is written with its id only; its status and expiry are left out.
- Docno.ValidExactly: stated for patterns whose literal text has no braces; the contract of ValidateSeries covers the others.
- Money.ShareNearest: with more parts than the quotient has units of the sixteenth place the bound is wider, by the first rounding.
- Agent.AgentLoop.Answer: the clean-up of an answer by regular expressions, and their verdict that it states no evidence, are choices of the environment.
- Agent.AgentLoop.ExecuteInParallel: the interleaving is at the grain of single stream events, which the writer’s lock makes atomic.
- Sse.SseWriter.Translate: JSON encoding is left out, the tool-argument map is written and never read there, and sequence numbers do not wrap at 64 bits.
- Sections.SplitByHeadings: the three regular expressions are modelled as predicates over the characters they match.
- Sections.ChunkMarkdown: the content hash is a function parameter.
- Docno.ValidateSeries: returns whether the series is accepted, not the wording of the error.
- Issuing.Database.Issue: statements run one after the other; isolation between concurrent transactions is the database’s. A persisted series is one the registry holds unchanged.
- Money.ExponentIgnoresSpelling: upper-casing is modelled as far as an ASCII result is concerned.
- Money.AllocateEven: decimals are exact reals and division rounds at 16 places as the decimal library does by default; parts are unbounded integers.
- PruneSchema.Compiler.Compile: the description, enum and format keys that pruning never reads are left out.
- OpenApiGenerator.Generator.Generate: says what is behind a failure, not that each such cause makes it fail. It assumes hand-written schemas refer to hand-written or standard components. The checks of an operation that read no name table (method, path, parameters, form, status) are one refused flag; the JSON spelling of scalar and nullable schemas and the writing of x-go-type into a caller’s own map are not modelled.
- OpenApiGenerator.Generator.TypeSchema: requires rankings that witness that every cycle of types passes through a named struct in a field that is not embedded; on other graphs the program does not end.
- ArdaTime.AddMonthsLands: civil dates; a midnight that a zone’s history skips is not modelled.
- BusinessDate.NextWorkingDay: the calendar’s answers are stable within one call.
- RateLimit.RateLimiter.Allow: tokens and minutes are real numbers, so float64 rounding is not modelled; calls are one at a time under the lock.
- RateLimit.KeysAreIndependent: says nothing past a reset of the table at more than 10 000 keys, which forgets every bucket.
- RankFusion.FuseRRF: scores are real numbers; the sort of the standard library is modelled by a stable insertion sort.
- Governance.Governor.EnsureFresh: calls do not overlap; reading the table and replacing the cache is one step.
- Publisher.NatsPublisher.Dispatch: an event whose acknowledgement is lost after the broker stored it counts as failed here, as it does in the program.

Not modelled, because it would add only plumbing, foreign libraries or easy members:

- HTTP handlers, middleware, header and problem writing, CORS, metrics text.
- SQL, vector and full-text search, Redis, NATS and migration internals beyond the contracts above; recording of gaps, lookup by alias and document-type rules of the numbering library.
- Model providers, embedders, rerankers, decision transport, document rendering, media upload, spreadsheet writing.
- Proposal and approval repositories: creating a proposal is an abstract outcome of a call.
- Cryptography, egress checks, service authentication.
- Regular-expression clean-up of answers and transcripts, prompts, configuration, generated catalogs, scripts.
- Time zones with daylight saving, day-range resolution, interest and subtraction helpers of the money library, the current business date.
