# Pony: a verified model of the agent run

Pony is a command-line coding agent. This project models its run machine and the algorithms the run rests on, and proves
what they keep. `dafny verify dfyconfig.toml` checks everything.

| files | what they model |
|---|---|
| `Trace`, `TraceLanguage`, `TracePhases`, `RunSummary` | the one-pass trace acceptor, the language it decides, the phases a running producer takes it through, and the comparison of report and trace |
| `Session`, `RunLoop` | the append-only Session shared with foreign writers, and the bounded run over it: attempts, retries, tools, compaction calls, exits, finalization |
| `SessionTranscript` | the Session read as messages |
| `Transcript`, `Compaction` | the message grammar and its validator; the planner that decides what a compaction summarises |
| `PreviewText`, `PreviewBytes`, `Streaming`, `InputQueue` | how the preview cuts text and counts its bytes, and the preview fed by deltas; the queue shared by several threads |
| `EnvLine`, `EnvFile`, `EnvText` | one line of a `.env` file, the file as lines, the file as text |
| `EnvReading`, `EnvLines`, `EnvSplits` | what their scans decide, by grammars of comments, JSON strings, lines and line ends that share nothing with the scans |
| `Operands`, `McNemar`, `Chunks`, `TokenClip`, `Common` | a worklist, exact statistics, a greedy allocator, token clipping, shared helpers |

## How the model works

**The run.** `RunLoop.AgentRun` is a class with the fields the loop updates. What providers, tools, files and foreign Session
writers do is nondeterministic (`*`), and foreign writers may append before every store operation, so the postconditions of
`RunTurn` speak of every run and every interleaving. Ghost fields record what the statements need: the phase the acceptor is
in, the faults so far, the leaf captured at each attempt, the turns that another attempt followed.

**Producer and acceptor.** A run's trace is accepted *if and only if* none of five faults happened. Each is a condition
at one place of the loop: the Session had changed, or could not be read, after a streaming request was announced; a streaming response never
committed; a tool id was empty or used before; a tool returned status interrupted, or raised with another status; a started tool
was left without a closing event, because its exception carried no status or its result could not be stored.
`TraceLanguage.AcceptsExactly` says what acceptance means without the acceptor's variables.

**Detected changes.** The ghost field `detectedAt` records where the log ended when the run's guard first found the Session changed: at
the start of an attempt, around a request, after a Session tool, or at a guarded commit. Behind that point the log holds nothing of the
run. Two other looks at the Session freeze nothing, in the code as in the model: `compact_session` and its summary calls raise when the
leaf is not the expected one, and the closing appends that follow are then still made.

**Threads.** In `InputQueue` every region under the lock is one action and a run is any sequence of enabled actions; the class
`Queue` has one method per region, each proved to be its action. `StartWorker` is the part of `submit` after the lock was released.

**Text.** Strings are sequences of characters; the preview's texts are sequences of code points, surrogates included, because deltas may
carry an emoji as two halves. White space, line ends, JSON escapes, surrogate pairs and the UTF-8 length of a character are written
out; sanitising, redaction and the secret checks of the preview are one uninterpreted projection.

## Findings

Six expectations about the code do not hold in general. Each comes with the exact condition under which the code meets it.

- A `.env` value that holds U+0085, U+2028 or U+2029 does not survive an update: the value passes validation and its JSON form leaves
  those characters as they are, but the file is later cut at them (`EnvText.WideBreakLost`). `EnvText.TextUpdateExact` proves that the update is right exactly
  when no value holds one of the three. Nor is rendering such a file twice the same as once (`EnvText.StableExactly`).
- An input queued while a worker thread is being created is stranded if the thread cannot start; `InputQueue.ServedExactly` is the exact
  condition. A later input may then overtake it; `InputQueue.TakenInOrder` proves that inputs are taken in order exactly as long as no
  submission starts a worker past pending ones. `InputQueue.OrphanedInputIsOvertaken` is a run with both.
- The preview's pending check sees where a delta ends. A line of exactly the limit, cut between CR and LF, turns the preview off
  (`Streaming.ChunkEndsCanMatter`); so does an emoji sent as a valid pair of surrogates, cut anywhere before its line end, because pairs
  are merged only in complete lines (`Streaming.PairCutCanMatter`). `Streaming.CutsAgreeExactly` proves that the cuts do not matter
  exactly when the text turns the preview off uncut, or holds neither a surrogate nor a line of exactly the limit closed by a CR.
- The text `clip_contexts` returns can cost more than its budget, because the blank lines between the parts are not counted
  (`TokenClip.JoinedCanOverrun`). `TokenClip.JoinedFitsExactly` gives the exact condition on texts and budget, `TokenClip.JoinedWithin`
  the most it can exceed it by.
- The store validates only what is appended, so a tool id the Session already holds is committed and the transcript is no longer valid;
  `SessionTranscript.AppendsKeepGrammar` proves, for the messages a run writes, that nothing else makes it invalid but an empty id.
- A run meets its own trace acceptor only without the five faults above; `RunLoop.AgentRun.RunTurn` proves both directions.

With a step limit of zero no attempt is made, so there is no guard yet and the closing message is committed wherever the Session
ends (`RunLoop.AgentRun.StopAtLimit`); every answer of an attempt is committed at its guard.

The clamp of the McNemar p-value acts only at ties, but the value is also one when the two sides differ by one
(`McNemar.ClampExactlyAtTies`).

## Model

| member | source | states |
|---|---|---|
| `TraceLanguage.AcceptsExactly` | pony/agent/observability.py:271-463 | for every event sequence: the one-pass acceptor accepts it if and only if it lies in the declarative language, which shares no helper with the acceptor: events of today's envelope with sound streaming fields, one run_finished with no tool event after it, and for every tool id and every streaming attempt a complete history, statuses written out |
| `TraceLanguage.AcceptedStatuses` | pony/agent/observability.py:403-455 | in every accepted trace a tool starts without a status, is executed and finished with ok, error, partial success or rejected, and is interrupted with interrupted, each time with id and name |
| `TraceLanguage.HeaderDecides` | pony/agent/observability.py:289-326 | which error the first faulty header gives: the envelope or the metadata first, then a repeated event id, the run, the task |
| `TraceLanguage.StreamingDecides` | pony/agent/observability.py:327-402 | which error the first faulty streaming event gives, from the history of its attempt in the trace so far |
| `TraceLanguage.ToolDecides` | pony/agent/observability.py:403-455 | which error the first faulty tool event gives, from the history of its id in the trace so far |
| `TraceLanguage.EndDecides` | pony/agent/observability.py:456-463 | which error an unfinished trace gives: the number of endings first, then an open tool, then an attempt half-way |
| `TraceLanguage.MonotonicityNeverRejects` | pony/agent/observability.py:389-402 | no trace at all is rejected by the monotonicity check: whatever it would reject, an earlier check has rejected |
| `TraceLanguage.ScanExact` | pony/agent/observability.py:271-455 | the scan gets through exactly the traces in which no history is broken yet, and its eight sets and maps are then the histories of all ids and attempts |
| `TraceLanguage.StepExact` | pony/agent/observability.py:289-455 | one turn of the loop succeeds exactly if the longer trace is still unbroken, and keeps the variables in agreement with the histories |
| `TraceLanguage.StreamStepExact` | pony/agent/observability.py:327-402 | the streaming checks reject an event exactly if it breaks its own attempt's history or names no attempt, and no other attempt is affected |
| `TraceLanguage.StreamErrorExact` | pony/agent/observability.py:327-402 | a streaming event is rejected exactly if its own attempt's history would break, and never by the monotonicity check |
| `TraceLanguage.ToolStepExact` | pony/agent/observability.py:403-455 | the tool checks reject an event exactly if it breaks its own id's history, lacks id or name, or follows run_finished |
| `TraceLanguage.ClosedExactly` | pony/agent/observability.py:456-463 | the three final checks hold exactly if there is one run_finished and no tool or attempt is half-way |
| `TraceLanguage.ToolRunComplete` | pony/agent/observability.py:418-455 | the states a tool id may end in are exactly: not started; started and interrupted; started and executed; started, executed and finished, with one name and one status |
| `TraceLanguage.StreamRunComplete` | pony/agent/observability.py:327-402 | the states an attempt may end in are exactly: silent; requested and failed; requested, acted and ended in the action's state, as a turn only if committed |
| `TraceLanguage.LanguageByViews` | pony/agent/observability.py:271-463 | the language is the same as: nothing broken, one run_finished, nothing half-way |
| `Trace.ValidateTrace` | pony/agent/observability.py:271-463 | the loop over mutable sets and maps computes the verdict, with the error of the first offending event |
| `Trace.CheckStreaming` | pony/agent/observability.py:327-402 | the nested streaming conditions report the first violated rule in the source's order; monotonicity is violated exactly if a commit, a preview or its first time is taken back |
| `Trace.ScanSticks` | pony/agent/observability.py:271-287 | a prefix that is rejected fixes the verdict of every continuation |
| `RunSummary.CrossCheck` | pony/agent/observability.py:675-694 | the two counting loops say yes exactly if calls, name counts and status counts of the report are those of the trace |
| `RunSummary.SummaryMeans` | pony/agent/observability.py:675-694 | which is: the report's calls, names and statuses are the numbers of events in the trace that end a tool, in all, by name and by status |
| `RunSummary.SummaryExtends` | pony/agent/loop.py:1020-1033 | recording a tool call in the report and emitting its ending event keep report and trace in agreement, and so does every other event |
| `TracePhases.RequestOpens` | pony/agent/loop.py:835-847 | a streaming request with a new attempt number takes the acceptor from rest to waiting for that attempt |
| `TracePhases.ActionEnters` | pony/agent/loop.py:979-986 | a decoded action is accepted while its attempt waits |
| `TracePhases.TurnEnds` | pony/agent/loop.py:987-1004 | a model turn brings the acceptor to rest exactly if the stream had committed; otherwise the trace is lost |
| `TracePhases.FailureEnds` | pony/agent/loop.py:198-249 | a failed call closes its attempt |
| `TracePhases.ToolStarts` | pony/agent/loop.py:1044-1052 | a tool start is accepted exactly if its id is present and was never used before |
| `TracePhases.ToolCloses` | pony/agent/loop.py:1058-1076 | an open tool is closed exactly if its status is interrupted when it was interrupted, and is not when it was executed |
| `TracePhases.ToolFinishes` | pony/agent/loop.py:1123-1147 | executed and finished with one name and status bring the acceptor to rest, unless the status is interrupted |
| `TracePhases.RunEnds` | pony/agent/loop.py:1562-1575 | run_finished yields an accepted trace exactly from rest, with or without a later finalization note |
| `TracePhases.NeutralKeeps` | pony/agent/observability.py:271-463 | events without streaming state or tool fields never move the acceptor |
| `Session.SessionStore.ForeignSteps` | pony/state/session_store.py:2066-2132 | foreign writers append any number of entries and change the binding only by writing |
| `Session.SessionStore.AppendEntries` | pony/state/session_store.py:2066-2132 | all or nothing, after any foreign entries; with an expected leaf only at that leaf; refused as changed exactly if leaf or binding differ |
| `Session.IsolatedGrows` | pony/agent/loop.py:498-558 | entries by others never disturb the isolation of the run's earlier answers |
| `Session.IsolatedAppend` | pony/agent/loop.py:498-558 | an append at a leaf the attempt reached by its own entries keeps every answer isolated |
| `RunLoop.AgentRun.RunTurn` | pony/agent/loop.py:1405-1488 | main result, for every resolution of what providers, tools, files and other writers do, in plain terms: the trace is accepted if and only if none of five named faults happened, and then report and trace agree; calls are allowed plus denied, and denied are those of status rejected; every model call is a turn, a failure, a completed auxiliary call or, after an exception only, still out; with m steps allowed there are at most 3m or at most m+4 attempts, at most m tool steps, at most 19 model calls per attempt, and a step limit means that m steps were made; only a tool turn follows a committed stream, one malformed response and one context recovery are answered by another attempt, and of three transport retries the first and the last have a response between them; every answer stands behind its attempt's captured leaf with the attempt's own entries between; behind the point where its guard found the Session changed the log holds nothing of the run; the Session stays a valid transcript exactly if every tool id committed was new to it; each way out has its stop reason |
| `RunLoop.AgentRun.RunStarted` | pony/agent/loop.py:1422-1488 | what RunTurn says of the trace, the counters, the limits, the retry rules and the stop reasons of a run that started |
| `RunLoop.AgentRun.constructor` | pony/agent/loop.py:1422-1438 | a new run has the given settings and satisfies what a run may assume at its start |
| `RunLoop.AgentRun.RunAgentAttempts` | pony/agent/loop.py:1151-1383 | the loop ends within its limits, at most 3m or at most m+4 attempts and m tool steps, a step limit only once m steps were made, with the book of retries, the session facts and the trace phase intact, also when the start of the run, preflight or request building raises |
| `RunLoop.AgentRun.OneTurn` | pony/agent/loop.py:1182-1370 | one attempt adds at most 19 model calls and one tool step, a further attempt follows only in a state that may go on, and a lost guard leaves the change detected and the run blocked |
| `RunLoop.AgentRun.OpenAttempt` | pony/agent/loop.py:1184-1184 | each attempt starts at the leaf and binding the Session has at that moment |
| `RunLoop.AgentRun.BeginAttempt` | pony/agent/loop.py:1182-1199 | capture, build, announce, look again: a streaming request whose guard is not confirmed is a fault, and an attempt ended by a lost guard leaves the change detected and the run blocked |
| `RunLoop.AgentRun.ConfirmGuard` | pony/agent/loop.py:1199-1199 | behind an announced streaming request a Session that changed or cannot be read is a fault; a change is recorded as detected |
| `RunLoop.AgentRun.BuildAttemptRequest` | pony/agent/loop.py:710-847 | at most two compactions of at most six calls each and one request of its own, without compaction enabled the request alone; on success the request is out and counted; any error of building it ends the attempt |
| `RunLoop.AgentRun.IssueRequest` | pony/agent/loop.py:774-847 | recall state is committed at the guard, then one attempt is counted under its origin, then it is announced |
| `RunLoop.AgentRun.Announce` | pony/agent/loop.py:789-847 | the attempt is counted once, under its own origin, before the trace waits for it |
| `RunLoop.AgentRun.CompleteModelAttempt` | pony/agent/loop.py:850-1017 | every call that went out is closed in the trace and counted as one turn or one failure; an uncommitted streamed response is the one fault it can add |
| `RunLoop.AgentRun.RecordAttempt` | pony/agent/loop.py:789-793 | one more attempt in the task state and in the execution record, under its origin, and one more retry if it is one |
| `RunLoop.AgentRun.RecordFailure` | pony/agent/loop.py:198-249 | one more failure, no other counter, and the attempt closed in the trace |
| `RunLoop.AgentRun.ObserveRequested` | pony/agent/loop.py:279-299 | an auxiliary call is counted like any other before it goes out |
| `RunLoop.AgentRun.ObserveCompleted` | pony/agent/loop.py:317-337 | a completed auxiliary call is neither a turn nor a failure and leaves nothing out |
| `RunLoop.AgentRun.SummaryRequest` | pony/agent/compaction.py:393-442 | at most three calls; a retryable failure is final only at the third; none is left out unless by an exception, and all but the first are counted as retries |
| `RunLoop.AgentRun.CompactSession` | pony/agent/compaction.py:445-562 | at most six calls; on success the compaction entry is the last one and the guard stands behind it, otherwise the guard stays |
| `RunLoop.AgentRun.AppendControl` | pony/state/session_store.py:2168-2206 | a control entry is appended exactly at the guard's leaf or not at all, and the guard moves past it |
| `RunLoop.AgentRun.CaptureGuard` | pony/agent/loop.py:464-478 | leaf and binding as they are; a binding that is not the client's is recorded as detected and blocks all further writes; a Session that cannot be read blocks nothing |
| `RunLoop.AgentRun.ValidateGuard` | pony/agent/loop.py:481-486 | passes only if leaf and binding are still as captured and the client's; if they are not, that is recorded as detected and all writes are blocked from here |
| `RunLoop.AgentRun.AdvanceGuard` | pony/agent/loop.py:489-495 | after a Session tool the guard adopts the new leaf under the same binding, and the attempt is marked as one that ran such a tool; another binding is recorded as detected and blocks all writes |
| `RunLoop.AgentRun.Detect` | pony/agent/loop.py:474-486 | the first detection fixes its place in the log; from there on writes are blocked |
| `RunLoop.AgentRun.DetectionFreezes` | pony/agent/loop.py:464-558 | behind a detected change the log holds nothing of the run, whoever wrote since |
| `RunLoop.AgentRun.CommitGuarded` | pony/agent/loop.py:498-558 | the messages land at the guard's leaf, right behind it, or not at all; a changed Session is recorded as detected and blocks all later writes; a blocked run never writes |
| `RunLoop.AgentRun.CommitUnguarded` | pony/agent/loop.py:498-558 | without a guard only the given entries, none of them an answer, and session info are appended, and none once blocked |
| `RunLoop.AgentRun.EmitToolStarted` | pony/agent/loop.py:1044-1052 | an absent or reused tool id is a fault, any other opens the tool in the trace |
| `RunLoop.AgentRun.EmitToolInterrupted` | pony/agent/loop.py:1060-1076 | the report gains the call; a raised tool with a status other than interrupted is a fault |
| `RunLoop.AgentRun.EmitToolExecuted` | pony/agent/loop.py:1123-1147 | the pair of closing events; a result with status interrupted is a fault |
| `RunLoop.AgentRun.ExecuteTool` | pony/agent/loop.py:1055-1078 | any listed status or an exception with or without one; only a Session tool writes the Session, perhaps before it raises |
| `RunLoop.AgentRun.CommitTool` | pony/agent/loop.py:1083-1116 | the tool's messages are committed by this attempt at the guard, which first follows a Session tool's own writes; what preparing the result raises leaves the Session alone |
| `RunLoop.AgentRun.CommitResult` | pony/agent/loop.py:1109-1122 | a step is counted exactly for a committed result that was not rejected |
| `RunLoop.AgentRun.FinishTool` | pony/agent/loop.py:1080-1148 | report, Session pair, step count and closing events of one result; a tool left open in the trace is a fault |
| `RunLoop.AgentRun.ApplyToolAction` | pony/agent/loop.py:1035-1148 | the report gains exactly this call, a blocked action is a rejection, a step is counted exactly if not rejected, and the exchange is in the Session |
| `RunLoop.AgentRun.HandleModelError` | pony/agent/loop.py:1210-1288 | goes round again only for a first context recovery or a retryable error with retries left, never after a committed stream or on the last attempt; without a context error to recover from it compacts nothing and retries exactly if it may |
| `RunLoop.AgentRun.RecoverContext` | pony/agent/loop.py:1212-1262 | recovery ends with the recovery entry right behind the compaction entry and the guard behind both |
| `RunLoop.AgentRun.HandleTool` | pony/agent/loop.py:1291-1328 | a tool turn is followed by another attempt or ends the run with a runtime error or a retry limit; a tool the agent does not have is counted as unknown_tool |
| `RunLoop.AgentRun.FollowTool` | pony/agent/loop.py:1301-1328 | the run stops exactly if effects are unknown or such a rejection repeats; else another attempt follows |
| `RunLoop.AgentRun.AdvanceRejection` | pony/agent/loop.py:175-185 | stops exactly at the second rejection of one tool with one code, for invalid arguments and unsafe workspace entries only |
| `RunLoop.AgentRun.HandleMalformed` | pony/agent/loop.py:1329-1358 | one retry per run, and none after a committed stream |
| `RunLoop.AgentRun.HandleFinal` | pony/agent/loop.py:1360-1367 | the answer is in the Session, at the guard, before the task is called finished |
| `RunLoop.AgentRun.HandleAction` | pony/agent/loop.py:1209-1367 | only a final answer finishes the run, only a tool action leads to a follow-up, only a malformed response to its one retry |
| `RunLoop.AgentRun.Again` | pony/agent/loop.py:1259-1286 | the loop's counters move as the cause says: a response resets the retries, and the next origin is follow-up, retry of the action or retry of the model |
| `RunLoop.AgentRun.StopWith` | pony/agent/loop.py:1304-1312 | a stop of the run's own commits its message at the guard |
| `RunLoop.AgentRun.StopAtLimit` | pony/agent/loop.py:1369-1383 | retry limit exactly if steps are left, and then at least 3m and at least m+4 attempts were made; else step limit |
| `RunLoop.AgentRun.CreateCheckpoint` | pony/agent/loop.py:1615-1645 | the checkpoint entry disturbs neither trace phase nor session facts |
| `RunLoop.AgentRun.EmitRunFinished` | pony/agent/loop.py:1562-1611 | from rest the finished trace is accepted, otherwise never |
| `RunLoop.AgentRun.FinalizeRun` | pony/agent/loop.py:1491-1612 | a terminal message, session info and the checkpoint are all it may append, after a normal end the checkpoint alone, and nothing once blocked; only a failed checkpoint after a normal end changes the stop reason |
| `RunLoop.AgentRun.SettleExit` | pony/agent/loop.py:1446-1469 | every exception gets its stop reason, and only an unset one is overwritten by a runtime error |
| `RunLoop.AgentRun.EndRun` | pony/agent/loop.py:1446-1488 | every way out gets its stop reason, and then the run is finalized; only a normal end may still turn into a persistence error |
| `RunLoop.AgentRun.OpenRun` | pony/agent/loop.py:1408-1420 | a run begins only with its user message committed at the captured leaf |
| `RunLoop.AgentRun.StartsWell` | pony/agent/loop.py:1151-1181 | the initial values satisfy all that the loop keeps |
| `RunLoop.DisciplineGrows` | pony/agent/loop.py:1210-1358 | the loop's guards on going round again keep every retry rule over the whole history |
| `RunLoop.RulesInFull` | pony/agent/loop.py:1210-1358 | those rules in plain words, of the turns themselves |
| `RunLoop.RejectionAdded` | pony/agent/loop.py:175-185 | correctable rejections stay pairwise different until one repeats, which is the last |
| `RunLoop.FineGrows` | pony/agent/loop.py:464-558 | foreign entries at any moment keep every session fact |
| `RunLoop.FineCommits` | pony/agent/loop.py:540-558 | a guarded append keeps every session fact and moves the guard to the new leaf |
| `RunLoop.FineUnguarded` | pony/agent/loop.py:1524-1550 | an unguarded entry that is no answer keeps every session fact |
| `SessionTranscript.AppendsKeepGrammar` | pony/agent/messages.py:207-298 | over any stretch of appends by anybody, a valid Session stays a valid transcript if and only if every tool id committed is new to it and not empty |
| `SessionTranscript.EntryKeeps` | pony/agent/messages.py:86-134 | one more entry keeps the transcript valid exactly if it was valid and the entry's tool id, if it has one, is new |
| `SessionTranscript.EntryAdds` | pony/agent/messages.py:86-134 | which messages the transcript gains with each kind of entry |
| `Transcript.CheckExact` | pony/agent/messages.py:207-298 | the validator, from any point of its walk, accepts exactly the concatenations of plain messages, text-block messages and adjacent matching tool pairs with new ids |
| `Transcript.ValidateMessages` | pony/agent/messages.py:207-298 | the index loop with its set of seen ids accepts exactly the grammar, and reports the first error otherwise |
| `Transcript.ErrorsAre` | pony/agent/messages.py:191-298 | which error that is, from the first message that cannot be let through |
| `Transcript.AppendPlain` | pony/agent/messages.py:207-298 | a plain message can be appended exactly to a valid transcript |
| `Transcript.AppendPair` | pony/agent/messages.py:86-134 | a made pair keeps a transcript valid if and only if its id is new and not empty and its parts are well-shaped |
| `Transcript.AppendPiece` | pony/agent/messages.py:207-298 | appending a well-formed piece gives a valid transcript if and only if the rest was valid and the id new |
| `Transcript.CutBetweenPieces` | pony/agent/messages.py:207-298 | every stretch between two entry boundaries of a valid transcript is valid |
| `Transcript.ReplaceLatestPlainUser` | pony/agent/messages.py:53-60 | exactly the last plain user message gets the new text; fails exactly if there is none |
| `Transcript.BuildRequestMessages` | pony/agent/messages.py:72-83 | the request is valid, fails exactly without a plain user message, and is the transcript without metadata and with that one text replaced |
| `Transcript.RequestDiffersOnce` | pony/agent/messages.py:72-83 | same length, and every other message unchanged apart from its metadata |
| `Transcript.RequestValid` | pony/agent/messages.py:63-83 | rewriting and stripping stay inside the grammar |
| `Transcript.RewriteKeeps` | pony/agent/messages.py:53-60 | rewriting a plain message's text moves no piece |
| `Transcript.StripKeeps` | pony/agent/messages.py:63-69 | stripping metadata keeps pieces and ids |
| `Compaction.TurnGroups` | pony/agent/compaction.py:157-173 | the groups concatenate to the history; each but the first opens with a plain message of the user, and no other entry of a group is one |
| `Compaction.TurnsUnique` | pony/agent/compaction.py:157-173 | there is only one such grouping |
| `Compaction.KeepTurns` | pony/agent/compaction.py:199-210 | the kept turns fit unless it is the last alone, and the turn before them would not |
| `Compaction.SplitTurn` | pony/agent/compaction.py:215-228 | the kept entries of a turn fit unless it is the last alone, and the entry before them would not |
| `Compaction.ChooseTail` | pony/agent/compaction.py:199-233 | the two greedy loops choose an exact, maximal split; there is nothing to summarise exactly if the whole history fits |
| `Compaction.WholeTurnsChosen` | pony/agent/compaction.py:199-212 | keeping whole turns leaves a prefix exactly if the history overflows the target |
| `Compaction.SplitTurnChosen` | pony/agent/compaction.py:212-233 | an oversized last turn of several entries always leaves a non-empty split prefix |
| `Compaction.BuildCompactionPlan` | pony/agent/compaction.py:176-259 | prefix, split prefix and kept part are the history in order, kept is not empty, within the target or one entry, and maximal: the turn before it, or the entry before it in a split turn, would not fit; turns open with plain user messages and hold no other; fails exactly below two entries or when the total cost is within the target |
| `Compaction.PlanConserves` | pony/agent/compaction.py:234-259 | the costs of the three parts add up to the cost of the history |
| `Compaction.PlanPartsValid` | pony/agent/compaction.py:44-65 | no plan cuts a tool pair: kept part, prefix and split prefix of a valid history are valid transcripts |
| `Compaction.CommitPlan` | pony/agent/compaction.py:493-530 | a compaction is committed exactly if there is a summary and tail plus summaries cost strictly less than before, and reports that cost |
| `Compaction.CommitPays` | pony/agent/compaction.py:519-530 | for a history not yet compacted that is: exactly if the summaries there are cost less than what they replace |
| `PreviewText.SplitResumes` | pony/agent/streaming.py:88-107 | splitting may stop and resume at any character; the residue is all it has to remember |
| `PreviewText.FedIsSplit` | pony/agent/streaming.py:75-107 | feeding deltas releases the lines of the joined text and keeps its residue |
| `PreviewText.ChunkingIrrelevant` | pony/agent/streaming.py:75-107 | two ways of cutting one text into deltas release the same lines and keep the same buffer |
| `PreviewText.NothingLost` | pony/agent/streaming.py:88-107 | lines and residue are the text with its line ends unified, and no line holds a line end |
| `PreviewText.SnapshotGrows` | pony/agent/streaming.py:124-125 | the incremental snapshot is the join of all released lines without leading newlines |
| `PreviewText.PendsExactly` | pony/agent/streaming.py:75-107 | for every text whose lines and residue are within the limit once pairs are merged: the pending check passes at every possible delta end if and only if the text holds no surrogate, not even in a valid pair, and no line of exactly the limit is closed by a CR |
| `PreviewText.SurrogatePends` | pony/agent/streaming.py:81-86 | cut right behind any surrogate, a text leaves a buffer that cannot be encoded |
| `PreviewText.MergedEncodes` | pony/security/text.py:6-27 | a line without isolated halves can be encoded once its pairs are merged |
| `PreviewBytes.MergedHalves` | pony/security/text.py:20-27 | merging the pairs keeps the text's UTF-16 form |
| `PreviewBytes.IsolatedExactly` | pony/security/text.py:6-19 | a text has an isolated half exactly if some half has no other half beside it |
| `PreviewBytes.PassesMeans` | pony/agent/streaming.py:82-86 | a text passes exactly if it holds no surrogate and its UTF-8 form (section 3 of RFC 3629) is at most 65536 bytes long |
| `PreviewBytes.LeadingNewlines` | pony/agent/streaming.py:125-125 | the snapshot loses its leading newlines and nothing else |
| `Streaming.ContainsIsolated` | pony/security/text.py:6-19 | the scan finds a half that is not one of an adjacent pair, exactly if there is one |
| `Streaming.EveryCutStaysOn` | pony/agent/streaming.py:75-142 | with a display that shows what it is given, every way of cutting a text keeps the preview on if and only if its lines trip no guard, its open line can be encoded within the limit, it holds no surrogate, and no full line is closed by a CR |
| `Streaming.CutsAgreeExactly` | pony/agent/streaming.py:75-142 | whether the preview stays on is the same for all cuts of a text if and only if the text turns it off uncut, or holds neither a surrogate nor a full line closed by a CR |
| `Streaming.SameTextSameOutcome` | pony/agent/streaming.py:75-142 | two previews with willing displays fed the same text, however cut, are both on or both off under that condition |
| `Streaming.ChunkEndsCanMatter` | pony/agent/streaming.py:81-86 | two previews with willing displays fed one text, a full line and its CR LF: uncut it stays on, cut between CR and LF it goes off |
| `Streaming.PairCutCanMatter` | pony/agent/streaming.py:81-86 | two previews with willing displays fed one text, an emoji as two halves and a line end: uncut it stays on, cut before the line end it goes off |
| `Streaming.SafeTextPreview.TextDelta` | pony/agent/streaming.py:75-86 | lines, buffer and what is shown depend on the joined deltas alone; the preview goes off exactly if the display failed, a line tripped a guard, or the open line cannot be encoded within the limit; metadata never regresses |
| `Streaming.SafeTextPreview.Receive` | pony/agent/streaming.py:78-86 | one delta on a preview that is on: lines and buffer are those of the longer text, and it goes off exactly as said for text_delta |
| `Streaming.SafeTextPreview.ReleaseCompleteLines` | pony/agent/streaming.py:88-96 | releases exactly the complete lines of the buffer, in order |
| `Streaming.SafeTextPreview.LineBoundary` | pony/agent/streaming.py:98-107 | the first LF, CR LF, or CR with a successor |
| `Streaming.SafeTextPreview.ReleaseLine` | pony/agent/streaming.py:109-165 | snapshot and display follow the released lines; the preview goes off exactly if a guard trips or the display fails on a new text |
| `Streaming.SafeTextPreview.constructor` | pony/agent/streaming.py:23-53 | a new preview reports the initial metadata |
| `Streaming.SameTextSamePreview` | pony/agent/streaming.py:75-165 | two previews of one text that are both on agree in lines, buffer, snapshot and display |
| `InputQueue.ServedExactly` | pony/cli/input_queue.py:51-160 | over all interleavings: pending inputs always have a worker to come if and only if no thread start failed with inputs queued behind it |
| `InputQueue.OrphanedInputIsOvertaken` | pony/cli/input_queue.py:66-74 | a concrete run with such a failure: an accepted input is left without a worker and a later one overtakes it |
| `InputQueue.TakenInOrder` | pony/cli/input_queue.py:51-160 | at any point of any run: inputs have been and will be settled in the order of their acceptance, each known by its acceptance number, if and only if no submission so far started a worker past pending inputs |
| `InputQueue.InOrderLine` | pony/cli/input_queue.py:51-160 | in order, settled and pending inputs together are the accepted ones |
| `InputQueue.OvertakenWasOrphaned` | pony/cli/input_queue.py:51-74 | nothing is overtaken unless a failed thread start orphaned inputs before |
| `InputQueue.OneFateEach` | pony/cli/input_queue.py:51-160 | at any point of any run: each accepted input is pending or settled, once, and accepted = claimed + discarded + not started + pending |
| `InputQueue.AlwaysSound` | pony/cli/input_queue.py:51-160 | in every reachable state: at most five pending, at most one worker, nothing pending after the end, at most one open confirmation and none while closing |
| `InputQueue.StepWorkers` | pony/cli/input_queue.py:51-160 | every locked region keeps the worker facts |
| `InputQueue.StepConfirmations` | pony/cli/input_queue.py:82-131 | every locked region keeps the confirmation facts |
| `InputQueue.StepInOrder` | pony/cli/input_queue.py:51-160 | a locked region leaves the order of acceptance as it is, kept or broken, except that a submission which starts a worker past pending inputs breaks it |
| `InputQueue.StepTracks` | pony/cli/input_queue.py:51-160 | every locked region keeps the acceptance numbers a one-to-one record of what is settled and pending |
| `InputQueue.NothingClaimedAfter` | pony/cli/input_queue.py:122-160 | after closing or a terminal outcome nothing is accepted or claimed, and once idle nothing runs again |
| `InputQueue.GrantedWasAnswered` | pony/cli/input_queue.py:87-116 | a granted confirmation was answered yes while it was the open request |
| `InputQueue.ClosedReleasesWaiters` | pony/cli/input_queue.py:122-131 | after closing every request is answered, so no waiter waits for ever |
| `InputQueue.AnswersStay` | pony/cli/input_queue.py:87-131 | an answer once given is never changed |
| `InputQueue.Queue.Submit` | pony/cli/input_queue.py:51-74 | closed, full at five pending inputs, queued behind them, or started, exactly as the state says, and the state moves accordingly |
| `InputQueue.Queue.StartWorker` | pony/cli/input_queue.py:66-74 | a failing start frees the queue, marks its input as not started, and leaves pending inputs where they are |
| `InputQueue.Queue.Clear` | pony/cli/input_queue.py:76-80 | discards and counts exactly the pending inputs, each recorded as discarded, in order |
| `InputQueue.Queue.AnswerConfirmation` | pony/cli/input_queue.py:87-95 | answers exactly the open request, with the answer given |
| `InputQueue.Queue.RegisterConfirmation` | pony/cli/input_queue.py:97-116 | a request is opened exactly if the queue is not closing and none is open |
| `InputQueue.Queue.Close` | pony/cli/input_queue.py:122-131 | pending inputs are discarded and the open request is denied |
| `InputQueue.Queue.NextInput` | pony/cli/input_queue.py:133-150 | the worker takes the first pending input, which is then claimed, or stops working |
| `InputQueue.Queue.Finish` | pony/cli/input_queue.py:152-160 | a terminal outcome discards what is pending and leaves nobody busy |
| `EnvLine.LineRoundTrip` | pony/config/environment.py:23-74 | for every valid name and every value without NUL, CR or LF the formatted line is read back as that name and value |
| `EnvLine.QuotedReadsBack` | pony/config/environment.py:23-56 | the comment scanner and the unquoting give back every JSON-quoted value |
| `EnvLine.DecodeEscaped` | pony/config/environment.py:23-35 | decoding inverts the escaping of section 7 of RFC 8259 |
| `EnvLine.EscapedStaysQuoted` | pony/config/environment.py:38-56 | inside double quotes an escaped text never closes the quote and never shows a comment |
| `EnvLine.ScanInlineComment` | pony/config/environment.py:38-56 | the scan with its quote and escape flags cuts where StripInlineComment says |
| `EnvReading.CommentExact` | pony/config/environment.py:38-56 | that is: at a #, behind whole segments of bare characters and closed quotes that hold no comment, at the start or right behind white space outside quotes, and nowhere else |
| `EnvReading.CutAtComment` | pony/config/environment.py:54-55 | of such a value the part before the # is left, without trailing white space |
| `EnvReading.NothingCut` | pony/config/environment.py:38-56 | a # inside quotes, or behind anything but white space, cuts nothing |
| `EnvReading.DecodeExact` | pony/config/environment.py:25-32 | the decoder accepts exactly the JSON strings of the grammar of section 7 of RFC 8259, and gives each its meaning |
| `EnvReading.EscapesAre` | pony/config/environment.py:151-152 | the writer escapes quote, backslash and control characters, by their short escape where there is one, and nothing else |
| `EnvReading.LineWritten` | pony/config/environment.py:151-152 | what is written is the name, = and the escaped characters of the value in double quotes |
| `EnvReading.StripExact` | pony/config/environment.py:24-60 | stripping takes off the white space at both ends and nothing else |
| `EnvReading.KeysAre` | pony/config/environment.py:18-18 | a key is an ASCII letter or underscore, then letters, digits and underscores |
| `EnvLines.AssignmentRead` | pony/config/environment.py:59-74 | a line with a = may be indented, exported, and have white space around its name; what stands before the first = must be a key, and the rest is the value |
| `EnvLines.NothingAssigned` | pony/config/environment.py:59-62 | a line assigns nothing, without an error, exactly if it is blank or its first character other than white space is a # |
| `EnvLines.NoEquals` | pony/config/environment.py:65-66 | any other line without a = is an error |
| `EnvLines.PlainRead` | pony/config/environment.py:59-74 | an unquoted value is what stands between = and the comment, stripped |
| `EnvLines.SingleRead` | pony/config/environment.py:33-74 | a single-quoted value is taken as it stands, with every # in it, whatever comment follows |
| `EnvLines.QuotedRead` | pony/config/environment.py:23-74 | a JSON-quoted value is read back whole, whatever comment follows |
| `EnvFile.ReadLines` | pony/config/environment.py:110-124 | the mapping of a file, later lines winning, bad lines skipped |
| `EnvFile.LastWins` | pony/config/environment.py:110-124 | a file gives a name a value exactly if one of its lines does, and the value is that of the last such line |
| `EnvFile.RenderedParses` | pony/config/environment.py:155-196 | line by line: the new file means the old one with the assignments laid over it |
| `EnvFile.RenderedLines` | pony/config/environment.py:155-196 | every other line stays, in order, with at most one blank line added, and each name has exactly one line |
| `EnvFile.RewrittenInPlace` | pony/config/environment.py:166-181 | the new line of a name stands where its first old one stood, the other lines before and behind it unchanged |
| `EnvFile.AddedInOrder` | pony/config/environment.py:182-187 | new lines stand in the order of the assignments |
| `EnvFile.AddedBehindBlank` | pony/config/environment.py:182-187 | new lines come last, behind an empty one exactly if there are any and the line before is not blank itself |
| `EnvFile.RenderIdempotent` | pony/config/environment.py:155-196 | rendering a rendered file changes nothing |
| `EnvFile.RewrittenParses` | pony/config/environment.py:166-181 | rewriting in place keeps every other value and gives each name met its new one, once |
| `EnvText.TextUpdateExact` | pony/config/environment.py:155-196 | as text: the rewritten file means the old one with the assignments laid over it if and only if no value holds U+0085, U+2028 or U+2029 |
| `EnvText.StableExactly` | pony/config/environment.py:155-196 | unless a later piece of a new line reads as an assignment to one of the names: rendering twice is rendering once if and only if no value holds U+0085, U+2028 or U+2029 |
| `EnvText.StableMeans` | pony/config/environment.py:155-196 | in any case, if rendering again changes nothing, every piece a new line falls into assigns one of the names |
| `EnvText.BrokenButStable` | pony/config/environment.py:155-196 | why that proviso is needed: two assignments whose rendering is stable although one value is broken |
| `EnvText.WideBreakLost` | pony/config/environment.py:138-196 | a value of one character U+0085 is accepted, does not survive the update, and a second rendering changes the text again |
| `EnvText.CleanTextUpdates` | pony/config/environment.py:155-196 | for values free of those: correct and idempotent on the text itself |
| `EnvText.RewrittenReadsClean` | pony/config/environment.py:93-125 | no line of the rewritten text ever gives one of the names a value with such a character |
| `EnvText.PieceReadsClean` | pony/config/environment.py:59-74 | neither does any piece a new line falls into |
| `EnvText.PiecesForm` | pony/config/environment.py:151-152 | a new line with such characters falls into a front without closing quote and fragments of an escaped text |
| `EnvText.RenderedSplits` | pony/config/environment.py:155-196 | without such characters the joined text comes apart into exactly the rendered lines |
| `EnvText.SplitPieces` | pony/config/environment.py:155-196 | a line written out and read back comes apart exactly at its own breaks |
| `EnvText.RenderProjectEnvUpdate` | pony/config/environment.py:155-196 | the loops compute the rewritten text and list each name as updated, added or unchanged |
| `EnvText.RewriteLines` | pony/config/environment.py:166-181 | the rewriting loop keeps the names seen and the old values of each name, in order |
| `EnvText.ListChanges` | pony/config/environment.py:182-196 | a name is added if no line had it, unchanged if one line had it with this value, else updated |
| `EnvSplits.ChangesMean` | pony/config/environment.py:182-196 | that is, of the lines themselves: added if no line assigned it, unchanged if one line alone assigned it and with this value |
| `EnvSplits.SplitExact` | pony/config/environment.py:110-156 | the lines of a text are the one way to cut it at its line ends, CR LF being one of them |
| `EnvSplits.UnlinesJoins` | pony/config/environment.py:188-191 | the rendered text is its lines, each with one newline behind it |
| `EnvText.ChangesPartition` | pony/config/environment.py:182-196 | the three lists partition the names |
| `EnvText.SecondTimeUnchanged` | pony/config/environment.py:182-196 | a second update with the same assignments reports every name unchanged |
| `Operands.OperandFragments` | pony/agent/verification.py:65-83 | the worklist ends and yields, without repetition, exactly the least set that holds the stripped token and, with each fragment, its stripped parts |
| `Operands.PartsExact` | pony/agent/verification.py:74-83 | the parts of a fragment: each side of a delimiter in it, and of an option the text behind its dashes, behind its first letter, and from its first later dot |
| `Operands.StripLayers` | pony/agent/verification.py:61-62 | stripping takes off white space, quotes of either kind, and white space again, and nothing else |
| `Operands.LeastUnique` | pony/agent/verification.py:65-83 | there is one such set, so the order of the worklist does not matter |
| `Operands.TakeFragment` | pony/agent/verification.py:70-83 | taking a fragment owes its parts, forgets nothing owed and adds nothing a closed set could do without |
| `Operands.WorkDone` | pony/agent/verification.py:65-83 | with the worklist empty the seen set is the least closed one |
| `Operands.StripOperandSub` | pony/agent/verification.py:61-62 | stripping yields a substring |
| `Operands.SidesAreFragments` | pony/agent/verification.py:73-76 | each non-empty side of a delimiter in the stripped token is a fragment |
| `McNemar.ClampExactlyAtTies` | benchmarks/memory_public/scoring.py:104-115 | twice the tail is at most 2^n exactly off a tie; at a tie it is 2^n plus the middle coefficient; the p-value is one exactly when the sides differ by at most one |
| `McNemar.PValueBounds` | benchmarks/memory_public/scoring.py:96-115 | the p-value is positive, at most one, and symmetric |
| `McNemar.LeaningLowers` | benchmarks/memory_public/scoring.py:104-115 | moving one discordant pair to the larger side strictly lowers the p-value |
| `McNemar.TailMirrors` | benchmarks/memory_public/scoring.py:104-115 | lower and upper tail of a row of binomial coefficients add up to the whole row |
| `McNemar.RowSum` | benchmarks/memory_public/scoring.py:104-115 | a row of binomial coefficients sums to 2^n |
| `McNemar.ChooseSymmetric` | benchmarks/memory_public/scoring.py:104-115 | binomial symmetry |
| `McNemar.ChooseIsQuotient` | benchmarks/memory_public/scoring.py:104-115 | the coefficients are n! / (k! (n - k)!) |
| `McNemar.McNemarExact` | benchmarks/memory_public/scoring.py:96-115 | fails exactly on different lengths; counts the places where only the left, and only the right vector is true, and returns the exact p-value over 2^n |
| `McNemar.SwapKeepsPValue` | benchmarks/memory_public/scoring.py:96-115 | swapping the vectors keeps the p-value |
| `Chunks.Allocate` | pony/context/chunks.py:75-126 | fails exactly if the required chunks do not fit together; otherwise the greedy choice in sorted order: selected and dropped are the input, totals are exact and within pool and caps, every required chunk is in, every dropped one carries the first limit it broke and would still not fit at the end; the values of source_tokens, however listed, add up to the used tokens |
| `Chunks.Fill` | pony/context/chunks.py:96-119 | the loop runs through exactly if the required chunks fit together, and makes the greedy choice |
| `Chunks.SourceTokensAddUp` | pony/context/chunks.py:120-126 | totals of distinct sources that cover all chunks add up to the total |
| `Chunks.OrderedFacts` | pony/context/chunks.py:87-95 | the order is a permutation, the required chunks first and among them, and among the others, smaller priorities first |
| `Chunks.OrderInFull` | pony/context/chunks.py:87-95 | the order by the chunks' own fields: required first, then smaller priority, then smaller rank (the input position where there is none), and what is equal in all that keeps the order of the input |
| `Chunks.SmallerPriorityWins` | pony/context/chunks.py:87-119 | of two optional chunks that fit alone but not together the one of smaller priority is selected, wherever it stands, and the other is dropped for its source's cap if that is exceeded, else for the pool |
| `Chunks.OneAlone` | pony/context/chunks.py:98-119 | one chunk is taken if it fits alone, and is dropped for the first limit it breaks otherwise |
| `Chunks.SelectStep` | pony/context/chunks.py:115-118 | taking a fitting chunk keeps all limits and makes no dropped chunk fit again |
| `Chunks.DropStep` | pony/context/chunks.py:101-114 | dropping keeps the partition |
| `Chunks.TooLarge` | pony/context/chunks.py:109-113 | a required chunk that does not fit shows that the required ones do not fit together |
| `Chunks.AllFit` | pony/context/chunks.py:96-126 | an allocation that runs through shows that they do |
| `TokenClip.EstimateMonotone` | pony/agent/model_capabilities.py:201-212 | a prefix never costs more tokens |
| `TokenClip.EstimateMeans` | pony/agent/model_capabilities.py:201-212 | the estimate is one token for each Han, kana or Hangul character, one for every four of the others begun, and one for every four structural ones begun, and one for an empty text |
| `TokenClip.LongestFitting` | benchmarks/memory_public/backends.py:37-43 | the binary search finds the longest prefix within the cap |
| `TokenClip.ClipIsLongest` | benchmarks/memory_public/backends.py:33-44 | for caps of at least one the clipped text is a prefix within the cap that ends in no white space, and every prefix within the cap is, trailing white space aside, part of it |
| `TokenClip.ClipText` | benchmarks/memory_public/backends.py:33-44 | computes that text |
| `TokenClip.ClipTokens` | pony/agent/compaction.py:303-320 | computes it without the last, cut line unless nothing else is left; still a prefix within the cap |
| `TokenClip.ClipContexts` | benchmarks/memory_public/backends.py:47-70 | the texts that fit the budget together and what is left of the next one, joined by blank lines; the parts never use more than the budget, and the joined text keeps it exactly if a condition on texts and budget holds |
| `TokenClip.JoinedFitsExactly` | benchmarks/memory_public/backends.py:47-70 | that condition, computed from the inputs: with the separators counted in, the characters of the parts to be selected are few enough |
| `TokenClip.AllFitJoined` | benchmarks/memory_public/backends.py:47-70 | texts that fit the budget together keep it joined exactly if they do so with their separators counted in |
| `TokenClip.JoinedWithin` | benchmarks/memory_public/backends.py:47-70 | whatever the texts, the budget is exceeded by at most 2 * (k / 2) tokens for k texts that are not blank, and not at all for one |
| `TokenClip.CutIsBehind` | benchmarks/memory_public/backends.py:47-69 | where the loop stops is fixed by the inputs: behind the texts that fit together |
| `TokenClip.SelectContexts` | benchmarks/memory_public/backends.py:47-69 | the selecting loop: whole texts while they fit, then at most one clipped |
| `TokenClip.JoinedCosts` | benchmarks/memory_public/backends.py:70-70 | the joined text costs exactly what the counts of its parts and the separators say |
| `TokenClip.JoinAppend` | benchmarks/memory_public/backends.py:70-70 | joining puts a blank line between any two texts, and nothing else |
| `TokenClip.JoinedBound` | benchmarks/memory_public/backends.py:70-70 | joining k parts costs at most 2 * (k / 2) tokens more than the parts |
| `TokenClip.JoinedCanOverrun` | benchmarks/memory_public/backends.py:47-70 | of two texts of one token each both are selected for a budget of two, and their join costs more |

## Left out

- RunLoop.AgentRun.RunTurn: assumes that trace events can be written, that every field of an event is safe to show (a whole field that is not, such as a request's metadata or a tool's name, is dropped from the event, observability.py:142-157), and that an append which raises was not done; the recovery of a commit that raised after it was done is not modelled. An interrupt from the keyboard is modelled in provider, summary and tool calls only. What a failing start, preflight, request building or read of the Session raises is one exception, without its cause.
- RunLoop.AgentRun.CompactSession: whether a plan exists, which summaries it needs and whether they pay is nondeterministic here; the planner and the commit decision are proved in module Compaction.
- RunLoop.AgentRun.ExecuteTool: permissions, path policy and the tools themselves; a tool is any listed status or an exception, writes the Session only if it is a Session tool, and is assumed never to raise a SessionCommitError itself.
- Session.SessionStore.ForeignSteps: a leaf id is the number of entries up to it, so ids are never reused, and the binding changes only together with an entry.
- Session.SessionStore.AppendEntries: the tree of branches and the file behind it; only the growing branch is modelled.
- Trace.ValidateTrace: the envelope and field-safety filters are one uninterpreted outcome per event; the streaming fields keep their own conditions.
- RunSummary.CrossCheck: only the tool totals of the report; usage totals, changed paths, partial successes and rates are not specified.
- Transcript.ValidateMessages: the item shapes of provider state, the shape of tool names and inputs and text-block fields are flags of the message.
- Compaction.BuildCompactionPlan: entry costs are given; the accounting cache and a provider's own token counter are not modelled, and such a counter need not be monotone.
- Streaming.SafeTextPreview.TextDelta: what the display answers is nondeterministic, and a failing display is recorded, not predicted; a projection is a function of the snapshot.
- InputQueue.Queue.StartWorker: a thread whose start raised is assumed never to have run; an interrupt while the start waits for the new thread could leave two workers.
- SessionTranscript.AppendsKeepGrammar: the messages of entries as the run writes them, well-shaped, and without regard to which of them a compaction entry hides from the view.
- InputQueue.Queue.AnswerConfirmation: reading the typed answer is a boolean; the callbacks are not modelled, and one that fails is an answer of no.
- EnvLine.LineRoundTrip: an escape that names a lone surrogate reads as invalid, because Dafny has no such character; formatted lines never hold one.
- EnvText.RenderProjectEnvUpdate: size limits, permissions, locking and the atomic write of the file.
- McNemar.McNemarExact: the p-value is a whole numerator over 2^n, so the division to a float is left out.
- TokenClip.LongestFitting: the estimator counts tokens; a provider's counter, under which a binary search may miss the longest prefix, is left out. Membership in the structural Unicode categories is a parameter.
- Chunks.Allocate: chunk contents and provenance other than the rank; the priority is a number in the order of its names.
- Operands.OperandFragments: what is then checked of each fragment.
- Branch summaries, file facts, checkpoints' contents, the plan-mode refresh and tool-result digests: branch-by-branch, easy members.
- Provider transports, probing, git, subprocesses, terminal interface, configuration and benchmark runners: effects or long but easy code.
- Clocks, sleeps and identifiers: nondeterministic or given.
