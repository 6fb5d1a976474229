# A verified model of the oclaw core

oclaw is an agent runtime with many chat channels around it. This project models its self-contained
algorithms and state machines and proves what they keep over every input or every run.

| module | models |
|---|---|
| `TaskGraph`, `TaskRunner`, `TaskRunnerInvariant`, `TaskRunnerSafety`, `TaskRunnerPromise`, `TaskRunnerFlight`, `TaskRunnerInputs`, `TaskRunnerConfluence`, `TaskRunnerRace`, `Templates` | validation of task graphs; the concurrent runner as a step system in which tasks finish in any order or panic |
| `Chat`, `TranscriptRepair`, `DuplicateCounter`, `History`, `Compaction`, `Pruning`, `ContextGuard`, `AgentTurn`, `AgentRun`, `Agent` | the conversation history from a loaded transcript to each request of the tool loop |
| `LoopDetect`, `LoopVerdicts` | the loop detector's sliding window and streak counters, and what its verdicts mean |
| `CronSchedule`, `Cron` | interval schedules, backoff, and the life of a job under every interleaving of scheduler and service |
| `FragmentReassembly` | reassembly of fragmented Feishu frames |
| `MessageQueue` | the per-session message queue against logs of what went in and out |
| `SendLimiter`, `SessionRateLimiter`, `EchoDetect` | token bucket, keyed sliding window, echo index |
| `Fences`, `Weaving`, `ChunkBreaks`, `ChunkTurn`, `ChunkEnds`, `StreamChunker`, `TelegramSplit` | splitting text for streaming and for Telegram |
| `Prelude`, `Text` | shared helpers: options, trimming, UTF-8 sizes |

Objects whose methods change fields are classes with `modifies` clauses; loops are `while` or `for` loops with
invariants. Each such method is tied by its `ensures` to a function of the old state, and the properties are
proved about that function and about sequences of operations. Values the model cannot see are parameters: what
a subagent, the model provider, a tool or the tokenizer answers is an arbitrary function, hashes are an
arbitrary function of the text, and clocks are explicit.

## Where the code and what is said about it differ

- `AllSucceeded` is documented as "every activated node completed". Activation does not follow dependencies, so
  an activated node can be skipped. The promise holds for all runs of a graph if and only if every dependency of
  a node that success activates is activated too (`TaskRunnerPromise.AllSucceededPromiseIff`); `SkippedNode`
  gives valid graphs on which it fails.
- `with_max_concurrent` is described as the maximum of in-flight nodes. It bounds the tasks that hold a permit;
  nodes leave `in_flight` only when joined. A number bounds the nodes in flight in all runs of a graph if and only if
  it bounds every front that joining nodes one by one, with either outcome, can leave; the permits play no part
  (`TaskRunnerFlight.InFlightBoundIff`). The first front is the roots.
- The order in which tasks finish can show in the results, through inputs alone. It cannot, whatever the subagents
  answer, if and only if no node whose source shows in its input has two starts, along orders of joins that agree on
  every outcome, at one of which the source is done and at the other not (`TaskRunnerRace.OrderFreeIff`). Inputs from
  direct or indirect dependencies, or from the only node that activates the taker, meet this
  (`TaskRunnerConfluence.Confluence`); the graphs of `TaskRunnerRace.OrderShows` do not.
- `limit_history_turns` keeps the last N user turns only if there are at least N; with fewer it drops the whole
  conversation and keeps the system prefix (`History.DocumentedLimitIff`).
- Compaction keeps nothing of the conversation when everything fits the budget, as well as when the last message
  alone exceeds it (`Compaction.NothingKeptIff`). The request for the summary is a bare prefix and a prompt; its calls
  are answered if and only if no call before the split has its first result behind it
  (`Compaction.SummaryRequestAnsweredIff`), which for a freshly loaded history means that the message behind the split
  is no tool result (`Compaction.LoadedSummaryRequestIff`). The budget can pick another split
  (`Compaction.BudgetCanPartPair`). So the promise that every request is sound is one about the requests for replies;
  the tool loop logs each compaction with its history and split, and this condition holds of each.
- Repair pairs an id once. If two messages call the same id, the later call stays without a later result:
  all calls are answered if and only if no two messages call the same id (`TranscriptRepair.RepairAnswersIff`).
  `dropped_duplicates` counts all results of an id again for every repeated call, so it is not a number of dropped
  messages. It is the sum of what each called id adds, and an id adds what it loses if and only if it has no result, or
  one call and one result (`DuplicateCounter.DuplicatesById`, `DuplicateCounter.ShareIsRightIff`). When no id is called
  twice it stays at zero (`TranscriptRepair.DuplicatesUncounted`); on a repaired transcript, which loses nothing more,
  it is the number of repeated calls (`TranscriptRepair.SecondReportDuplicates`).
- A run stopped by the loop detector leaves the call it stopped at and all behind it without results. The history
  stays answered if and only if each of those calls shares its id with one before it in the message
  (`AgentTurn.StoppedAnsweredIff`). A model that keeps making one call that keeps giving one answer always ends so
  (`AgentRun.StubbornRun`).
- Halving the largest results after an overflow has no smallest size: it shortens none of 49 bytes or less
  (`AgentTurn.OverflowCutShrinksIff`) and can lengthen a line of 100 (`AgentTurn.OverflowCutOfLineIff`); the context guard's halving always shortens (`ContextGuard.HalvingMeaning`).
- An interval schedule whose anchor lies in the future first runs at anchor + every
  (`CronSchedule.NextRunIsLeastIff`). A job with its retry budget used up is described as disabled until a manual
  trigger, but a trigger revives neither an exhausted job nor one in backoff (`Cron.TriggerMakesDueIff`,
  `Cron.ExhaustedForever`).
- `mark_run_complete` keeps the order of delivery if and only if nothing is pending; otherwise the next message
  overtakes those that wait (`MessageQueue.MarkRunCompleteKeepsOrderIff`).
- `remember` does nothing while the exact text is still indexed, although a lookup may have used up the key of its
  normal form: a second echo of a text sent twice can be missed (`EchoDetect.RememberedIsKnownIff`,
  `EchoDetect.SecondEchoMissed`).
- `forget` removes an echo from the set and leaves it in the deque, and so breaks their agreement whenever it forgets
  anything (`EchoDetect.ForgetAgreesIff`). Remembered again, the text can be lost when the stale entry is evicted
  (`EchoDetect.EvictionLosesLiveKeyIff`, `EchoDetect.ForgottenTwinEvicts`).
- The clamp of a send limiter's sleep makes one sleep enough for every token level only for rates of at least one
  per second (`SendLimiter.OneSleepSufficesIff`); all configured rates are.
- `split_message` loops for ever on a text with a character wider than the limit, and only then
  (`TelegramSplit.TerminatesIff`); a limit of four or more is safe for every text. It can emit an empty chunk
  (`TelegramSplit.EmptyChunkIff`).
- A drain of the stream chunker loops for ever if and only if it comes to a turn that does not shrink the buffer
  (`ChunkEnds.LoopEndsIff`), and such a turn is one whose whole window is a fence line with at most a line feed
  (`ChunkTurn.StandsStillIff`). Every usable setting has texts on which that happens (`ChunkEnds.AlwaysEndsIff`); it
  does not on text whose fence lines are all short (`StreamChunker.ShortStreamEnds`).
- The chunker closes a fence that the chunk leaves open with three markers. The chunk is then balanced if and only if
  the fence was opened with three; a fence that ends exactly with the chunk is closed and reopened as well, which
  unbalances it (`ChunkTurn.EmittedIsBalancedIff`).

## Model

| member | source | states |
|---|---|---|
| `TaskGraph.Validate` | crates/agent-core/src/task_graph.rs:78-166 | accepts exactly the graphs with non-empty distinct trimmed ids, known references and no dependency cycle; the error is that of the first check that fails, at the first node, and there the first reference, that fails it |
| `TaskGraph.CheckIds` | crates/agent-core/src/task_graph.rs:78-88 | the id loop accepts exactly non-empty and pairwise distinct trimmed ids; an error is about the first node whose id is empty or taken |
| `TaskGraph.CheckReferences` | crates/agent-core/src/task_graph.rs:90-124 | the reference loop accepts exactly when every dependency, branch target and input source is a node; an error names the first missing one of the first node that has one, dependencies before success targets, failure targets and the input source |
| `TaskGraph.CheckAcyclic` | crates/agent-core/src/task_graph.rs:126-163 | counting popped nodes with in-degrees and a queue, duplicate dependencies included, decides the absence of cyclic dependency paths |
| `TaskGraph.StuckSetHasCycle` | crates/agent-core/src/task_graph.rs:126-163 | a non-empty set in which each node waits for another of the set contains a cycle |
| `TaskGraph.AllPoppedIffAcyclic` | crates/agent-core/src/task_graph.rs:147-163 | when the queue is empty, all nodes were popped if and only if the graph is acyclic |
| `TaskRunnerInvariant.CollectedBatch` | crates/agent-core/src/task_graph.rs:173-191 | the collected batch is exactly the activated, unjoined, not-in-flight nodes with completed dependencies, each once, with its resolved input |
| `TaskRunner.ResolvedMeaning` | crates/agent-core/src/task_graph.rs:191-212 | the input is the output of the source, or nothing while that has not completed, joined into the parts between the placeholders of the template if there is one; without a source the node's base input, and without one the input of the run |
| `Templates.SplittingIsUnique` | crates/agent-core/src/task_graph.rs:202-203 | a template is in exactly one way parts that hold no placeholder, joined by the placeholder |
| `Templates.ReplacedIff` | crates/agent-core/src/task_graph.rs:202-203 | replacing the placeholder joins these parts by the output |
| `TaskRunnerInvariant.ReachableInv` | crates/agent-core/src/task_graph.rs:269-367 | every reachable state: completed, failed, executing, finished and batched exclude each other, in-flight is executing or finished, whatever started was activated with completed dependencies, and no startable node is overlooked |
| `TaskRunnerInvariant.ReachableActivation` | crates/agent-core/src/task_graph.rs:335-355 | in every reachable state a node is activated if and only if it is a root or a branch target of a joined node with that outcome |
| `TaskRunnerSafety.RunsAreBounded` | crates/agent-core/src/task_graph.rs:294-357 | every run has at most 5n+3 steps and n+1 loop iterations, and permit holders never exceed the limit |
| `TaskRunnerSafety.NoDeadlock` | crates/agent-core/src/task_graph.rs:294-357 | a run that has not ended can go on without a panic |
| `TaskRunnerSafety.NodesAreExclusive` | crates/agent-core/src/task_graph.rs:275-355 | no node starts twice; completed, failed and in-flight are disjoint and together are the started nodes |
| `TaskRunnerSafety.SpawnsAreReady` | crates/agent-core/src/task_graph.rs:310-326 | a spawned node was never started, is activated, and has every dependency completed |
| `TaskRunnerSafety.RunGrows` | crates/agent-core/src/task_graph.rs:331-355 | recorded outcomes, starts and activations are never changed or withdrawn |
| `TaskRunnerSafety.FailedDependencyBlocks` | crates/agent-core/src/task_graph.rs:173-191 | a node with a failed direct or indirect dependency never starts, before or after the failure |
| `TaskRunnerSafety.NothingStartableRemains` | crates/agent-core/src/task_graph.rs:325-330 | at the end each activated node is completed, failed or has an uncompleted dependency |
| `TaskRunnerSafety.AllCompleteIffClosed` | crates/agent-core/src/task_graph.rs:224-226 | after a run without failures, all activated nodes completed exactly when the activated set is closed under dependencies |
| `TaskRunnerConfluence.Confluence` | crates/agent-core/src/task_graph.rs:294-357 | when every input comes from a direct or indirect dependency or from the only node whose success activates the taker, any two complete runs, whatever the order and the concurrency limits, end with equal completed and failed maps and activated sets |
| `TaskRunnerRace.OrderFreeIff` | crates/agent-core/src/task_graph.rs:294-357 | for a valid graph and any limits, all complete runs under every behaviour end alike if and only if the source of every varying input is done at all agreeing starts of its taker or at none, a condition on the graph |
| `TaskRunnerConfluence.SettledRunsAgree` | crates/agent-core/src/task_graph.rs:294-357 | on graphs that meet it any two complete runs end alike |
| `TaskRunnerRace.UnsettledRaces` | crates/agent-core/src/task_graph.rs:294-357 | two agreeing starts of a node, with its source done at one only, give a behaviour and two complete runs that end differently |
| `TaskRunnerInputs.RunRecorded` | crates/agent-core/src/task_graph.rs:294-357 | in every reachable state each started node started where the last join made it startable, and all that is held of it comes from the input of that moment |
| `TaskRunnerInputs.VariesIff` | crates/agent-core/src/task_graph.rs:194-212 | the output of the source shows in the input if and only if there is no template or it holds the placeholder |
| `TaskRunnerRace.OrderShows` | crates/agent-core/src/task_graph.rs:294-357 | valid three-node graphs on which the order shows: a node with an input from one it neither needs nor is activated by |
| `TaskRunnerPromise.SuccessIsStatic` | crates/agent-core/src/task_graph.rs:294-366 | what a run without failures completes and activates is computed from the graph alone |
| `TaskRunnerPromise.AllSucceededPromiseIff` | crates/agent-core/src/task_graph.rs:224-226 | the documented meaning of `AllSucceeded` holds for all runs of a valid graph if and only if the success-activated nodes are closed under dependencies, a condition on the graph |
| `TaskRunnerPromise.SkippedNode` | crates/agent-core/src/task_graph.rs:224-226 | valid three-node graphs with a run in which an activated node is skipped and `AllSucceeded` is still reported |
| `TaskRunnerFlight.InFlightBoundIff` | crates/agent-core/src/task_graph.rs:253-257 | a number bounds the nodes in flight in all runs of a valid graph, whatever the subagents answer, if and only if it bounds every front that joining nodes one by one, with either outcome, can leave |
| `TaskRunnerFlight.FrontInFlight` | crates/agent-core/src/task_graph.rs:294-357 | for every order of joins and any number of permits some run has exactly the front it leaves in flight |
| `TaskRunnerFlight.RunJoins` | crates/agent-core/src/task_graph.rs:331-355 | every run joins its nodes in such an order |
| `TranscriptRepair.RepairToolUseResultPairing` | crates/agent-core/src/transcript_repair.rs:17-93 | the loops compute the repaired transcript and the report with its four counts |
| `TranscriptRepair.RepairKeepsNonTool` | crates/agent-core/src/transcript_repair.rs:40-77 | all messages other than tool results survive, in order |
| `TranscriptRepair.RepairEmitsOnePerCall` | crates/agent-core/src/transcript_repair.rs:40-77 | the emitted results carry the distinct called ids in order of first call, and no others |
| `TranscriptRepair.RepairPlacesResults` | crates/agent-core/src/transcript_repair.rs:40-77 | every emitted result lies in the block directly after the message of the input that is the first to call its id; it is the first input result for that id, and only if there is none an error in the name of the first call of the id |
| `TranscriptRepair.ReportMeaning` | crates/agent-core/src/transcript_repair.rs:65-127 | the report counts the called ids without a result and the positions with a result that no message calls, and tells whether the ids of the results come in another order |
| `TranscriptRepair.RepairIdempotent` | crates/agent-core/src/transcript_repair.rs:17-93 | repairing a repaired transcript changes nothing |
| `TranscriptRepair.SecondReportIsClean` | crates/agent-core/src/transcript_repair.rs:79-127 | the second repair reports no synthetic result, no orphan and no move |
| `TranscriptRepair.SyntheticCount` | crates/agent-core/src/transcript_repair.rs:65-74 | `added_synthetic` is the number of called ids without a result |
| `TranscriptRepair.RepeatTallyZero` | crates/agent-core/src/transcript_repair.rs:53-64 | `dropped_duplicates` is zero exactly when no id with a result is called again |
| `TranscriptRepair.DuplicatesUncounted` | crates/agent-core/src/transcript_repair.rs:53-64 | when no id is called twice the counter is zero, and it is the number of dropped results of called ids if and only if no called id has two results |
| `DuplicateCounter.DuplicatesById` | crates/agent-core/src/transcript_repair.rs:53-64 | the counter is the sum of what each called id adds to it, and the number of dropped results the sum of what each loses |
| `DuplicateCounter.ShareIsRightIff` | crates/agent-core/src/transcript_repair.rs:53-64 | what a called id adds is what it loses if and only if it has no result, or one call and one result |
| `TranscriptRepair.SecondReportDuplicates` | crates/agent-core/src/transcript_repair.rs:53-64 | on a repaired transcript no result is dropped, and the counter is the number of repeated calls, zero if and only if no id is called twice |
| `TranscriptRepair.RepairAnswersIff` | crates/agent-core/src/transcript_repair.rs:17-93 | every call has a later result after repair if and only if no two messages call the same id |
| `Chat.AppendKeepsPairing` | crates/agent-core/src/agent.rs:562-672 | appending a message makes its calls pending and lets a result settle the first pending call |
| `Chat.ShapeKeepsPairing` | crates/agent-core/src/pruning.rs:43-66 | editing only the contents of tool results keeps calls answered, results owned, tool messages without calls, and the set of called ids |
| `History.LimitHistoryTurns` | crates/agent-core/src/history.rs:5-57 | the loops compute the system prefix followed by the paired messages of the last turns |
| `History.LimitedIsPrefixAndTurns` | crates/agent-core/src/history.rs:10-57 | the result is the whole system prefix and then, from the user message that starts the last turns, everything but orphaned results; with too few turns only the prefix |
| `History.LimitKeepsAnswered` | crates/agent-core/src/history.rs:20-57 | limiting keeps every remaining call answered later |
| `History.LimitDropsOrphans` | crates/agent-core/src/history.rs:40-57 | a positive limit leaves no result whose call was cut away |
| `History.TurnsKept` | crates/agent-core/src/history.rs:20-38 | a positive limit keeps exactly that many user turns, or none if there are fewer |
| `History.DocumentedLimitIff` | crates/agent-core/src/history.rs:3-33 | the documented behaviour holds if and only if there are enough turns or none |
| `Compaction.FindSplit` | crates/agent-core/src/compaction.rs:114-128 | the split is the place where the kept messages fit the budget and one more would not, the list length if all fit, and at least one |
| `Compaction.CompactHistory` | crates/agent-core/src/compaction.rs:102-181 | the new history is the system prompt and summary followed by exactly the messages after the split; it fails only with the summarizer |
| `Compaction.HeaderMeaning` | crates/agent-core/src/compaction.rs:108-181 | in front of what is kept stand the first system message, if there is one, and the summary under its heading |
| `Compaction.CompactionDueIff` | crates/agent-core/src/compaction.rs:48-55 | compaction is due when something is used and what is used and what is reserved exceed the model's limit together |
| `Compaction.CompactionKeepsPairing` | crates/agent-core/src/compaction.rs:130-181 | a compacted history keeps every remaining call answered |
| `Compaction.NothingKeptIff` | crates/agent-core/src/compaction.rs:115-126 | nothing is kept verbatim exactly when everything fits the budget or the last message does not |
| `Compaction.SummaryRequestAnsweredIff` | crates/agent-core/src/compaction.rs:130-140 | for every answered history, the prefix sent to the summarizer has its calls answered if and only if no call before the split has its first result behind it |
| `Compaction.UniquePartsIff` | crates/agent-core/src/compaction.rs:130-140 | when no id has two results, that is any result behind the split for a call before it |
| `Compaction.UniqueThenIff` | crates/agent-core/src/agent.rs:585-672 | adding messages keeps results unique if and only if they answer distinct ids that had no result |
| `Compaction.LoadedSummaryRequestIff` | crates/agent-core/src/compaction.rs:130-140 | for a repaired transcript without reused ids the request is answered if and only if the message behind the split is no tool result |
| `Compaction.BudgetCanPartPair` | crates/agent-core/src/compaction.rs:114-140 | the budget can pick a split that parts a call from its result |
| `ContextGuard.TruncateToolResults` | crates/agent-core/src/context_guard.rs:82-139 | the two in-place passes compute cutting of oversized results and up to five halvings of the largest |
| `ContextGuard.FirstPassMeaning` | crates/agent-core/src/context_guard.rs:86-104 | the first pass changes exactly the oversized tool results: each keeps the longest front part within the limit, cut back to its last newline, and the note with its size |
| `ContextGuard.HalvingMeaning` | crates/agent-core/src/context_guard.rs:116-137 | a halving edits the last of the largest tool results only, keeps the longest front part within half its bytes, cut back to its last newline, and with the note is shorter than before |
| `ContextGuard.GuardEditsOnlyToolContents` | crates/agent-core/src/context_guard.rs:82-139 | only contents of tool results change |
| `ContextGuard.HalvingEnds` | crates/agent-core/src/context_guard.rs:106-138 | the second pass is that many rounds one after another, each of them over the budget, and stops when the budget is met, all rounds are spent, or there is nothing to halve |
| `ContextGuard.HalveLargestIs` | crates/agent-core/src/context_guard.rs:112-137 | a round halves the last of the largest tool results if that has more than 200 bytes, and otherwise there is nothing to halve |
| `ContextGuard.GuardMeaning` | crates/agent-core/src/context_guard.rs:82-139 | after the first pass at most five rounds follow; the result is within the budget, or five were made, or no tool result has more than 200 bytes |
| `ContextGuard.BudgetMeaning` | crates/agent-core/src/context_guard.rs:52-80 | the budget is a share of the window in whole tokens and at least 16 000, the limit of one result a share of that; the guard acts on more than the budget and warns on more than 32 000 and three quarters of it |
| `Pruning.PruneToolResults` | crates/agent-core/src/pruning.rs:24-66 | the loop rewrites each message by the size rules unless its id is protected |
| `Pruning.ProtectedIdsSpec` | crates/agent-core/src/pruning.rs:25-41 | an id is protected exactly when one of the last N assistant messages calls it |
| `Pruning.PruningEditsOnlyToolContents` | crates/agent-core/src/pruning.rs:43-66 | pruning changes nothing but contents of tool results |
| `Pruning.RecentResultsVerbatim` | crates/agent-core/src/pruning.rs:43-53 | results of the last N assistant messages stay verbatim |
| `Pruning.OnlyLargeOldResultsChange` | crates/agent-core/src/pruning.rs:43-66 | whatever changes is a tool result above a size limit that none of the last N assistant messages called |
| `Pruning.PruningMeaning` | crates/agent-core/src/pruning.rs:24-66 | each tool result that none of the last N assistant messages called becomes, above the larger limit, a note with its size, above the smaller one its longest front and its end within their limits with a note between them, and below both stays |
| `AgentTurn.PreparedIsSound` | crates/agent-core/src/agent.rs:280-289 | a request prepared from a sound history has every call answered and, under a positive limit, no orphan |
| `AgentTurn.PreparedMeaning` | crates/agent-core/src/agent.rs:280-289 | a request is the history pruned, if that is configured, and then limited, if that is |
| `AgentTurn.HalvingKeepsSound` | crates/agent-core/src/agent.rs:439-458 | halving the largest result after an overflow keeps the history sound |
| `AgentTurn.OverflowMeaning` | crates/agent-core/src/agent.rs:439-458 | the last of the largest tool results is cut and nothing else changes, or there is no tool result |
| `AgentTurn.OverflowCutShrinksIff` | crates/agent-core/src/agent.rs:439-458 | the cut keeps a longest front part within half the bytes and shortens every result of 101 bytes or more and none of 49 or less |
| `AgentTurn.OverflowCutOfLineIff` | crates/agent-core/src/agent.rs:439-458 | of one-line ASCII results it shortens exactly those of 99 bytes and those of 101 or more |
| `AgentTurn.GuardKeepsSound` | crates/agent-core/src/agent.rs:502-520 | the context guard keeps the history sound |
| `AgentTurn.GuardActsIff` | crates/agent-core/src/agent.rs:502-520 | the guard edits the history if and only if it is configured and more than the budget is used |
| `AgentTurn.CallContentMeaning` | crates/agent-core/src/agent.rs:618-660 | an executed call is answered with its error or its output, whole up to 400 000 bytes and else the longest front that leaves room for the note, back to a late last newline; the answer to a call that is not approved does not depend on the tool |
| `AgentTurn.TruncationMeaning` | crates/agent-core/src/agent.rs:364-380 | such an output keeps the longest front within the larger of 2 000 bytes and what the note leaves, cut back to its last newline if that loses less than a fifth |
| `AgentTurn.WithPromptKeepsPairing` | crates/agent-core/src/agent.rs:204-268 | putting the current system prompt in front keeps and adds no unanswered call |
| `AgentTurn.WithPromptMeaning` | crates/agent-core/src/agent.rs:204-268 | the prompt stands in front of the messages, in place of the system message that stood there, if one did |
| `Agent.Agent.Initialize` | crates/agent-core/src/agent.rs:204-268 | a loaded transcript becomes the repaired one under the current prompt, and the history is sound if and only if no two messages call the same id |
| `Agent.Agent.TryCompact` | crates/agent-core/src/agent.rs:683-710 | below the threshold nothing happens; above it a lawful split is logged with the history it is about, and the history becomes header and suffix with the summarizer's answer to that request, or stays when it fails |
| `Agent.Agent.SendRequest` | crates/agent-core/src/agent.rs:495-560 | compaction and guard come first, exactly the request prepared from what they leave is recorded, and the reply is the model's to it |
| `Agent.Agent.RunToolCall` | crates/agent-core/src/agent.rs:585-672 | the call is made as `AgentRun.CallStep` says: a critical verdict on the window before it stops the run with only its record added, and otherwise history, transcript and window are what the call leaves |
| `Agent.Agent.RunToolCalls` | crates/agent-core/src/agent.rs:585-672 | the calls run one after another to the end, or up to one that the detector stops |
| `AgentRun.CallMeaning` | crates/agent-core/src/agent.rs:585-672 | one call, unless its verdict is critical, adds a warning if the verdict is one and its result behind it to the history, and only if it is executed the result to the transcript |
| `AgentRun.CallIsRecorded` | crates/agent-core/src/agent.rs:585-660 | it adds to the last 29 records of the window its name, its hash, and the hash of its result if it was executed |
| `AgentRun.CallsRunPaired` | crates/agent-core/src/agent.rs:585-672 | after the first k calls each of them has one result, in order, and the others are open |
| `AgentRun.RunThroughUniqueIff` | crates/agent-core/src/agent.rs:585-672 | running all calls of a message keeps results unique if and only if the calls have distinct ids without results |
| `AgentRun.CallsStopAnsweredIff` | crates/agent-core/src/agent.rs:585-672 | a stop at a call leaves exactly the results of those before it, and the history sound if and only if the calls from there on repeat earlier ids |
| `Agent.Agent.HandleReply` | crates/agent-core/src/agent.rs:537-672 | the first three overflows cut the largest tool result, and nothing else changes; any other failure ends the run as it is; an answer without calls ends it, and one with calls runs them |
| `AgentTurn.StoppedAnsweredIff` | crates/agent-core/src/agent.rs:585-672 | after a stop the history is answered if and only if each call from the stop on shares its id with one before it in the message |
| `Agent.Agent.RunIteration` | crates/agent-core/src/agent.rs:461-681 | one iteration is one of `AgentRun.Iterations`: compaction, guard, the reply to the request prepared from what they leave, and its handling; its request and its compactions are the ones recorded |
| `Agent.Agent.RunWithTools` | crates/agent-core/src/agent.rs:461-681 | the loop makes a run of at most max_iterations iterations, each from where the one before left off, from the history with the user's message as given and what memory has to it, which is saved too; the requests and compactions recorded are those of the run, and all of `AgentRun.MadeIsPromised` holds of them (resending one on an error is left out) |
| `AgentRun.StartMeaning` | crates/agent-core/src/agent.rs:466-487 | the turn starts from the history, the user's message as given, and one recalled message if memory has one |
| `AgentRun.MadeIsPromised` | crates/agent-core/src/agent.rs:461-681 | of every run from a sound history: the first request is prepared from the start of the turn, with at most one compaction and edits of tool results between; all requests are sound and all compactions lawful; the history left is sound unless the loop detector stopped the run; a stubborn model and more than 30 iterations always end so |
| `AgentRun.RunIsSound` | crates/agent-core/src/agent.rs:461-681 | every request of a run is sound, every compaction is of a sound history at a lawful split, and what is left is sound unless the detector stopped it |
| `AgentRun.RunKeepsStart` | crates/agent-core/src/agent.rs:461-681 | in a run without compactions the history keeps the start of the turn in front, up to the contents of tool results |
| `AgentRun.StubbornRun` | crates/agent-core/src/agent.rs:461-681 | a run in which the model repeats one call with one result is stopped within 31 iterations and leaves that call open |
| `AgentRun.ConstantAnswersAreStubborn` | crates/agent-core/src/agent.rs:585-672 | a model that always makes one call of an ungated tool that always succeeds with one output is such a model |
| `LoopDetect.LoopDetector.Record` | crates/agent-core/src/loop_detect.rs:85-96 | pushes a record and keeps the last thirty |
| `LoopDetect.LoopDetector.RecordOutcome` | crates/agent-core/src/loop_detect.rs:98-103 | sets the result of the last record, whose call stays, and no other |
| `LoopDetect.LoopDetector.NoProgressStreak` | crates/agent-core/src/loop_detect.rs:174-193 | the backward loop counts the tail of identical calls with identical results |
| `LoopDetect.LoopDetector.PingPongStreak` | crates/agent-core/src/loop_detect.rs:195-276 | the four loops compute the alternating tail and whether both sides keep their results |
| `LoopDetect.LoopDetector.Detect` | crates/agent-core/src/loop_detect.rs:105-172 | the loops compute the verdict that `LoopVerdicts.VerdictIff` describes, with its reason |
| `LoopVerdicts.VerdictIff` | crates/agent-core/src/loop_detect.rs:105-172 | when the verdict is critical, and when a warning: not critical, and a poll tool with 10 identical calls and results at the tail, or an alternation of 9 calls that leads to this one, or another tool with 10 positions of this name and hash in the window |
| `LoopVerdicts.ReasonMeaning` | crates/agent-core/src/loop_detect.rs:105-172 | a reason is given exactly with a critical verdict or a warning, and the count in it is the length of the tail, of the alternation with this call, or the number of positions |
| `LoopVerdicts.PollToolIff` | crates/agent-core/src/loop_detect.rs:10-18 | the poll tools are command_status, and process where the argument text has "poll" or "log" in quotes |
| `LoopVerdicts.WindowIsLastThirty` | crates/agent-core/src/loop_detect.rs:85-96 | after any calls the window is the last thirty of them |
| `LoopDetect.CriticalIff` | crates/agent-core/src/loop_detect.rs:105-276 | a verdict is critical if and only if the window ends in 30 identical calls with one result (20 for a poll tool), or in an alternation of at least 19 calls with constant results that leads to this call |
| `LoopDetect.RepetitionIsStopped` | crates/agent-core/src/loop_detect.rs:85-172 | a call executed 30 times with one result (20 for poll tools) from any window is Critical the next time |
| `LoopDetect.AlternationIsStopped` | crates/agent-core/src/loop_detect.rs:85-276 | a no-progress alternation is Critical after 19 calls from an empty window and after 30 from any |
| `CronSchedule.NextRunOnGrid` | crates/cron-core/src/schedule.rs:11-28 | the next run is on the anchor grid and strictly after now; the reschedule guard cannot fire |
| `CronSchedule.NextRunIsLeastIff` | crates/cron-core/src/schedule.rs:11-28 | it is the least grid instant after now if and only if the anchor is not in the future |
| `CronSchedule.BackoffTable` | crates/cron-core/src/backoff.rs:1-14 | the delay after each number of errors |
| `Cron.CronService.Add` | crates/cron-core/src/service.rs:30-41 | appends the job with its first run computed |
| `Cron.CronService.Update` | crates/cron-core/src/service.rs:54-79 | patches exactly the first job with the id, or errs and changes nothing |
| `Cron.CronService.MarkRunning` | crates/cron-core/src/service.rs:88-98 | marks exactly the first job with the id as running |
| `Cron.CronService.UpdateAfterRun` | crates/cron-core/src/service.rs:100-141 | records the outcome in exactly the first job with the id |
| `Cron.CronService.Trigger` | crates/cron-core/src/service.rs:143-152 | makes the next run of exactly the first job with the id immediate |
| `Cron.RetryBudget` | crates/cron-core/src/scheduler.rs:146-168 | over every run without a success, with triggers, updates and stuck detection anywhere, a job starts at most max(1, max_retries) times |
| `Cron.RetryBudgetBetweenSuccesses` | crates/cron-core/src/scheduler.rs:146-168 | the same bound between any two successes |
| `Cron.BackoffRespected` | crates/cron-core/src/scheduler.rs:150-162 | no start comes before the last recorded finish plus the backoff |
| `Cron.ExhaustedForever` | crates/cron-core/src/scheduler.rs:152-156 | an idle job with its budget used up never starts again under any continuation |
| `Cron.TriggerMakesDueIff` | crates/cron-core/src/service.rs:143-152 | a trigger makes an idle job due if and only if the budget is not used up and the backoff is over |
| `Cron.DueIff` | crates/cron-core/src/scheduler.rs:146-168 | a job is due if and only if it is idle, its time has come, and after errors it has tries left, five by default, and its delay is over |
| `Cron.StuckIff` | crates/cron-core/src/scheduler.rs:111-116 | a job counts as stuck if and only if it has been running for more than the threshold |
| `Cron.RecordMeaning` | crates/cron-core/src/service.rs:100-141 | what each field of a job is after a recorded outcome: on success idle without errors at the next scheduled run, on failure without a next run when the tries are used up, and else at the later of the schedule and the delay |
| `Cron.PatchMeaning` | crates/cron-core/src/service.rs:54-79 | an update changes exactly what it names, and a new schedule the next run with it |
| `Cron.CountersAreRecords` | crates/cron-core/src/service.rs:100-141 | in every run of a new job the totals count its recorded outcomes and failures, and the consecutive errors the failures since the last success |
| `Cron.NoOverlap` | crates/cron-core/src/scheduler.rs:109-168 | at most one execution that was neither reported nor given up as stuck is under way, and that one has the job marked |
| `FragmentReassembly.Reassembler.Receive` | crates/cli/src/main.rs:2614-2640 | the new cache and the dispatched payload, for any frame whatever |
| `FragmentReassembly.CacheIsCorrect` | crates/cli/src/main.rs:2619-2637 | at every point of an interleaving the cache holds exactly the arrived fragments of incomplete messages |
| `FragmentReassembly.DispatchedAtLastArrival` | crates/cli/src/main.rs:2619-2637 | a frame dispatches if and only if it is the last of its message, with the fragments concatenated in seq order |
| `FragmentReassembly.DispatchedExactlyOnce` | crates/cli/src/main.rs:2619-2637 | every message is dispatched exactly once |
| `FragmentReassembly.CacheEndsEmpty` | crates/cli/src/main.rs:2628-2634 | after all fragments the cache is empty |
| `FragmentReassembly.CacheMeaning` | crates/cli/src/main.rs:2614-2637 | after any frames whatever, repeated, contradictory or out of range, a message is in the cache exactly while frames of it wait, with the last payload for each place |
| `FragmentReassembly.DispatchMeaning` | crates/cli/src/main.rs:2614-2640 | a frame that announces one part or none is handed on as it is; any other if and only if no place is missing any more, and then as the concatenation in order of the places |
| `FragmentReassembly.ConcatMeaning` | crates/cli/src/main.rs:2628-2634 | the concatenation keeps each part and their order |
| `FragmentReassembly.AbsentHeaders` | crates/cli/src/main.rs:2614-2618 | a frame without a sum is a message by itself, one without a seq is at the first place |
| `MessageQueue.SessionQueue.PushPending` | crates/auto-reply/src/queue.rs:113-140 | at the cap the policy rejects the new message or drops the oldest with or without a summary line |
| `MessageQueue.SessionQueue.Enqueue` | crates/auto-reply/src/queue.rs:142-167 | an idle queue runs the message now, Interrupt clears the backlog, anything else queues |
| `MessageQueue.SessionQueue.CompleteAndTakeNext` | crates/auto-reply/src/queue.rs:182-192 | hands out the oldest message or ends the run |
| `MessageQueue.SessionQueue.TakeCollectBatch` | crates/auto-reply/src/queue.rs:194-201 | hands out all messages or ends the run |
| `MessageQueue.DeliveryInOrder` | crates/auto-reply/src/queue.rs:113-220 | over every run, with mode, cap and policy changing at any time and no run marked complete while messages wait, pending is empty whenever no run is active, delivered ++ pending is a subsequence of what was enqueued, and every message enqueued is delivered, pending or dropped |
| `MessageQueue.NothingVanishes` | crates/auto-reply/src/queue.rs:113-220 | in every run at all, each message enqueued is delivered, pending or dropped exactly once |
| `MessageQueue.UncappedLosesNothing` | crates/auto-reply/src/queue.rs:113-201 | without a cap and without interrupts delivered ++ pending is exactly what was enqueued |
| `MessageQueue.PendingWithinCap` | crates/auto-reply/src/queue.rs:113-220 | in every run, mode and policy the backlog never exceeds the largest cap that was in force |
| `MessageQueue.DropsAreReported` | crates/auto-reply/src/queue.rs:113-220 | the drops reported and those still counted are all the drops made under the summary policy |
| `MessageQueue.EveryDropIsNoted` | crates/auto-reply/src/queue.rs:113-220 | with that policy always in force and no interrupts they are all the drops there are |
| `MessageQueue.OneRunAtATime` | crates/auto-reply/src/queue.rs:142-201 | in every run a message is run at once if and only if no run is in progress |
| `MessageQueue.WaitingMeaning` | crates/auto-reply/src/queue.rs:113-167 | while a run is active a message waits behind the others; at the cap it is refused, or the newest remain, as many as the cap allows |
| `MessageQueue.SummaryMeaning` | crates/auto-reply/src/queue.rs:11-22 | each message that gives way under the summary policy is counted and leaves its words, with single spaces and cut to 160 characters; the last 256 lines at most, and no more than the cap, are kept |
| `MessageQueue.ReportMeaning` | crates/auto-reply/src/queue.rs:203-220 | a summary reports all counted drops and clears the record, and is due only under its policy |
| `MessageQueue.MarkRunCompleteKeepsOrderIff` | crates/auto-reply/src/queue.rs:142-177 | after `mark_run_complete` a new message keeps delivered ++ pending in the order of arrival if and only if nothing was pending |
| `SendLimiter.ChannelLimiters.TrySendSlot` | crates/channel-core/src/manager.rs:75-112 | one turn of the waiting loop touches only its own channel's bucket and admits, or tells how long to sleep |
| `SendLimiter.TokensStayInRange` | crates/channel-core/src/manager.rs:40-58 | tokens stay within zero and the capacity over every run |
| `SendLimiter.RunBound` | crates/channel-core/src/manager.rs:40-112 | in every run, any interval admits at most capacity plus rate times its length |
| `SendLimiter.OneSleepSufficesIff` | crates/channel-core/src/manager.rs:97-111 | one computed sleep is enough at every token level if and only if the rate is at least one per second |
| `SendLimiter.LoneWaiterSucceeds` | crates/channel-core/src/manager.rs:75-111 | for every configured channel a lone waiter is admitted after one sleep |
| `SendLimiter.WaitMeaning` | crates/channel-core/src/manager.rs:97-111 | at every rate the sleep is the shortest number of milliseconds from 1 to 1000 in which the missing part of a token comes in, as if the rate were at least a tenth per second, or 1000 if that is too short |
| `SendLimiter.BurstAdmitted` | crates/channel-core/src/manager.rs:50-65 | as many sends as there are tokens are admitted whenever they come |
| `SendLimiter.SteadyAdmitted` | crates/channel-core/src/manager.rs:50-65 | sends that keep to the rate are all admitted |
| `SendLimiter.FirstBurst` | crates/channel-core/src/manager.rs:40-88 | a channel that was not used yet admits as many sends at once as its capacity |
| `SendLimiter.LimitsTable` | crates/channel-core/src/manager.rs:75-88 | the capacity and rate of each channel |
| `SessionRateLimiter.RateLimiter.CheckWithKey` | crates/acp/src/lib.rs:54-82 | expires the key's old entries, then admits and records or refuses; other keys are untouched |
| `SessionRateLimiter.DequeIsWindowOfLog` | crates/acp/src/lib.rs:54-82 | after a check the key's deque is the full admission log filtered to the window |
| `SessionRateLimiter.WindowNeverExceeded` | crates/acp/src/lib.rs:54-82 | under a nondecreasing clock any interval of the window's length holds at most max_requests admissions of a key |
| `SessionRateLimiter.AdmittedIff` | crates/acp/src/lib.rs:54-82 | after any requests one is admitted if and only if fewer than max_requests of its key were admitted in the window that ends now; blank keys are one key |
| `SessionRateLimiter.AdmissionIsLogged` | crates/acp/src/lib.rs:54-82 | the log gets exactly the admissions, each under its key and with its time |
| `EchoDetect.IndexWithinDeque` | crates/agent-core/src/echo_detect.rs:29-97 | in all runs the set is contained in the deque and the deque stays within its capacity |
| `EchoDetect.IndexAgreesWithDeque` | crates/agent-core/src/echo_detect.rs:39-92 | in runs without `forget` the set is the set of the deque's elements and the deque has no duplicates |
| `EchoDetect.EchoConsumed` | crates/agent-core/src/echo_detect.rs:73-92 | asking again directly after asking finds nothing |
| `EchoDetect.LookupMeaning` | crates/agent-core/src/echo_detect.rs:73-97 | a lookup finds a text by itself or by its normal form; it takes both keys from the set, as forgetting does, and from the deque every entry of those that were in the set |
| `EchoDetect.RememberMeaning` | crates/agent-core/src/echo_detect.rs:39-71 | a text that is not in the set goes to the end of the deque, and its normal form behind it unless that is in the set; each takes the place of the oldest entry if there is no room |
| `EchoDetect.RememberedIsKnownIff` | crates/agent-core/src/echo_detect.rs:55-92 | after a text is remembered, one with the same normal form is recognised if and only if the exact text was not indexed before, or the other text or the key of the normal form was |
| `EchoDetect.SecondEchoMissed` | crates/agent-core/src/echo_detect.rs:55-92 | a run of send, echo in another spelling, and send again, after which that spelling is not recognised |
| `EchoDetect.ForgetAgreesIff` | crates/agent-core/src/echo_detect.rs:94-97 | `forget` keeps set and deque in agreement if and only if it had nothing to forget |
| `EchoDetect.ForgottenTwinEvicts` | crates/agent-core/src/echo_detect.rs:39-97 | a run in which a text forgotten and sent again is lost with the eviction of its stale entry, although the deque still holds it |
| `EchoDetect.EvictionLosesLiveKeyIff` | crates/agent-core/src/echo_detect.rs:39-50 | inserting a new key at capacity takes a key out of the set that the deque still holds if and only if the front entry has a duplicate |
| `Fences.ParseFenceSpans` | crates/agent-core/src/stream_chunker.rs:190-240 | the line loop computes the spans: in order and apart, each from a fence line to the first line that closes it or, the last one perhaps, to the end of the text, and together holding every fence line |
| `Fences.FenceSpansIff` | crates/agent-core/src/stream_chunker.rs:190-240 | that description has exactly one solution, the parser's |
| `Fences.FenceLineIff` | crates/agent-core/src/stream_chunker.rs:195-204 | a fence line is at most three blanks, three or more of one marker, and anything else; these parts are its indent, marker and run |
| `ChunkBreaks.PlainHasNoSpans` | crates/agent-core/src/stream_chunker.rs:190-240 | the fence parser finds no span in text without three fence characters in a row |
| `ChunkBreaks.PickBreakIsBest` | crates/agent-core/src/stream_chunker.rs:94-167 | the index is the last break of the first preferred kind that has one outside all fences at or after min_chars, or the window's end |
| `ChunkTurn.StandsStillIff` | crates/agent-core/src/stream_chunker.rs:170-187 | a turn fails to shrink the buffer if and only if its whole window is one fence line with at most one line feed before or behind it and the stripped line feeds do not make up for it |
| `ChunkTurn.CutInFence` | crates/agent-core/src/stream_chunker.rs:94-111 | a chunk that is one fence line is never cut from a longer window |
| `ChunkTurn.EmittedIsBalancedIff` | crates/agent-core/src/stream_chunker.rs:178-185 | a chunk with its closing line has every fence closed if and only if it left one open that was opened by three markers, or needed no closing line |
| `ChunkEnds.LoopEndsIff` | crates/agent-core/src/stream_chunker.rs:54-92 | the drain loop comes to a last turn if and only if every turn before it shrinks the buffer |
| `ChunkEnds.StandstillRepeats` | crates/agent-core/src/stream_chunker.rs:54-92 | after a turn without progress all turns start from one and the same buffer |
| `ChunkEnds.AlwaysEndsIff` | crates/agent-core/src/stream_chunker.rs:54-92 | all drains end, whatever the text, if and only if max_chars is one or two |
| `ChunkEnds.ShortFencesEnd` | crates/agent-core/src/stream_chunker.rs:54-92 | a drain ends if every fence line of the buffer is shorter, by two, than min_chars and max_chars |
| `StreamChunker.Chunker.PickBreakIndex` | crates/agent-core/src/stream_chunker.rs:94-111 | the loops of the finders compute the index |
| `StreamChunker.Chunker.SplitAt` | crates/agent-core/src/stream_chunker.rs:170-187 | cuts the chunk off, strips newlines from the rest, and reports what closes and reopens a fence |
| `StreamChunker.Chunker.DrainOnce` | crates/agent-core/src/stream_chunker.rs:56-90 | one turn of the drain loop |
| `StreamChunker.Chunker.Drain` | crates/agent-core/src/stream_chunker.rs:54-92 | on every buffer for which the loop ends it emits the chunks and leaves the buffer of `StreamChunker.Drained`, of which all that follows is proved |
| `StreamChunker.DrainConserves` | crates/agent-core/src/stream_chunker.rs:54-92 | a drain that ends takes the buffer apart into gap, chunk, gap, chunk and so on and the buffer left, the chunks as they are and the gaps blank; before that, lines that close and reopen fences are put in around line feeds, each for a fence line of the buffer, and none in text without fences; chunks are trimmed, non-empty and at most max_chars long, or with a closing line seven more; a forced drain empties the buffer and an unforced one leaves less than min_chars or blanks |
| `StreamChunker.StreamConserves` | crates/agent-core/src/stream_chunker.rs:49-92 | over every history of pushes and drains that end, all that was pushed is, after such lines are put in, the chunks in order with blank gaps and then the buffer; for text without fences nothing is put in and what was pushed is gap, chunk, gap, chunk and so on and the buffer |
| `StreamChunker.TurnMeaning` | crates/agent-core/src/stream_chunker.rs:54-92 | what one turn does in each of its cases: blanks and short buffers stay or are dropped by force, a last piece is emitted whole, and else the front up to the break is emitted, trimmed, with its fence closed, and the rest is left without leading line feeds, with the fence reopened |
| `StreamChunker.BufferFrom` | crates/agent-core/src/stream_chunker.rs:49-92 | the buffer of a history is the end of what was pushed, perhaps behind reopened lines, and holds no fence line that was not pushed |
| `StreamChunker.ShortStreamEnds` | crates/agent-core/src/stream_chunker.rs:49-92 | every drain of a history ends if all fence lines pushed are short |
| `StreamChunker.PlainStreamEnds` | crates/agent-core/src/stream_chunker.rs:49-92 | with max_chars of at least one every drain of a history of text without fences ends |
| `TelegramSplit.FloorCharBoundary` | crates/agent-core/src/str_util.rs:3-12 | the decrementing loop computes the boundary |
| `TelegramSplit.FloorIsGreatest` | crates/channel-core/src/telegram.rs:718-727 | the index found is the greatest character boundary at or below the given one |
| `TelegramSplit.BoundarySplit` | crates/channel-core/src/telegram.rs:738-742 | cutting valid UTF-8 at a boundary gives two valid texts with the same characters |
| `TelegramSplit.SplitMessage` | crates/channel-core/src/telegram.rs:729-747 | for text whose characters fit the limit the loop ends with the specified chunks |
| `TelegramSplit.SplitLosesOnlyNewlines` | crates/channel-core/src/telegram.rs:729-747 | every chunk is valid UTF-8 within the limit, the text is the chunks each followed by a run of newlines, and a chunk with no newline lost after it nearly fills the limit or is the last |
| `TelegramSplit.SplitIsCutUp` | crates/channel-core/src/telegram.rs:729-747 | each chunk ends at the last newline of the longest front part within the limit that ends at a character boundary, or takes all of it if it has none, and the newlines behind it are dropped |
| `TelegramSplit.EmptyChunkIff` | crates/channel-core/src/telegram.rs:736-745 | exactly when an empty chunk is emitted |
| `TelegramSplit.TerminatesIff` | crates/channel-core/src/telegram.rs:735-746 | the loop ends on a valid text if and only if every character other than a newline fits the limit |
| `TelegramSplit.AlwaysTerminatesIff` | crates/channel-core/src/telegram.rs:735-746 | a limit is safe for every valid text if and only if it is at least four |

## Left out

- Channel clients, HTTP and WebSocket traffic, browser control, command-line commands, configuration, permissions and policy: plumbing or settled by one branch.
- Serialization, file stores and transcripts on disk: a transcript is an in-memory sequence, saving always succeeds, and the compaction marker written to it is left out.
- `sanitize_tool_call_inputs` and `repair_jsonl_lines` of the transcript repair: they need a JSON parser.
- Error texts, log lines, events, telemetry and the wording of loop warnings and of the overflow prompt: errors and warnings are values.
- Machine integers and floats: counters, token counts and times are unbounded, except the 32-bit narrowing in the session limiter; rates and token levels are reals.
- The `run` method of the agent without tools, retries with delay, thinking settings and usage accounting.
- The provider, tools, approval gate, memory recall and tokenizer: arbitrary functions of their inputs and of a call counter.
- TaskRunnerConfluence.Confluence: a subagent's answer is a function of node and input; TaskRunnerRace.OrderFreeIff covers the graphs it leaves out.
- TaskRunnerInvariant.ReachableInv: tasks and the loop take atomic steps, and a panicking task ends the run with an error.
- History.LimitDropsOrphans: tool messages are assumed to carry no calls of their own; the code collects the kept ids from messages of every role.
- Agent.Agent.RunWithTools: the in-place edits of messages are assignments of a new sequence to the history field, and resending a request after a provider error is part of the provider.
- ContextGuard.TruncateToolResults: messages are values, so the method returns the edited list instead of writing into a borrowed slice.
- Pruning.PruneToolResults: returns the edited list for the same reason; the numbers in its placeholder texts are decimal byte counts.
- Cron.RetryBudget: choosing a due job and marking it running are one step, so races between two ticks and the `run_once` shortcut are outside the model.
- CronSchedule.NextRunOnGrid: cron expressions and one-shot instants are an arbitrary function, and `every_ms` is positive.
- Cron.CronService.UpdateAfterRun: deletion after a one-shot run and removal of jobs.
- Cron.CronService.Add: id generation and stagger offsets.
- FragmentReassembly.DispatchedExactlyOnce: assumes each fragment arrives once with a consistent `sum`; header parsing and the reply frame are left out.
- LoopDetect.CriticalIff: up to equality of hashes.
- MessageQueue.DeliveryInOrder: the collect window and the debounce time are settings this part of the code only stores.
- SendLimiter.RunBound: readings of the clock never decrease; the writer lock makes each attempt atomic.
- EchoDetect.IndexAgreesWithDeque: normalization is an arbitrary function, and the hash set is a set.
- StreamChunker.DrainConserves: the model counts characters where the code counts bytes, so it is the code's behaviour for ASCII text.
- StreamChunker.Chunker.Drain: called only on buffers for which the loop ends; ChunkEnds says which those are.
- ChunkTurn.EmittedIsBalancedIff: about the chunk before it is trimmed, which can turn an indented first line into a fence line.
- ChunkBreaks.PickBreakIsBest: the setting `flush_on_paragraph` is stored and never read by the code.
- TelegramSplit.FloorCharBoundary: the identical function of the other file is not written twice.
- Text: the truncation code's byte cuts on strings are modelled as keeping the longest prefix of that size.
