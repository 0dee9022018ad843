# Verified models of the terminal egress protocol and the agent core

This project models the parts of the repository whose correctness is hard to see from
any single function, and proves what they promise:

- the **terminal output protocol**: a sequence-numbered, acknowledged, replaying ledger
  per terminal, with coalescing, back-pressure, document generations and an ordered exit
  marker, driven by a scheduler whose transport and sources may call back into it
  (`EgressLedger`, `PtyEgress`), fed by a native pty whose reads are split into bounded
  quanta and held back while the ledger is full (`PtyText`, `PtyTerminal`), the two linked
  in `PtyPath`;
- the **conversation history** of the agent: the request projector's call/result
  automaton (`ToolHistory`), the wave scheduler and the tool loop of one turn
  (`ToolWaves`, `ToolTurn`), the cuts that summaries and truncation make (`Compaction`),
  pruning and its replay (`Prune`), and the history object all of them work on
  (`Conversation`);
- the **streaming codecs**: provider stream assembly (`StreamAssembly`), the bounded
  UTF-8 accumulator (`Utf8`, `BoundedText`), canonical JSON and call keys
  (`CanonicalJson`, `JsonWriting`), the trailing-comma repair (`JsonRepair`), and the two incremental
  control sequence scanners (`KeyboardMode`, `BracketedPaste`);
- the **registries and detectors**: subagent runs with a suspended spawn
  (`SubagentRegistry`, `ClaimPaths`), prefix evidence for cache diagnostics
  (`PrefixEvidence`), and the tool loop tracker (`Stall`).

Objects that the source updates in place are classes here, and every method of such a
class is specified by a function of the old state; what the source promises is then
proved about those functions and about the invariants all methods keep. `Wrappers`,
`JsText` and `ControlText` hold what several modules share.

## How to read it

| Part | Where the main results are |
|---|---|
| egress ledger | `EgressLedger.EveryReachableLedger`, `Lossless`, `HistoryIsFixed`, `ReplaysAreIdentical`, `ExitComesLast` |
| egress scheduler | `PtyEgressScheduler.Lifetime` (every run, every re-entry), `NeverStuck`, `EveryOutcomeIsHonest`; `Pump` for what one frame sends and why it ends |
| pty to ledger | `PtyTerminal.NothingIsLost`, `ExitAfterTail`; `PtyPath.FeedOne`, `Drain`, `Follow`, `EndToEnd` |
| history | `ToolHistory.SuffixKeepsPending`, `Compaction.CutKeepsRequestsValid`, `Conversation.TurnCloses`, the methods of `Conversation.History`, `Prune.PruneKeepsHistoryValid`, `PlanAndReplay` |
| tools of a turn | `ToolWaves.ToolExecutionWaves` with `EntryIsUnique`, `ReuseIsAcyclic`; `ToolTurn.RunTools`, `UiRule` |
| codecs | `StreamAssembly.Assemble` with `FoldShape`, `SameMessageOrNone`; `BoundedTextAccumulator.Finish` with `StreamIsBatch`; `CanonicalJson.CallKeysAgree`; `JsonRepair.RepairInvertsLenientPrinter`; `AnyChunking` of both scanners |
| registries | `SubagentRegistry.AnyInterleaving`, `PrefixEvidence.PrefixChangedIsExactForJson`, `Stall.DecisionIs`, `CyclesAreStopped` |

A re-entrant call is modelled by `React(depth)` in `PtyEgress` and by a budget in
`PtyTerminal`: any finite number of arbitrary public calls with arbitrary arguments, nested
to any finite depth. Everything proved holds for every depth and budget.

## What the proofs found

Where a promise does not hold of the code as it stands, the code was kept. Each entry
names the lemma with the input for which it fails and the one that says, for all inputs,
exactly when it holds; what is one-way is said to be.

- A recorded `!` command is appended without looking for pending server tool calls
  (`agent-core/main.ts:5633`), unlike a prompt (`agent-core/main.ts:4566`). The history
  stays acceptable exactly when no server call is open: `History.RunBangCommand`, with
  `BangInterrupts` a valid history that a command breaks.
- Salvaging a failed stream trims call ids (`agent-core/main/stream-salvage.ts:36-37`) and does not
  compare them with each other or with open calls. The history stays acceptable exactly
  when the trimmed ids are distinct and none is open: `History.PersistFailedStreamTurn`,
  with the concrete collision `SalvageMayCollide`.
- The pending-server-tool scan (`agent-core/main.ts:2962-2965`) misses a server call that reuses
  an id answered before: `ReusedServerIdIsMissed`. It sees every open server call at every
  point exactly when no server call takes such an id: `FreshMeansSeen`. What it reports of
  any accepted history is `GuardReports`, and `ScanMisses` says when it overlooks all open
  ones.
- A prompt between a call and its result is accepted by the projector, but the history
  cut at that prompt is not: `OpenCallAtPromptBreaksCut`. `SuffixKeepsPending` and
  `SuffixAccepted` say exactly which cuts are safe.
- The truncation walk counts the prompt it keeps as dropped (`agent-core/compaction.ts:167-171`), so
  the kept suffix may still be above low water: `KeptSuffixMayExceedLowWater`. It is below
  exactly when the total was or a dropped message other than a prompt brings it there, and
  otherwise above by less than the kept prompt: `CutLeaves`.
- A browser or desktop call whose approval, host admission or release raises, before or
  after its action (`agent-core/main.ts:1873-1894`), does not stop the later ones, although the comment at `agent-core/main.ts:4946-4947` says that a failed action
  does: `EscapedFailureDoesNotHalt`. An action that throws while it runs is caught and does
  stop them: `RaisedActionHalts`. `UiRule` has both directions: a later valid call runs
  exactly when no earlier one returned an error.
- A quantum that does not fit a chunk, or not the queue, when nothing is retained pauses
  its source with no acknowledgement left to resume it; every other one is admitted there:
  `OversizedQuantumWedges`. A pty offers no quantum over a chunk (`PtyText.SplitPtyData`), and
  with limits as roomy as the defaults nothing gets stuck: `NeverStuck`, which is one-way.
- Both scanners forget an unfinished sequence longer than 64 characters:
  `LongPartialIsForgotten` of each. Two chunks lead where one does exactly when the
  unfinished end is within the bound, or the second one leaves it unfinished or malformed,
  or the sequence it completes makes no difference to what follows: `SplitsByText` of each.
- Head retention may keep a short character after a longer one did not fit: `HeadMaySkip`.
  What it keeps is a prefix exactly when everything fits or nothing fits after the first
  miss: `GreedyIsPrefix`, and `HeadBodyIsPrefix` for the rendered body. Beside a marker of
  two bytes or more the body always is one: `MarkerKeepsPrefix`.
- The comma repair leaves one of two trailing commas in place:
  `TwoTrailingCommasAreNotRepaired`. Repairing twice is repairing once exactly when no
  closing bracket has two commas before it: `RepairTwice`.
- Not every periodic tool loop is stopped: guidance clears the recent turns, so calling A
  three times and B once, over and over, is warned every round and never stopped:
  `NotEveryLoopIsStopped`. `DecisionIs` says exactly which turn of any run is answered with
  guidance and which with a stop. A cycle of up to eight turns without a shorter loop
  inside is warned after three rounds and stopped after six, at no other turn:
  `CyclesAreStopped`. That is one-way: loops with a shorter loop inside are stopped or not
  depending on where their guidance falls, and only turn by turn is that decided here.
- The drive test for claimed paths (`agent-core/subagents.ts:812`) looks at the text with its
  "." segments still in it, so "./C:/x" is accepted as "C:/x", which itself is refused:
  `DriveIsMissed`. A drive letter comes through exactly when the first segment kept is one:
  `DriveComesThrough`.
- Normalizing a claimed path twice can change it: `NormalFormMayChange`. It does not exactly
  when the normal form has no white space at its edges and no drive letter:
  `NormalizeTwice`, and `NormalizeTwiceBySegments` in terms of the segments of the path.
- A computed truncation marker is asked until its answer describes the result it stands in,
  but need not settle in its attempts (`agent-core/tool-output.ts:240-258`): `NeedNotSettle`.
  It settles exactly when two of those answers in a row are the same, which the input alone
  decides (`ChooseMarker`, `RoundsAreDetermined`), and then it describes the result:
  `MarkerDescribes`. Answers of one length always settle: `OneLengthSettles`, which is
  one-way.

A comment in the planner (`agent-core/reclaim.ts:219-221`) says that targets are applied in
ascending block order; replay sorts them descending (`agent-core/session/replay.ts:142`). The model
follows replay, and both orders are proved to hit the planned blocks: `DescendingHits`,
`AscendingHits`.

## Model

| member | source | states |
|---|---|---|
| EgressLedger.EveryReachableLedger | electron/pty-egress.ts:356-399 | after any sequence of ledger events the accounts are sound: log and accepted bytes agree, every number is in one place, in-flight numbers precede queued ones, byte counters are the true sums, the exit marker is last |
| EgressLedger.EachInOnePlace | electron/pty-egress.ts:804-829 | every sequence number handed out is in exactly one of acknowledged, in flight and queued |
| EgressLedger.Lossless | electron/pty-egress.ts:374-397 | the payloads of the three places, read in sequence order, are exactly the accepted bytes |
| EgressLedger.HistoryIsFixed | electron/pty-egress.ts:374-392 | no continuation of a run changes what was accepted, what a sent number carries, or what was acknowledged, despite coalescing into the open tail |
| EgressLedger.ReplaysAreIdentical | electron/pty-egress.ts:686-713 | two hand-overs of one sequence number carry identical bytes |
| EgressLedger.FreshDelivery | electron/pty-egress.ts:686-692 | the payload handed over for a head record is the one the log holds for its number |
| EgressLedger.ExitComesLast | electron/pty-egress.ts:789-802 | while the exit marker exists no data record is retained, all of them are acknowledged, and the marker has the largest number |
| EgressLedger.DrainedMeansDelivered | electron/pty-egress.ts:777-782 | once the marker was queued and nothing is retained, every number was acknowledged and the last of them is the marker with the finish code |
| EgressLedger.InOrderSpec | electron/pty-egress.ts:820-829 | sorting the in-flight records for replay lists exactly those records, strictly increasing |
| EgressLedger.EveryRunConserves | electron/pty-egress.ts:356-399 | after any run the bytes accepted are those acknowledged and those retained, and every number handed out is acknowledged or counted as retained |
| PtyEgress.Resolve | electron/pty-egress.ts:303-319 | options are accepted exactly when each is a positive safe integer (the interval may be 0) and both low-water marks are below high water; the defaults also leave a whole quantum of room above low water |
| PtyEgress.ResolvedLimits | electron/pty-egress.ts:303-319 | each limit is the option given or its default, and frames are paced unless the interval is 0 |
| PtyEgress.TerminalQueue.Append | electron/pty-egress.ts:385-393 | one quantum either grows the unsealed tail or becomes a new record; the fields mirror the ledger after an admit event, and retained totals grow by exactly that |
| PtyEgress.TerminalQueue.TakeHead | electron/pty-egress.ts:680-692 | the head is sealed and moved in flight, it is newer than all else in flight, and retained totals do not change |
| PtyEgress.TerminalQueue.SortedInFlight | electron/pty-egress.ts:823 | the records to replay are the in-flight ones in increasing sequence order |
| PtyEgress.TerminalQueue.Replay | electron/pty-egress.ts:820-829 | everything in flight goes back in front of the queue in sequence order; nothing when nothing was in flight |
| PtyEgress.TerminalQueue.Requeue | electron/pty-egress.ts:804-817 | a refused record goes back to the head only if it is still the in-flight owner of its number; otherwise another callback already moved it and nothing changes |
| PtyEgress.TerminalQueue.QueueExit | electron/pty-egress.ts:789-802 | the exit marker is appended once, only to a closing queue without data records, and never exceeds the chunk limit |
| PtyEgress.TerminalQueue.Release | electron/pty-egress.ts:831-847 | nothing stays retained and every pending finish settles with the delivery flag; finishes settled before keep their answer |
| PtyEgress.PtyEgressScheduler.Register | electron/pty-egress.ts:322-346 | the three refusals in source order; success adds exactly one fresh, empty queue |
| PtyEgress.PtyEgressScheduler.Offer | electron/pty-egress.ts:365-396 | a quantum is admitted exactly when there is room for it; a refusal changes nothing but the pause, and there still is no room then; a queue at a high-water mark is paused |
| PtyEgress.PtyEgressScheduler.Enqueue | electron/pty-egress.ts:356-399 | the same through the registry: unknown, disposed, stale and closing terminals are refused without effect, empty data is accepted without effect |
| PtyEgress.PtyEgressScheduler.Finish | electron/pty-egress.ts:411-447 | a bad deadline throws, an unknown terminal resolves false, otherwise the queue closes once, and the promise is pending, or already resolved true with everything delivered |
| PtyEgress.PtyEgressScheduler.FinishTimeout | electron/pty-egress.ts:423-429 | the deadline settles exactly that finish with false and leaves the queue as it is |
| PtyEgress.PtyEgressScheduler.Cancel | electron/pty-egress.ts:450-454 | only the named live terminal is dropped, undelivered; a stale call changes nothing |
| PtyEgress.PtyEgressScheduler.SetRendererReady | electron/pty-egress.ts:462-502 | accepted exactly for generations that do not move back; a refused call changes nothing; losing readiness replays and dehydrates every terminal and disarms the timer; once ready, every closing queue without data has its exit marker and every drained one that can deliver was released; absent callbacks, every source that may resume was resumed, another document leaves every terminal unhydrated with nothing in flight, and the same one changes no hydration |
| PtyEgress.PtyEgressScheduler.Fence | electron/pty-egress.ts:473-479 | a change of document detaches every terminal, the same document changes nothing |
| PtyEgress.PtyEgressScheduler.HydrateTerminal | electron/pty-egress.ts:505-525 | succeeds exactly for the current document and a known generation; otherwise nothing changes; then the queue has its exit marker if it is closing without data, and was released if drained; absent callbacks only that terminal is touched, is hydrated if it is still there, and its source was resumed if it may be |
| PtyEgress.PtyEgressScheduler.Acknowledge | electron/pty-egress.ts:528-553 | succeeds exactly when the document is current and the number is in flight, and retires exactly that number; then a closing queue that holds no data has its exit marker and a drained one that can deliver was released; a stale acknowledgement changes nothing, and absent callbacks no other terminal is touched and the source was resumed if it may be |
| PtyEgress.PtyEgressScheduler.MaybeResumeSource | electron/pty-egress.ts:646-655 | a source resumes exactly when paused, open, deliverable and at or below both low-water marks, and may call back at once |
| PtyEgress.PtyEgressScheduler.MaybeFinishQueue | electron/pty-egress.ts:777-782 | a live queue is released, with its finishes settled true, exactly when it is drained and deliverable; one that stays and holds no data has its exit marker |
| PtyEgress.PtyEgressScheduler.RemoveQueue | electron/pty-egress.ts:831-847 | a registered queue is dropped and its finishes settle with the flag; the cyclic order from the cursor loses exactly that terminal, so whose turn is next stays |
| PtyEgress.PtyEgressScheduler.Dispose | electron/pty-egress.ts:625-634 | every queue is dropped and nothing can be delivered afterwards; a second call changes nothing |
| PtyEgress.PtyEgressScheduler.HasDeliverableChunks | electron/pty-egress.ts:762-767 | true exactly when some live, hydrated terminal has something queued |
| PtyEgress.PtyEgressScheduler.SchedulePump | electron/pty-egress.ts:661-667 | a timer is armed exactly if it was, or something is deliverable outside a pump |
| PtyEgress.PtyEgressScheduler.NextQueuedQueue | electron/pty-egress.ts:747-760 | the first ready terminal in cyclic order from the cursor, which moves just past it; none only when none is ready |
| PtyEgress.PtyEgressScheduler.TakeOn | electron/pty-egress.ts:680-692 | the head is in flight, and its hand-over recorded, before the transport is called |
| PtyEgress.PtyEgressScheduler.SendHead | electron/pty-egress.ts:686-739 | exactly one hand-over, of the sealed head, whatever the transport calls back; the batch may go on exactly when the transport took the record and afterwards the same renderer document is ready and the record still owned; after a refusal the record is not in flight |
| PtyEgress.PtyEgressScheduler.Refused | electron/pty-egress.ts:717-724 | a record still owned is requeued and the renderer that refused it is not ready any more; any other refusal changes nothing |
| PtyEgress.PtyEgressScheduler.Pump | electron/pty-egress.ts:669-745 | a frame that finds anything deliverable hands over the sealed head of the first ready terminal in rotation order; it ends only because `batchChunks` records went out, nothing is ready outside the terminals it served, the next head would pass `batchBytes`, or after the last hand-over the document or the owner of the record had changed; it hands over at most `batchChunks` records, at most `batchBytes` beyond the first, and in paced mode at most one per terminal; whatever stays deliverable has its next frame armed; nothing happens while disposed, not ready or already pumping |
| PtyEgress.PtyEgressScheduler.OnTimer | electron/pty-egress.ts:661-667 | the firing timer runs such a frame: with anything deliverable it sends, it ends for one of those four reasons, and the timer is armed again exactly as the timer invariant asks |
| PtyEgress.PtyEgressScheduler.React | electron/pty-egress.ts:696-716 | any finite nesting of public calls made from a callback keeps the invariant, moves generations only forward, and rewrites no history |
| PtyEgress.PtyEgressScheduler.EveryQueueIsLossless | electron/pty-egress.ts:356-399 | in every valid state each terminal's ledger holds exactly the accepted bytes, and hand-overs of one number agree |
| PtyEgress.PtyEgressScheduler.EveryOutcomeIsHonest | electron/pty-egress.ts:401-434 | a finish that resolved true had every data record and, as the largest number, the exit marker acknowledged |
| PtyEgress.PtyEgressScheduler.BacklogIsBounded | electron/pty-egress.ts:368-396 | in every valid state what a live terminal accepted and the renderer has not acknowledged is within the queue's limits, in bytes and in records |
| PtyEgress.PtyEgressScheduler.NeverStuck | electron/pty-egress.ts:646-667 | a paused, open, deliverable source holds more than low water, and either a frame is armed for it or the renderer owes an acknowledgement |
| PtyEgress.PtyEgressScheduler.OversizedQuantumWedges | electron/pty-egress.ts:368-373 | a quantum offered to an empty queue is admitted exactly when it fits a chunk and the queue; otherwise the source is paused with nothing retained that could resume it |
| PtyEgress.PtyEgressScheduler.Step | electron/pty-egress.ts:285-848 | a timer firing or any public call, with any re-entry, keeps the invariant and the timer rule, moves generations only forward and only extends histories; a timer firing is one bounded frame |
| PtyEgress.PtyEgressScheduler.Lifetime | electron/pty-egress.ts:285-848 | construction succeeds exactly for valid options, and every run of public calls and timer firings from there keeps all terminals lossless and all outcomes honest |
| PtyText.EncodeSplits | electron/pty-egress.ts:249-257 | encoding the two halves of a cut gives the encoding of the whole exactly when no surrogate pair is cut |
| PtyText.EncodeIsUtf8 | electron/pty-egress.ts:366 | a text is encoded scalar value by scalar value as RFC 3629 has it, a lone surrogate as U+FFFD, and the bytes are valid UTF-8 |
| PtyText.NextQuantum | electron/pty-egress.ts:262-276 | a quantum is a run of whole code points within the budget, or one code point, and could not take another |
| PtyText.SplitPtyData | electron/pty-egress.ts:258-282 | refuses exactly the invalid budgets; the chunks concatenate to the data, in code units and in bytes, each fits, and none could have taken more |
| PtyTerminal.PtyTerminal.NativeData | electron/pty-terminal.ts:77-81 | a read joins what was produced behind what is held back, also while a flush is running; after a cancellation it is ignored |
| PtyTerminal.PtyTerminal.FlushOutput | electron/pty-terminal.ts:99-131 | feeding stops only when nothing is held back or the owner refused; unless a consumer calls back, without a refusal nothing stays held back and the native side is not paused; a nested call leaves the running flush its entries |
| PtyTerminal.PtyTerminal.EmitExitIfDrained | electron/pty-terminal.ts:133-139 | the exit is announced exactly when it is known, nothing is held back and it was not announced before |
| PtyTerminal.PtyTerminal.Resume | electron/pty-terminal.ts:248-258 | back-pressure is lifted and the held-back tail drained: unless the owner refuses again nothing is held back and the native side reads |
| PtyTerminal.PtyTerminal.CancelOutput | electron/pty-terminal.ts:142-151 | what is held back is discarded; a known exit is announced, and before the exit the native side reads on |
| PtyTerminal.PtyTerminal.NothingIsLost | electron/pty-terminal.ts:99-131 | absent a cancellation, acknowledged, in-flight, queued and held-back bytes, in order, are all the native pty produced |
| PtyTerminal.PtyTerminal.ExitAfterTail | electron/pty-terminal.ts:133-139 | the exit is announced at most once, with the native code, after everything produced before the native exit was admitted |
| PtyPath.Open | electron/pty-egress.ts:322-346 | registering a queue succeeds exactly as the source allows it, and a new terminal is linked to the queue registered for it |
| PtyPath.FeedOne | electron/pty-terminal.ts:115-122 | one held-back quantum moves into the scheduler queue exactly when that is still registered, open and has room; otherwise nothing moves, the queue does not take it then either, and the native side stops reading; terminal and queue stay linked |
| PtyPath.Follow | electron/pty-egress.ts:285-848 | whatever else the scheduler does with the queue, as long as nobody else offers to it, leaves terminal and queue linked with the same accepted bytes |
| PtyPath.Drain | electron/pty-terminal.ts:109-129 | feeding the scheduler quantum by quantum ends with nothing held back, or with a first quantum the queue does not take and the native side stopped; the native side is not paused for anything else; nothing is lost and the link stays |
| PtyPath.Read | electron/pty-terminal.ts:77-81 | one native read, drained into the scheduler, keeps the link and adds exactly its bytes to what was produced; what stays held back starts with a quantum the queue does not take |
| PtyPath.Resume | electron/pty-terminal.ts:99-131 | lifting back-pressure drains the tail into the scheduler and keeps the link; the native side reads again unless the queue does not take what is still held back |
| PtyPath.Exit | electron/pty-terminal.ts:83-93 | the native exit, drained into the scheduler, keeps the link and is announced unless a tail stays held back |
| PtyPath.EndToEnd | electron/pty-terminal.ts:77-131 | for a terminal linked to its scheduler queue, what the pty produced is what the queue's numbers carry, in order, followed by the held-back tail, and at most the queue's limit and the tail are unacknowledged |
| ToolHistory.ValidateToolSequences | agent-core/request-projection.ts:155-187 | no error exactly for accepted histories; an error is the first one, at the message it names, or the oldest call that may not stay open |
| ToolHistory.RunAppend | agent-core/request-projection.ts:155-187 | judging two histories in a row is judging their concatenation |
| ToolHistory.RunKeepsDistinct | agent-core/request-projection.ts:169-181 | no id is ever open twice |
| ToolHistory.SuffixKeepsPending | agent-core/request-projection.ts:155-187 | a suffix leaves the same calls pending exactly when no call is open at the cut |
| ToolHistory.SuffixAccepted | agent-core/request-projection.ts:183-185 | of a history with nothing pending, a suffix is accepted exactly when no call is open at the cut |
| Compaction.IsUserPrompt | agent-core/compaction.ts:52-68 | a user message with text or image and without any tool result |
| Compaction.EvictionBoundary | agent-core/compaction.ts:112-136 | the newest prompt with enough turns and tokens from it on, else the oldest prompt, else the end; at least the protected prompts, as far as there are any, are kept |
| Compaction.BoundaryIsUnique | agent-core/compaction.ts:112-136 | that description determines the boundary |
| Compaction.TruncateCut | agent-core/compaction.ts:145-176 | the first prompt that is protected or brings the walk below low water; 0 below the window or without prompts; a non-zero cut is a prompt and keeps the protected prompts |
| Compaction.CutIsUnique | agent-core/compaction.ts:145-176 | the description of the cut determines it and the protected start |
| Compaction.KeptSuffixMayExceedLowWater | agent-core/compaction.ts:167-171 | a history whose only cut leaves more than low water |
| Compaction.CutLeaves | agent-core/compaction.ts:145-176 | what a cut leaves is below low water exactly when the total was or a dropped message other than a prompt brings it there; an unprotected cut leaves less than low water and the kept prompt together |
| Compaction.PlanSummary | agent-core/compaction.ts:236-245 | the plan evicts everything before the boundary but the old handoff; there is one exactly when something would be evicted and it is at least the minimum |
| Compaction.SummarySplits | agent-core/compaction.ts:222-230 | the span is summarized in order: two spans in a row give what each gives |
| Compaction.SummaryOmitsHandoff | agent-core/compaction.ts:222-230 | of the evicted span every message is summarized as often as it stands there, the previous handoff not at all |
| Compaction.CutKeepsRequestsValid | agent-core/compaction.ts:112-176 | cutting an accepted history at a prompt where nothing is open, with or without the handoff in front, leaves an accepted history with the same calls pending, clean at its prompts |
| Compaction.EverythingEvicted | agent-core/compaction.ts:128-135 | when there is no prompt the whole history goes and the handoff alone is accepted |
| Compaction.OpenCallAtPromptBreaksCut | agent-core/compaction.ts:56-59 | an accepted history with a prompt between a call and its result whose suffix at that prompt is refused |
| ToolWaves.ToolExecutionWaves | agent-core/tool-dispatch.ts:177-207 | the waves flatten to the calls in order, each is one action or one to four reads, a wave of reads is only short before an action or the end, and every entry is marked as its position demands |
| ToolWaves.EntryIsUnique | agent-core/tool-dispatch.ts:190-203 | the marks of an entry are determined: a read repeats an equal read since the last action, an action the unbroken run of equal actions before it, and the original repeats nothing |
| ToolWaves.WavesKeepOrder | agent-core/tool-dispatch.ts:177-207 | nothing overtakes: calls of an earlier wave come earlier in the response |
| ToolWaves.ReuseIsAcyclic | agent-core/main.ts:4970-4974 | a reused result belongs to an earlier entry that reuses nothing and is started in the same or an earlier wave, so waiting for it cannot be circular |
| ToolWaves.ActionsRunAlone | agent-core/tool-dispatch.ts:174-176 | a call that may change anything is alone in its wave |
| ToolTurn.ProviderToolAdmissionError | agent-core/tool-dispatch.ts:127-144 | no error exactly when all client calls have identities, distinct ids and object arguments; an error is raised at the first block that breaks this |
| ToolTurn.AdmittedUses | agent-core/tool-dispatch.ts:127-144 | the calls of an admitted response have distinct, non-empty ids |
| ToolTurn.ResultsClose | agent-core/request-projection.ts:169-181 | one result per open call, in order, closes exactly those calls |
| ToolTurn.ResultsNeedCalls | agent-core/request-projection.ts:176-180 | a result whose call is not open makes the history refused |
| ToolTurn.OpenIsSeen | agent-core/main.ts:2962-2965 | when no server call takes an answered id again, every open server call is found by the pending scan |
| ToolTurn.ReusedServerIdIsMissed | agent-core/main.ts:2962-2965 | a history with an open server call that the scan misses |
| ToolTurn.FreshMeansSeen | agent-core/main.ts:2962-2965 | every open server call is found by the scan, at every point of an accepted sequence, exactly when no server call takes an id answered before |
| ToolTurn.PendingMeans | agent-core/main.ts:2962-2965 | the scan reports pending exactly when some open server call has no search result for its id, or a client result answered one in its place |
| ToolTurn.ScanMisses | agent-core/main.ts:2962-2965 | with server calls open, the scan reports nothing exactly when search results carry the ids of all of them and no client result took the place of one |
| ToolTurn.RecoveryKeepsAnswers | agent-core/main.ts:2974-2987 | guidance leaves one result per call in order, and is a sibling block only when no server call is pending |
| ToolTurn.SalvageAssistantBlocks | agent-core/main/stream-salvage.ts:16-42 | keeps, in order, non-empty text, thinking with text or signature, and named calls with object input, trimmed |
| ToolTurn.SalvageKind | agent-core/main/stream-salvage.ts:15-42 | everything salvaged can sit in a request: only non-empty text and thinking and well-formed client calls |
| ToolTurn.EachBlockIsSalvaged | agent-core/main/stream-salvage.ts:16-42 | every block is salvaged by itself in its place: non-empty text and thinking stay, a well-formed call stays with id and name trimmed, and no other block stays or keeps another one out |
| ToolTurn.SalvageIsIdempotent | agent-core/main/stream-salvage.ts:16-42 | salvaging a salvaged response changes nothing |
| ToolTurn.RunCall | agent-core/main.ts:4963-4984 | a call is skipped after a failed UI action, refused for bad arguments, answered with the result it repeats, refused as a repeated action, or carried out, in this priority and each with its own notice; UI calls are halted from then on exactly when a UI call returned an error |
| ToolTurn.RunTools | agent-core/main.ts:4942-5026 | given what each call would do if carried out and the wave before which the turn is stopped, if any: every wave before that is run and none after; each call of a wave that was run has the result its attempt gave, or a copy of the read it repeats, or the notice its place demands; every later call has the notice of the interruption or of the steering; one result per call in call order |
| ToolTurn.UiRule | agent-core/main.ts:4976-4983 | a valid UI call that repeats none is carried out exactly when no earlier UI call returned an error; it follows the promised rule (no earlier one failed) exactly when an earlier one returned an error or none failed |
| ToolTurn.RaisedActionHalts | agent-core/main.ts:1955-1980 | a UI call that raises halts the later ones exactly when it raises while it acts, which is caught |
| ToolTurn.EscapedFailureDoesNotHalt | agent-core/main.ts:1873-1894 | of two browser calls the second runs although the first failed by a rejection at its approval |
| ToolTurn.AnswerRest | agent-core/main.ts:5018-5026 | calls that were not reached are answered as interrupted or not executed, the others keep their results |
| Conversation.GuardIsSound | agent-core/main.ts:2967-2969 | in a valid history, when the scan finds nothing pending no call is open |
| Conversation.GuardReports | agent-core/main.ts:2967-2969 | what the guard says of any accepted history: pending exactly for an open server call without a search result or a client result in the place of one |
| Conversation.TurnCloses | agent-core/main.ts:4861-5053 | a response and its answer keep the history valid exactly when the response can follow it, and then exactly the response's client calls are closed |
| Conversation.PlainContinues | agent-core/main.ts:3230-3264 | a response without server calls can follow a history exactly when its ids are distinct and none is open |
| Conversation.SalvageMayCollide | agent-core/main.ts:3230-3264 | two call ids that differ in white space make a salvaged turn that is refused |
| Conversation.CutStaysValid | agent-core/main.ts:2801-2814 | a cut at a prompt, or of everything, with or without the handoff, keeps the history valid, and at a prompt the same calls stay pending |
| Conversation.History.PushPrompt | agent-core/main.ts:4566-4569 | a prompt is appended exactly when no server call is pending, and the history is then accepted with nothing open |
| Conversation.History.RunBangCommand | agent-core/main.ts:5606-5640 | the history survives a recorded shell command exactly when no server call is open; otherwise it is refused for interrupting one |
| Conversation.BangInterrupts | agent-core/main.ts:5633 | a valid history with an open server call that a recorded shell command makes refused |
| Conversation.History.Turn | agent-core/main.ts:4861-5053 | a turn refused at admission changes nothing; otherwise the response is appended and, if it has calls, one message with exactly what the tools gave; guidance of the loop tracker, offered only to a turn nobody interrupted or steered, stands behind the results, or as last part of the first one while a server call is pending; the history is valid exactly when the response could follow it |
| Conversation.History.CompleteInterruptedToolTurn | agent-core/main.ts:2584-2595 | on resume an unanswered last response gets one error result per call; any other history is left alone; a history that was valid up to that response is valid again |
| Conversation.History.PersistFailedStreamTurn | agent-core/main.ts:3230-3264 | what was shown is kept with one error result per call, each of them an error; the history is valid exactly when the salvaged ids are distinct and none is open, or nothing was kept |
| Conversation.History.Truncate | agent-core/main.ts:2791-2820 | a cut is made exactly when the total reaches the window, the walk finds a cut, and the cut would not merely put back the handoff it takes away; then the history is the suffix from that cut, behind the handoff exactly if the suffix lacks it; it stays valid with the same calls pending, keeps the protected prompts, and a cut cannot be repeated for ever |
| Conversation.History.Summarize | agent-core/main.ts:2855-2925 | the span before the boundary is folded exactly when it holds something besides the old handoff, at least the minimum of it, there is a text, and the handoff is smaller than the span; then the handoff replaces that span; the history stays valid and, unless everything went, the same calls stay pending |
| JsText.SplitOfJoin | agent-core/subagents.ts:817-822 | splitting joined segments gives the segments back |
| JsonRepair.WithoutTrailingCommas | agent-core/tool-dispatch.ts:31-54 | the slicing loop yields the text without the commas that stand outside literals and before a closing bracket |
| JsonRepair.RepairInvertsLenientPrinter | agent-core/tool-dispatch.ts:31-54 | for every JSON document, the text printed with at most one trailing comma per container is repaired to the text without them; strict text is left alone |
| JsonRepair.LiteralsNeverChange | agent-core/tool-dispatch.ts:31-54 | no character inside a string literal changes, in any text |
| JsonRepair.OnlyCommasGo | agent-core/tool-dispatch.ts:31-54 | nothing but commas is removed, in any text |
| JsonRepair.TwoTrailingCommasAreNotRepaired | agent-core/tool-dispatch.ts:45-48 | of two trailing commas one survives, so the repair is not idempotent |
| JsonRepair.RepairTwice | agent-core/tool-dispatch.ts:31-54 | repairing a repaired text changes nothing exactly when nowhere outside literals two commas stand before a closing bracket |
| JsonRepair.DecodeArguments | agent-core/tool-dispatch.ts:57-76 | arguments that parse are never rewritten; others are repaired once where repair is allowed; a leniently printed document that does not parse is read as its strict text |
| CanonicalJson.TextUnique | agent-core/tool-dispatch.ts:155-164 | canonical texts are uniquely decodable, whatever follows them |
| CanonicalJson.EqualTextsAreSame | agent-core/tool-dispatch.ts:155-164 | values with one canonical text are the same up to the order of object members |
| CanonicalJson.SameGivesEqualTexts | agent-core/tool-dispatch.ts:155-164 | the order of members never shows in the text, nor in whether there is one |
| CanonicalJson.TextsDecideSameness | agent-core/tool-dispatch.ts:155-164 | two representable values share a text exactly when they are the same JSON value |
| CanonicalJson.CanonExists | agent-core/tool-dispatch.ts:155-164 | there is a canonical text exactly for JSON nested at most 64 levels deep |
| CanonicalJson.CallKeysAgree | agent-core/tool-dispatch.ts:166-172 | two calls share a key exactly when name and input are the same |
| CanonicalJson.CallKeyExists | agent-core/tool-dispatch.ts:166-172 | a call has a key exactly when its input is JSON of at most 63 levels |
| Utf8.EncodingIsPoint | agent-core/tool-output.ts:91-113 | the encoding of every scalar value is accepted as one character (RFC 3629) |
| Utf8.PointIsEncoding | agent-core/tool-output.ts:91-113 | whatever is accepted as one character is the encoding of a scalar value: no overlong forms, no surrogates, nothing past U+10FFFF |
| Utf8.ValidStep | agent-core/tool-output.ts:116-130 | validity is decided character by character from the front |
| Utf8.Utf8BytePrefix | agent-core/tool-output.ts:116-130 | the longest prefix that is valid UTF-8 and fits |
| Utf8.SuffixValid | agent-core/tool-output.ts:144-146 | in valid text exactly the positions without a continuation byte start a valid suffix |
| Utf8.Utf8TextSuffix | agent-core/tool-output.ts:140-147 | the longest suffix that is valid UTF-8 and fits |
| BoundedText.FeedChunks | agent-core/tool-output.ts:205-213 | feeding two chunks is feeding their concatenation |
| BoundedText.StreamIsBatch | agent-core/tool-output.ts:280-310 | the byte-by-byte decoder accepts what reading the whole input at once accepts, and drops nothing exactly on valid input |
| BoundedText.FitTailIsLongest | agent-core/tool-output.ts:355-361 | tail fitting keeps the longest suffix within the budget |
| BoundedText.FitTailPush | agent-core/tool-output.ts:323-329 | evicting from the front as characters arrive keeps the longest fitting suffix of everything accepted |
| BoundedText.GreedyIsSubsequence | agent-core/tool-output.ts:312-321 | head retention keeps a subsequence, and everything exactly when everything fits |
| BoundedText.HeadMaySkip | agent-core/tool-output.ts:312-321 | head retention need not be a prefix |
| BoundedText.GreedyIsPrefix | agent-core/tool-output.ts:312-321 | what head retention keeps is a prefix exactly when everything fits or nothing fits after the first miss |
| BoundedText.HeadBodyIsPrefix | agent-core/tool-output.ts:164-177 | the rendered body of head retention is a prefix exactly when it ends by the first miss or nothing fits later |
| BoundedText.MarkerKeepsPrefix | agent-core/tool-output.ts:164-177 | beside a marker of at least two bytes the rendered body of head retention is a prefix of the input |
| BoundedText.TrimSequences | agent-core/tool-output.ts:346-363 | the in-place trimming keeps the longest fitting prefix or suffix |
| BoundedText.FitText | agent-core/tool-output.ts:164-177 | marker prefix and body together fit the budget, with one byte for a separator |
| BoundedText.ComposedFits | agent-core/tool-output.ts:262-264 | the composed text is valid UTF-8 within the budget |
| BoundedText.ComposedIsLaidOut | agent-core/tool-output.ts:262-264 | body first, marker last, exactly one newline between them when both are there, and nothing else |
| BoundedText.BoundedTextAccumulator.Accept | agent-core/tool-output.ts:312-335 | the retained window is the batch retention of all accepted characters, across in-place compaction of the backing array |
| BoundedText.BoundedTextAccumulator.Push | agent-core/tool-output.ts:205-213 | a chunk is appended to the input, or refused once the result was rendered |
| BoundedText.BoundedTextAccumulator.ChooseMarker | agent-core/tool-output.ts:240-258 | the marker is asked about what is retained, then, when computed, about the body left beside each answer, until it settles or was asked sixteen times more; the body is the one that fits beside the last answer |
| BoundedText.RoundsAreDetermined | agent-core/tool-output.ts:234-258 | the rounds of asking depend on the marker and the input alone, so whether a marker settles does |
| BoundedText.MarkerDescribes | agent-core/tool-output.ts:218-275 | the marker in a result describes that result when it is not computed or settled; a computed one that does not was asked sixteen times more without ever settling |
| BoundedText.OneLengthSettles | agent-core/tool-output.ts:240-258 | a computed marker whose answers have one length that fits settles within two more attempts |
| BoundedText.NeedNotSettle | agent-core/tool-output.ts:240-258 | a marker that says more about more, beside ten one-byte characters, alternates between two answers and never settles |
| BoundedText.BoundedTextAccumulator.Finish | agent-core/tool-output.ts:215-278 | the text is the retained bytes first and the marker last with one newline between them when both are there; input bytes are retained plus omitted bytes, the text is valid and within the limit, tail text is the longest fitting suffix, nothing is reported missing exactly for complete valid input within the limit and then the text is the input; the result is rendered once; the marker is the answer of the last round of asking, and the retained count the body left beside it |
| ControlText.IndexOfEsc | electron/pty-keyboard-mode.ts:42-43 | the first escape character from a position on |
| KeyboardMode.ParseCsi | electron/pty-keyboard-mode.ts:101-137 | the index-advancing parser agrees with the specification of a control sequence at that position |
| KeyboardMode.FieldsSplit | electron/pty-keyboard-mode.ts:113-131 | parameter values on the two sides of a semicolon are independent |
| KeyboardMode.ScanSplits | electron/pty-keyboard-mode.ts:36-60 | scanning on from the unfinished end of a text is scanning the longer text |
| KeyboardMode.FeedSplits | electron/pty-keyboard-mode.ts:36-60 | two chunks leave the state one chunk would, whenever the unfinished end fits the remnant |
| KeyboardMode.AnyChunking | electron/pty-keyboard-mode.ts:36-60 | the same for any number of chunks |
| KeyboardMode.LongPartialIsForgotten | electron/pty-keyboard-mode.ts:89-91 | a mode sequence over the bound is set in one chunk and lost in two |
| KeyboardMode.SplitsExactly | electron/pty-keyboard-mode.ts:36-60 | two chunks leave the state one chunk would exactly when the unfinished end between them fits the remnant or forgetting it makes no difference |
| KeyboardMode.SplitsByText | electron/pty-keyboard-mode.ts:36-60 | the same in terms of the text: the end fits, or the second chunk leaves it unfinished or malformed, or the sequence it completes makes no difference to the modes what follows leads to |
| KeyboardMode.LongEndIsForgotten | electron/pty-keyboard-mode.ts:89-91 | any unfinished end over the bound is forgotten: what was scanned before it lasts, and the next chunk is scanned as if it had not been there |
| KeyboardMode.ScanKeepsStack | electron/pty-keyboard-mode.ts:73-75 | the kitty stack never exceeds 8 |
| KeyboardMode.PtyKeyboardModeTracker.Feed | electron/pty-keyboard-mode.ts:36-60 | one chunk leads to the batch scan of remnant and chunk |
| KeyboardMode.ScanIsItsSequences | electron/pty-keyboard-mode.ts:36-60 | a text does to the modes what its complete sequences do, one after the other |
| KeyboardMode.ModesAreIndependent | electron/pty-keyboard-mode.ts:62-87 | each mode follows the sequences that address it and no others: two runs that agree on those agree on the mode |
| KeyboardMode.LastSettingWins | electron/pty-keyboard-mode.ts:62-71 | the last sequence that addresses the cursor keys, or the key level, decides it |
| KeyboardMode.BalancedRun | electron/pty-keyboard-mode.ts:72-87 | a child that pops what it pushed finds its stack again, less exactly the oldest entries the bound of eight pushed out; it is unchanged exactly when it was empty or the run never rose above eight |
| KeyboardMode.SetForgetsTheStack | electron/pty-keyboard-mode.ts:83-87 | setting the flags forgets the stack: whatever came before, they are all there is, or nothing where they are 0, also after a child that pops what it pushed unless the bound pushed them out |
| KeyboardMode.ReportingSurvives | electron/pty-keyboard-mode.ts:24-29 | a program that pops what it pushed and sets no key level leaves modifier reporting as it was, exactly unless it rose by eight or more over flags that alone asked for it |
| BracketedPaste.HasDecParam | electron/pty-bracketed-paste.ts:69-89 | true exactly when the value is one of the numbers that end at a semicolon or at the end |
| BracketedPaste.ScanSplits | electron/pty-bracketed-paste.ts:26-62 | scanning on from the unfinished end of a text is scanning the longer text |
| BracketedPaste.FeedSplits | electron/pty-bracketed-paste.ts:26-66 | two chunks leave the state one chunk would, whenever the unfinished end fits the remnant |
| BracketedPaste.AnyChunking | electron/pty-bracketed-paste.ts:26-66 | the same for any number of chunks |
| BracketedPaste.SplitsExactly | electron/pty-bracketed-paste.ts:26-66 | two chunks leave the state one chunk would exactly when the unfinished end between them fits the remnant or forgetting it makes no difference |
| BracketedPaste.SplitsByText | electron/pty-bracketed-paste.ts:26-66 | the same in terms of the text: the end fits, or the second chunk leaves it unfinished or malformed, or the sequence it completes makes no difference to the mode what follows leads to |
| BracketedPaste.LongEndIsForgotten | electron/pty-bracketed-paste.ts:64-66 | any unfinished end over the bound is forgotten: what was scanned before it lasts, and the next chunk is scanned as if it had not been there |
| BracketedPaste.LongPartialIsForgotten | electron/pty-bracketed-paste.ts:64-66 | the mode's sequence with leading zeros over the bound is set in one chunk and lost in two |
| BracketedPaste.BracketedPasteModeTracker.Feed | electron/pty-bracketed-paste.ts:26-66 | one chunk leads to the batch scan of remnant and chunk; the remnant stays bounded |
| PrefixEvidence.MarkersDoNotCount | agent-core/cache.ts:374-387 | moving cache markers within a protocol block leaves the stripped item as it was |
| PrefixEvidence.MarkerAnywhere | agent-core/cache.ts:374-387 | a block with a marker put anywhere differs from the block without it only in its markers |
| PrefixEvidence.OnlyMarkersGo | agent-core/cache.ts:383 | of a block the two marker members go, and every other member stays as often as it was there |
| PrefixEvidence.StreamUnique | agent-core/cache.ts:410 | the length-and-text framing is uniquely decodable |
| PrefixEvidence.CollectEvidence | agent-core/cache.ts:392-419 | exact evidence exactly for usable requests: the digest of all framed items, and the digest copied at the old boundary is the one of the first items |
| PrefixEvidence.PrefixChangedIsExact | agent-core/cache.ts:421-428 | with a collision-free digest the prefix is reported changed exactly when the old texts are not a prefix of the new ones |
| PrefixEvidence.PrefixChangedIsExactOnItems | agent-core/cache.ts:374-428 | the same over the marker-stripped items, for any stringify that gives no two of them one text |
| PrefixEvidence.PrefixChangedIsExactForJson | agent-core/cache.ts:374-428 | the same for JSON items and the text JSON.stringify gives them, where only the digest is assumed to be free of collisions |
| JsonWriting.WrittenUnique | agent-core/cache.ts:405 | written values are uniquely decodable, whatever follows them |
| JsonWriting.WrittenIsInjective | agent-core/cache.ts:405 | no two JSON values are written as the same text, members in the order they stand in |
| JsonWriting.WrittenExists | agent-core/cache.ts:405 | a value has a text exactly when every part of it is JSON |
| ClaimPaths.NormalizeClaimPath | agent-core/subagents.ts:803-823 | the normal form or the first refusal, in source order |
| ClaimPaths.NormalizedIsClaim | agent-core/subagents.ts:808-822 | a normalized path consists of plain segments: none is empty, "." or ".." |
| ClaimPaths.DriveComesThrough | agent-core/subagents.ts:812-823 | a normalized path has a drive letter exactly when the first segment kept is one, and the claimed path then begins with a "." segment |
| ClaimPaths.DotInFront | agent-core/subagents.ts:812-823 | every short, clean path of plain segments without trailing white space is a normal form, drive letter or not: it takes "./" in front |
| ClaimPaths.DriveIsMissed | agent-core/subagents.ts:812-823 | a drive path that is refused as it stands and accepted with "./" in front |
| ClaimPaths.NormalFormIsClean | agent-core/subagents.ts:805-811 | it has no control character and at most 200 characters |
| ClaimPaths.OverlapIsPrefix | agent-core/subagents.ts:825-829 | on normalized paths, overlap is exactly that one segment list is a prefix of the other |
| ClaimPaths.NormalizeTwice | agent-core/subagents.ts:808-822 | normalizing again changes nothing exactly when the normal form has no white space at its edges and no drive letter |
| ClaimPaths.NormalizeTwiceBySegments | agent-core/subagents.ts:808-822 | the same in terms of the segments kept: no white space where the first begins or the last ends, and no drive letter in front |
| ClaimPaths.NormalFormMayChange | agent-core/subagents.ts:808-822 | a path that is normalized twice to something else |
| SubagentRegistry.FindOverlap | agent-core/subagents.ts:1049-1054 | an error exactly when an active claim overlaps, and it names such a run and path |
| SubagentRegistry.SubagentRegistry.BeginSpawn | agent-core/subagents.ts:948-1026 | the checks before credentials pass exactly for admissible requests; the suspended spawn carries the trimmed task, the inherited read-only flag and the normalized, distinct claims; a refusal names the first check, in source order, that objects |
| SubagentRegistry.SubagentRegistry.ClaimAll | agent-core/subagents.ts:997-1007 | every claimed path is normalized and kept once, or the first refusal is returned |
| SubagentRegistry.SubagentRegistry.FinishSpawn | agent-core/subagents.ts:1026-1078 | whatever happened while waiting, a run starts exactly when authenticated, below the limit and without overlap; it gets a number never used before; a refusal changes nothing and has the first reason |
| SubagentRegistry.SubagentRegistry.SettleRun | agent-core/subagents.ts:911-936 | an active run ends once and moves behind all others, beyond ten the least recently ended goes; every other outcome changes nothing |
| SubagentRegistry.SubagentRegistry.EvictSettledRuns | agent-core/subagents.ts:939-946 | as many ended runs as there are beyond ten are dropped, least recently ended first |
| SubagentRegistry.RetainedKeepsTheLast | agent-core/subagents.ts:939-946 | dropping them keeps every active run and exactly the last ten ended ones, in order |
| SubagentRegistry.SubagentRegistry.RecordMessage | agent-core/subagents.ts:1081-1104 | the trimmed message is appended to the inbox of that active run and nothing else changes, or the first reason against it is returned |
| SubagentRegistry.AnyInterleaving | agent-core/subagents.ts:948-1104 | over every interleaving of spawns suspended at the credentials check, endings and messages: at most 4 active runs with pairwise non-overlapping claims, exactly the last 10 ended runs kept in order, every number used once and ended at most once, inboxes of at most 50 |
| Prune.NormalizeMessages | agent-core/reclaim.ts:145-169 | sorted by sequence number, or nothing when a number occurs twice |
| Prune.SortSorted | agent-core/reclaim.ts:167 | sorting is ascending and keeps the messages |
| Prune.ProtectedStart | agent-core/reclaim.ts:200-216 | the protected suffix holds the last two prompts and the protected tokens, as far as there are any, and nothing more |
| Prune.ProtectedStartIsUnique | agent-core/reclaim.ts:200-216 | the description of the protected suffix determines where it begins |
| Prune.PlanPruneStubs | agent-core/reclaim.ts:184-289 | the plan is a first part, cut at 256, of the eligible blocks outside the protected suffix, oldest first; it is empty unless history or billed fill reach 80 % of what is usable; without its last pick the history itself would stay above 60 %, with all picks it does not unless blocks or room ran out |
| Prune.FillOnlyGates | agent-core/reclaim.ts:192-199 | plans that differ only in the billed fill are the same or one takes nothing; with the same pressure they are the same |
| Prune.TakeIsMinimal | agent-core/reclaim.ts:223-285 | a plan is a prefix of the candidates, does not meet the quota without its last pick, and meets it unless candidates or room ran out |
| Prune.PlanIsOk | agent-core/reclaim.ts:218-288 | picks are strictly increasing addresses of eligible, unprotected blocks, at most 256, and a message's drop is its last pick |
| Prune.PlanIsComplete | agent-core/reclaim.ts:223-285 | nothing is passed over: an eligible block outside the protected suffix is picked, or waits for a drop of its own message, if it comes no later than the last pick, or if under pressure the plan is neither enough nor out of room |
| Prune.DescendingHits | agent-core/session/replay.ts:142-143 | applied highest index first, every target finds its own block and the result is the planned one |
| Prune.AscendingHits | agent-core/reclaim.ts:219-222 | applied in ascending order the result is the same |
| Prune.PrunedStaysVisible | agent-core/reclaim.ts:235 | a message that had something besides thinking still has |
| Prune.PlanOwnsItsPicks | agent-core/reclaim.ts:218-288 | split by message, the targets of a plan address eligible blocks of that message in order |
| Prune.PruneKeepsHistoryValid | agent-core/main.ts:2770-2776 | a pruned history is valid with the same calls pending |
| Prune.ApplyReceiptPrune | agent-core/session/replay.ts:51-119 | all targets are applied in list order on copies, or one that does not find its block is met and no message changes |
| Prune.ReplayIsThePlan | agent-core/session/replay.ts:51-119 | applying a plan's targets in replay's order gives exactly the planned history |
| Prune.ReplayNeverFails | agent-core/session/replay.ts:63-100 | in that order no target of a plan is stale when its turn comes |
| Prune.SortIsReplayOrder | agent-core/session/replay.ts:142 | the sort turns the order of each message's targets around and loses none |
| Prune.SortedForReplay | agent-core/session/replay.ts:142 | the sort puts messages oldest first and the targets of one message from the back, and keeps every target as often as it was there |
| Prune.ReplayPrune | agent-core/session/replay.ts:140-143 | sorting the targets of a plan as replay does and applying them gives exactly the planned history |
| Prune.PlanAndReplay | agent-core/session/replay.ts:140-143 | planning a prune and replaying its receipt is never refused, applies the plan and leaves every message as planned, and keeps a valid history valid with the same calls pending |
| Stall.RepeatedCycleIsLeast | agent-core/stall.ts:215-225 | the least size up to 8 whose last three blocks coincide, none exactly when there is none |
| Stall.BlocksCoincide | agent-core/stall.ts:216-218 | comparing with the first block position by position, modulo the size, is comparing whole blocks |
| Stall.KeysAreRotations | agent-core/stall.ts:219-222 | two cycles share a key exactly when one is a rotation of the other |
| Stall.RunInvariant | agent-core/stall.ts:267-297 | over every run, recent turns stay within 24 and strictness comes only from guidance since the last reset |
| Stall.StallNeedsWarning | agent-core/stall.ts:286-288 | a run is stopped only if guidance was offered at an earlier turn with no text-only turn since |
| Stall.RepeatsAreStopped | agent-core/stall.ts:272-288 | from any state, six turns with the same calls include a stop, whatever the calls returned |
| Stall.SameCallsStopBySix | agent-core/stall.ts:272-288 | from a fresh tracker the same calls are stopped by the sixth turn |
| Stall.FailuresAreStopped | agent-core/stall.ts:181-189 | from any state, six turns whose calls all fail in one and the same way include a stop, whatever the calls are |
| Stall.NotEveryLoopIsStopped | agent-core/stall.ts:279-292 | a loop of one call three times and another once is warned every round and never stopped, for any number of rounds |
| Stall.WarnedCycleStops | agent-core/stall.ts:278-288 | a cycle that comes back after its guidance, in any rotation, is stopped when it shows again |
| Stall.DecisionIs | agent-core/stall.ts:283-296 | at any turn of any run guidance or a stop comes exactly when the turns since the last guidance or text-only turn end in a loop, and it is the stop exactly when that loop is the one of the last guidance, kept up ever since |
| Stall.CyclesAreStopped | agent-core/stall.ts:267-297 | from a fresh tracker a cycle of up to eight turns that never shows a shorter loop gets guidance exactly at the end of its third round and the stop exactly at the end of its sixth |
| Stall.DistinctCyclesAreStopped | agent-core/stall.ts:267-297 | rounds of two to eight different calls that fail in no way are warned about after three and stopped after six |
| StreamAssembly.TakenStep | agent-core/main.ts:3995-4150 | a stream is taken exactly when each of its events was taken in turn |
| StreamAssembly.FoldShape | agent-core/main.ts:4022-4132 | the events of one index make a block exactly when they are one start, matching deltas within the limits and at most one stop; its parts are then its own pieces, concatenated |
| StreamAssembly.StreamReader.OnStart | agent-core/main.ts:4022-4073 | a start succeeds exactly for a new index, a named block and free counters, and changes no other block |
| StreamAssembly.StreamReader.OnDelta | agent-core/main.ts:4074-4126 | a delta succeeds exactly when its block is open, its type matches the start and the limits hold, and changes no other block |
| StreamAssembly.StreamReader.OnStop | agent-core/main.ts:4127-4132 | a stop succeeds exactly for an open block, and changes no other block |
| StreamAssembly.StreamReader.PushAggregate | agent-core/main.ts:3901-3919 | a piece is appended exactly when its own and the total limit allow it, and the running total grows by its bytes |
| StreamAssembly.StreamReader.PushCitations | agent-core/main.ts:3920-3938 | citations are appended in order exactly when count and byte limits allow all of them |
| StreamAssembly.StreamReader.PushJson | agent-core/main.ts:4112-4123 | a fragment is appended to its own call exactly when both limits allow it |
| StreamAssembly.StreamReader.Feed | agent-core/main.ts:3995-4150 | an event is taken exactly when the specification takes it, and the maps then hold what grouping by index prescribes |
| StreamAssembly.StreamReader.Finish | agent-core/main.ts:4162-4208 | the message is returned exactly when it began, ended, every block is closed and every call's arguments decode; its blocks are in index order, each from its own group |
| StreamAssembly.Assemble | agent-core/main.ts:3982-4208 | a whole stream succeeds exactly when it is taken and complete, with those blocks; any other event sequence fails |
| StreamAssembly.SuccessMeansWellOrdered | agent-core/main.ts:3982-4208 | in a successful stream every block was started once, then got only matching deltas, and was stopped once; text, thinking, signature and arguments are the concatenation of its own deltas |
| StreamAssembly.InterleavingDoesNotMatter | agent-core/main.ts:3982-4208 | streams with the same groups give the same blocks, however they are interleaved |
| StreamAssembly.SameMessageOrNone | agent-core/main.ts:3982-4208 | of two streams with the same events, in the same order for each block and the end of the message last in both or in neither, both succeed with the same blocks or neither does |

## Left out

- Everything outside the modelled files' logic: process and pty spawning, native input, windows and IPC, fetch and SSE transport, authentication, MCP, file locks, session files, traces, usage accounting, UI text, menus, model tables and rates.
- The terminal source's `pause` calls nothing back; `resume`, `send` and `sendExit` may make any public call.
- Timers and promises: a frame timer or a deadline is a call that may come at any time; promise microtasks and the 16 ms interval are not modelled, only whether coalescing is on (`paced`).
- Records in a queue are values, so the identity test `inFlight.get(n) === record` is equality of records; sequence numbers make the two agree. Fixed 64 KiB buffers and their in-place copy are byte sequences.
- Fairness of the egress rotation over several frames: a record put back over the byte budget has already advanced the cursor, so a terminal can keep losing its turn. `NextQueuedQueue` states the rotation of one choice.
- `stats` of the egress scheduler, and the identity predicates of `electron/pty-egress.ts:53-144`: they only read or compare.
- Ledger arithmetic is over unbounded integers; a terminal generation, window generation or deadline is checked against the safe integer range as the source does, `nextSequence` is not.
- Text outside `PtyText` and `CanonicalJson` is a sequence of code points without lone surrogates; lengths the source counts in UTF-16 units are counted in code points there. JavaScript numbers in parameter values are exact integers.
- JSON.parse is a parameter (`parse`), SHA-256 is a parameter (`digest`) or the identity; where a result needs it to be free of collisions it says so. JSON.stringify is `JsonWriting.Written` on JSON values. `CanonicalJson` has integers below 10^21 for numbers, and `NotJson` for values it throws on.
- What carrying out a call gives, the stage at which it may raise, interruption, steering and the tracker's guidance are one parameter of a turn (`ToolTurn.Outside`); the schema check of arguments is the parameter `inputErrors`. Within a wave results are taken in call order; real overlap of reads is not modelled.
- The message a failed or skipped call gets is a short stand-in or abstract text, as are spawn, path and provider errors; which error is returned is modelled.
- Request overlays, block projection and `projectRequest` are not modelled; `ToolHistory` is the automaton inside it.
- Token estimates of messages are given numbers; re-estimation after a prune, bill correction (`compactionPressure`) and the prune cooldown are left out as plain arithmetic.
- Prune.ApplyReceiptPrune: a target is recognised by the block it addresses instead of by its bytes, characters and SHA-256, and the checks for a revision id seen before and for a target missing from the receipt are not modelled, because they compare values the model does not have.
- PtyPath.EndToEnd: the link holds from construction (`Open`) and is kept by every step of the terminal (`Read`, `Resume`, `Exit`, `Drain`) and by every step of the scheduler that admits nothing else to the queue (`Follow`); calls the two make into each other run after the call that causes them, not inside it, and no single run method composes all steps.
- Stall.CyclesAreStopped: one-way; for loops with a shorter loop inside, no condition on the block alone says whether they are stopped, only `DecisionIs` turn by turn.
- Prune eligibility measures bytes, characters, hashes and receipt metadata; the model has one number per block, its gain, zero when any of these checks refuses it.
- `StreamAssembly`: decoding bytes into SSE lines, the line buffer limit, keep-alive lines, usage and stop reason, the partial result salvaged from a stream that failed, and which limit is named in the error. An accumulator within its limit is represented by its text, as `BoundedTextAccumulator.Finish` allows.
- `SubagentRegistry`: parsing of run ids, model and effort routes (booleans of the request), output scanning (the parameter `scanned`), delivery flags, the inbox file, brief and result files, `reconcileSubagentRuns`, and `clear()`, a reset for tests that starts the numbers again, which "every number used once" excludes.
- `Stall`: fingerprints and failure keys are given numbers, equal exactly when the source's strings are; the regular expressions behind them and the guidance text are left out.
- Infinite runs and unbounded callback chains: runs and nesting have any finite length. Blocks of a wrong JavaScript type (a text block without text, say) are not modelled where the types rule them out.
