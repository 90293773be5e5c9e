# Device agent: verified model

A Dafny 4.11 model of the device agent under `server/cmd/device-agent`: a durable
journal with live fan-out, cancellation and recovery. Each module follows one part of
the agent. Code that changes state in place is a class or a loop whose contract equates
the new state with a specification function; protocols are transition systems over
those functions, and the main results hold for every run.

`dafny verify dfyconfig.toml` checks everything.

## Modules

- `Journal.dfy` - the conversation event journal: append, retention, event pages.
- `Turns.dfy`, `TurnContents.dfy`, `Store.dfy` - conversation, turns, generations and
  tool runs as specification functions with their run invariant, what each of them stores
  and when it is accepted, and the store that performs them in place.
- `StreamHub.dfy`, `Pump.dfy`, `Attach.dfy`, `AttachEnds.dfy`, `Guarantees.dfy` - the
  conversation stream hub and its subscribers, the polling pump, the attach handler as a
  transition system, how an attach ends, and what a client can rely on.
- `AgentEvents.dfy`, `Subscription.dfy`, `Serving.dfy`, `AgentHub.dfy` - the agent event
  journal, the `event.subscribe` protocol, who is served by it, and the hub and pump that
  carry it.
- `Catalog.dfy` - the catalog: change log, pinned keyset snapshot, change feed, byte
  bounds and a client that overlays them.
- `Lineage.dfy`, `Cutoff.dfy`, `CutoffRelease.dfy` - the subagent tree with its walks,
  and the ref-counted cancellation cutoff under two mutexes with its release.
- `Scheduler.dfy`, `SchedulerProgress.dfy` - the barrier scheduler of tool calls, what it
  guarantees and that it always finishes.
- `Goal.dfy` - the goal state machine, racing drivers and the drive loop.
- `Compaction.dfy`, `Resume.dfy` - context compaction and its token arithmetic, and how
  a persisted summary is resumed.
- `DeltaText.dfy`, `EventStream.dfy`, `MessagePages.dfy` - UTF-8 deltas and chunked
  reads, provider event streams, message pages.

## Where the code does less than it seems to promise

Each of these is a lemma with the exact condition and a concrete input or run.

- A replay whose range does not fit its first page always ends as a sequence gap
  (`ReplayReachesItsEndIffOnePageDoes`, `ReplayCanStopAtItsFirstPage`), although the loop
  is written for several pages.
- A second attach can raise the published sequence past an event an older subscriber has
  not been handed, and that subscriber then waits (`SecondSubscriberIsHarmlessIff`,
  `OlderHandlerCanStarve`). No-loss is therefore stated for runs in which that does not
  happen (`NothingIsLost`), one handler at a time being such; order and exactness hold for
  all.
- A gap fill of the live loop walks past the terminal event of the generation without
  noticing it, and the attach then waits for an end that does not come, one handler alone
  included (`EndIsMissedIff`, `EndCanBeMissed`).
- A wall clock that steps back leaves holes in the conversation journal and in the agent
  journal that their reset tests do not see (`ExpiryKeepsIntervalIff`,
  `RetentionKeepsIntervalIff`, `EveryCursorReplaysIff`, and one `ClockStepBackLeavesHole`
  for each).
- An event page is tested for size with `hasMore` true, which the code takes for the longer
  form; the last page of a walk carries `false` and is refused when the tested size is the
  budget to the byte (`LastPageIsRefusedIff`, `FittingPageCanBeRefused`).
- A message whose wire form exceeds the 48 KiB budget on its own stops every walk over the
  messages of its conversation (`ReadAll`, `MarkupStopsTheWalk`).
- The catalog's reset test can fire for a client that missed nothing, because change
  sequences are shared between projects (`ResetIsSpuriousIff`, `ResetCanBeSpurious`).
- A delete that falls between the two transactions of a spawn leaves the new child with a
  deleted parent (`StepOrphansIff`, `ParentCanBeDeletedMidSpawn`).
- A conversation with 200 completed messages after its summary starts later turns without
  it (`ResumeIff`, `SummaryCanBeForgotten`).
- A compaction during the regeneration of an answer the summary already covers, or one that
  reaches into what a turn said while it was steered before any tool call, is refused and
  ends the turn (`SaveIsRefusedIff`, `CoveredAnswerIsRefused`, `SteeredTurnIsRefused`).
- The pool bound of eight tool calls becomes nine after a cancellation, in rounds with a
  group of more than eight calls (`NinthRunsIff`, which builds the run).

## Model

| member | source | states |
|---|---|---|
| `EventJournal.Journal.Append` | server/cmd/device-agent/ai_conversation_store.go:902-947 | A refused payload and an exhausted sequence leave the journal alone; otherwise the stored event gets the next sequence, is the last row, and the rows are those appending and pruning keep |
| `EventJournal.Journal.Prune` | server/cmd/device-agent/ai_conversation_store.go:955-986 | Pruning removes exactly the rows past the age cutoff, then oldest rows one by one while the byte budget is exceeded; the loop ends |
| `EventJournal.Journal.ListPage` | server/cmd/device-agent/ai_conversation_store.go:2874-2976 | Each kind of bad input is refused; a page is a front part of what follows the cursor, within limit and byte budget, and stops only where the next row would not fit; `hasMore` exactly while the cursor is below the watermark; an item is too large exactly when the first row does not fit alone, a page exactly when its final form exceeds the budget |
| `EventJournal.TrimmedIsLongestAffordableSuffix` | server/cmd/device-agent/ai_conversation_store.go:955-986 | The byte prune keeps the longest suffix that fits, and nothing shorter |
| `EventJournal.NewestEventSurvives` | server/cmd/device-agent/ai_conversation_store.go:902-986 | Whatever the clock does, the newest event survives its own pruning with the next sequence and the byte budget holds |
| `EventJournal.AppendedOrdered` | server/cmd/device-agent/ai_conversation_store.go:902-986 | Appending keeps the rows in sequence order and invents none |
| `EventJournal.SequencesAreNeverReused` | server/cmd/device-agent/ai_conversation_store.go:902-947 | After n appends the watermark is n and every retained row is the event that was appended under its sequence |
| `EventJournal.ExpiryKeepsIntervalIff` | server/cmd/device-agent/ai_conversation_store.go:955-986 | Age pruning leaves one interval exactly when rows expire in order |
| `EventJournal.AppendKeepsInterval` | server/cmd/device-agent/ai_conversation_store.go:902-986 | With timestamps that do not decrease, retained rows stay one interval ending at the watermark |
| `EventJournal.RunKeepsInterval` | server/cmd/device-agent/ai_conversation_store.go:902-986 | Over any run of appends whose clock does not step back the rows are one interval that ends with the newest event |
| `EventJournal.ClockStepBackLeavesHole` | server/cmd/device-agent/ai_conversation_store.go:955-986 | A concrete clock step back leaves a hole that the reset test does not see |
| `EventJournal.LiveCursorMissesNothing` | server/cmd/device-agent/ai_conversation_store.go:2874-2976 | Over an interval, a cursor that passes the reset test can replay every later event |
| `EventJournal.RunCursorMissesNothing` | server/cmd/device-agent/ai_conversation_store.go:2874-2976 | After such a run, a cursor that passes the reset test reads exactly the events appended after it |
| `EventJournal.PageAdvances` | server/cmd/device-agent/ai_conversation_store.go:2874-2976 | A page takes its items off the front of what is left, and with more to come the cursor moves strictly towards the watermark |
| `EventJournal.PagingIsExact` | server/cmd/device-agent/ai_conversation_store.go:2874-2976 | Following `nextSequence` yields every later row once and in order, in a bounded number of pages |
| `EventJournal.LastPageIsRefusedIff` | server/cmd/device-agent/ai_conversation_store.go:2924-2976 | Once its first row fits, a page is refused as a whole exactly when it takes every row left and its size tested with `hasMore` set equals the budget, since `false` is one byte longer; the comment there says otherwise |
| `EventJournal.FittingPageCanBeRefused` | server/cmd/device-agent/ai_conversation_store.go:2924-2976 | A concrete journal of one event whose only page is refused although the event fits |
| `ConversationTurns.BeginTurnKeeps` | server/cmd/device-agent/ai_conversation_store.go:1901-2012 | Beginning a turn keeps the conversation invariant and every earlier message and event |
| `ConversationTurns.RegenerateKeeps` | server/cmd/device-agent/ai_conversation_store.go:2018-2123 | So does regenerating an answer |
| `ConversationTurns.DeltaKeeps` | server/cmd/device-agent/ai_conversation_store.go:2441-2515 | So does a text or reasoning delta, and the message grew by exactly the journalled delta |
| `ConversationTurns.ToolRunKeeps` | server/cmd/device-agent/ai_conversation_store.go:2270-2354 | So does recording a tool run |
| `ConversationTurns.ApprovalKeeps` | server/cmd/device-agent/ai_conversation_store.go:2371-2412 | So does an approval request |
| `ConversationTurns.CollaborateKeeps` | server/cmd/device-agent/ai_collaboration.go:314-384 | So does a collaboration update, which may fall outside any generation |
| `ConversationTurns.CompleteKeeps` | server/cmd/device-agent/ai_conversation_store.go:2542-2692 | So does completing, stopping or failing the turn |
| `ConversationTurns.CompletionIsAnnounced` | server/cmd/device-agent/ai_conversation_store.go:2542-2692 | Completion journals exactly one status event for each run it settles, in order, then usage exactly for a complete answer, and last the one terminal event of the generation: completed, failed or cancelled as the status says |
| `ConversationTurns.RecoverySettles` | server/cmd/device-agent/ai_conversation_store.go:3337-3392 | After restart recovery nothing generates or streams, no run is running, and the streamed text is kept |
| `ConversationTurns.RecoveryIsAlwaysAllowed` | server/cmd/device-agent/ai_conversation_store.go:3337-3392 | Recovery fails only when a number space is exhausted or an event is too large |
| `ConversationTurns.ForkIsSound` | server/cmd/device-agent/ai_conversation_store.go:1113-1268 | A fork holds copies of exactly the messages up to the boundary, under fresh ids, idle, and satisfies the invariant |
| `ConversationTurns.RunKeepsInv` | server/cmd/device-agent/ai_conversation_store.go:1113-2692 | Every state of every run satisfies the invariant, whether the conversation began empty or as a fork of any sound one |
| `ConversationTurns.RunExtends` | server/cmd/device-agent/ai_conversation_store.go:1113-2692 | Between any two states of such a run, each message grew by exactly the deltas journalled between them |
| `ConversationTurns.StepKeepsText` | server/cmd/device-agent/ai_conversation_store.go:2441-2515 | A step keeps: an assistant's stored text is the text it was copied with by a fork, if any, and then its journalled deltas |
| `ConversationTurns.RunKeepsText` | server/cmd/device-agent/ai_conversation_store.go:1113-2692 | So over every run, forked or not |
| `ConversationTurns.LifecycleIsSound` | server/cmd/device-agent/ai_conversation_store.go:1113-2692 | Main result: over whole runs, from nothing or from a fork, with restarts: generating exactly while one message streams, and it is the active assistant of that generation; ended messages never change and hold no running run; no text, tool, approval or usage event follows the terminal event |
| `TurnContents.BeginTurnOpens` | server/cmd/device-agent/ai_conversation_store.go:1901-2012 | A new question is accepted exactly while nothing generates, within its size and under unused ids; it is stored complete, followed by an empty streaming answer, and everything before it stays |
| `TurnContents.RegenerateOpens` | server/cmd/device-agent/ai_conversation_store.go:2018-2123 | An answer is generated again exactly while nothing generates and a question precedes it; everything stored stays and an empty streaming answer to the newest question before it is added |
| `TurnContents.DeltaIsStored` | server/cmd/device-agent/ai_conversation_store.go:2441-2515 | A delta is accepted exactly within its bounds; then it is what its field of the message gains and what the journal records, and nothing else changes |
| `TurnContents.ToolRunIsStored` | server/cmd/device-agent/ai_conversation_store.go:2270-2354 | A tool run is accepted exactly when it is new and running, or may follow what was last reported; then the message holds exactly that run under its id, its other runs are unchanged, and its status is journalled |
| `TurnContents.NotOwned` | server/cmd/device-agent/ai_conversation_store.go:2270-2692 | No delta, tool run, approval request or completion is accepted for a generation that is not the running one |
| `TurnContents.JournalOnly` | server/cmd/device-agent/ai_conversation_store.go:2371-2412 | Approval requests and collaboration updates change the journal alone, and when each is accepted |
| `TurnContents.CompletionIsStored` | server/cmd/device-agent/ai_conversation_store.go:2542-2692 | When a completion is accepted, and what it stores: the status asked for, the text kept, every running run settled with the ending of the turn and every other left alone, the conversation free again |
| `TurnContents.ForkIsAcceptedIff` | server/cmd/device-agent/ai_conversation_store.go:1113-1268 | A fork is accepted exactly at a complete message, and before it only at a question |
| `TurnContents.RunKeepsGenerations` | server/cmd/device-agent/ai_conversation_store.go:1901-2692 | Over every run each generation has one answer, which streams exactly until the terminal event of its generation is journalled |
| `TurnContents.SettledIffEnded` | server/cmd/device-agent/ai_conversation_store.go:2728-2806 | A generation is reported over exactly when its terminal event is in the history |
| `TurnContents.RunTellsTools` | server/cmd/device-agent/ai_conversation_store.go:2270-2692 | Main result: over every run, a message opened in it holds exactly the tool runs that were journalled for it, each once and with the status of the last status event |
| `TurnContents.RetryIsReplayed` | server/cmd/device-agent/ai_conversation_store.go:1901-1960 | A question accepted once is answered by every later state of the run with the same question and answer, changing nothing; under its id no other text is accepted |
| `ConversationStore.Store.BeginAITurn` | server/cmd/device-agent/ai_conversation_store.go:1901-2012 | The in-place begin leaves the state of the specified turn, or the old state and its error |
| `ConversationStore.Store.BeginAIRegeneration` | server/cmd/device-agent/ai_conversation_store.go:2018-2123 | The same for a regeneration |
| `ConversationStore.Store.AppendAIDelta` | server/cmd/device-agent/ai_conversation_store.go:2441-2515 | The same for a delta: message row and journal change together or not at all |
| `ConversationStore.Store.UpsertAIToolRun` | server/cmd/device-agent/ai_conversation_store.go:2270-2354 | The same for a tool run, the stored run included |
| `ConversationStore.Store.EmitInOrder` | server/cmd/device-agent/ai_conversation_store.go:2542-2692 | Several events of one transaction are appended in order, or rolled back together |
| `ConversationStore.Store.CompleteAITurn` | server/cmd/device-agent/ai_conversation_store.go:2542-2692 | The same for completion, with the events it returns being the ones appended |
| `ConversationStore.Store.RecoverInterrupted` | server/cmd/device-agent/ai_conversation_store.go:3337-3392 | The same for restart recovery of one conversation |
| `ConversationStream.AccountingIsExact` | server/cmd/device-agent/ai_conversation_stream.go:202-302 | The queue's byte counter equals the bytes queued after every operation, so its clamp at zero never acts |
| `ConversationStream.DrainIsConsecutive` | server/cmd/device-agent/ai_conversation_stream.go:181-194 | Draining yields exactly the consecutive held events after the published sequence and stops only at a missing one |
| `ConversationStream.Subscriber.EnqueueEvent` | server/cmd/device-agent/ai_conversation_stream.go:202-231 | The whole effect of queueing: ignored, reset as a slow consumer, or held under its sequence |
| `ConversationStream.Subscriber.BeginLiveAt` | server/cmd/device-agent/ai_conversation_stream.go:233-255 | Going live drops exactly the held events at or below the sequence, with their bytes |
| `ConversationStream.Subscriber.TryNext` | server/cmd/device-agent/ai_conversation_stream.go:260-302 | One turn of the wait: reset, closed, the expected event, a gap, or nothing yet |
| `ConversationStream.Hub.Subscribe` | server/cmd/device-agent/ai_conversation_stream.go:67-87 | Refused exactly when closed or full; a new subscriber is not yet live |
| `ConversationStream.Hub.DrainPending` | server/cmd/device-agent/ai_conversation_stream.go:181-200 | Every subscriber is handed exactly the drained run, in order |
| `ConversationStream.Hub.BeginLiveAt` | server/cmd/device-agent/ai_conversation_stream.go:111-142 | The published sequence moves to the captured one and past held successors, which every subscriber is handed; returns where the replay must end |
| `ConversationStream.Hub.PublishFor` | server/cmd/device-agent/ai_conversation_stream.go:146-179 | Published out of order, an event is held; in order, it and the run it unblocks are handed out once |
| `ConversationStream.Hub.Unsubscribe` | server/cmd/device-agent/ai_conversation_stream.go:333-349 | The last subscriber takes the entry with it |
| `ConversationStream.Hub.ResetAll` | server/cmd/device-agent/ai_conversation_stream.go:378-394 | A reset reaches every subscriber and the first reason stays |
| `ConversationStream.Hub.Close` | server/cmd/device-agent/ai_conversation_stream.go:396-430 | Shutdown resets every subscriber and empties the hub |
| `ConversationStreamPump.SyncOnce` | server/cmd/device-agent/ai_conversation_stream.go:458-500 | The walked rows are published one after another and every subscriber is handed exactly what that hands out; every subscriber is reset, with the reason, exactly when the cursor is lost, a row is missing or a page is refused |
| `ConversationStreamPump.WalkIsWholeIff` | server/cmd/device-agent/ai_conversation_stream.go:472-498 | The walk reaches the watermark exactly when no sequence above the cursor is missing and no page it asks for is refused; then it is every row above the cursor in order |
| `ConversationStreamPump.InOrderIsHistory` | server/cmd/device-agent/ai_conversation_stream.go:146-200 | Publishing consecutive rows in order hands out exactly the history up to the new published sequence, held successors included |
| `ConversationStreamPump.SyncHandsOutHistory` | server/cmd/device-agent/ai_conversation_stream.go:458-500 | Main result: over an intact history with no refused page a synchronization resets nobody and hands every subscriber exactly the history above the published sequence |
| `AttachProtocol.WalkPageInOrder` | server/cmd/device-agent/ai_conversation_stream.go:693-741 | The replay's page loop computes the specified walk |
| `AttachProtocol.WalkIsExact` | server/cmd/device-agent/ai_conversation_stream.go:693-741 | A walk over rows of the history moves over consecutive sequences, never past its end, and emits exactly that slice |
| `AttachProtocol.NextKeepsInv` | server/cmd/device-agent/ai_conversation_stream.go:574-741 | Every step of commits, publishes, pump, prune and handlers keeps the protocol invariant |
| `AttachProtocol.AttachIsExact` | server/cmd/device-agent/ai_conversation_stream.go:574-741 | Main result: in every interleaving, for any number of handlers and for new and forked conversations, emitted frames are the history between the cursor and the last walked sequence, filtered by the contract |
| `AttachEndings.CompletedIsOver` | server/cmd/device-agent/ai_conversation_stream.go:574-680 | Main result: an attach that ends as completed has walked past the terminal event of its generation; beyond where it stopped the history holds only collaboration updates of that generation |
| `AttachEndings.FinishedThrough` | server/cmd/device-agent/ai_conversation_stream.go:666-680 | It ends as completed only after reading the watermark once more and walking at least that far |
| `AttachEndings.NextIsDelivered` | server/cmd/device-agent/ai_conversation_stream.go:652-680 | A queued next event is walked and delivered as the contract allows, and the live loop is left exactly when it is the terminal event of the handler's own generation |
| `AttachEndings.NothingToTake` | server/cmd/device-agent/ai_conversation_stream.go:626-652 | Without its next event the live loop stays where it is, but for a gap fill up to a later event it holds, a reset, or a close |
| `AttachEndings.JoinRefusesLostCursors` | server/cmd/device-agent/ai_conversation_stream.go:574-626 | Joining turns a handler away exactly when its cursor was lost in the state whose watermarks it read; any other replays from its cursor at least to that watermark, or has nothing to replay |
| `AttachEndings.EndIsMissedIff` | server/cmd/device-agent/ai_conversation_stream.go:640-652 | The live loop misses its end exactly when a gap fill walks past the terminal event of the generation; then the attach never ends as completed |
| `AttachEndings.EndCanBeMissed` | server/cmd/device-agent/ai_conversation_stream.go:640-652 | A concrete run of one handler alone that waits with its generation over and everything published and walked |
| `AttachGuarantees.DeliveredText` | server/cmd/device-agent/ai_conversation_stream.go:574-741 | The deltas a handler delivered are those of its slice of the history, wherever it stopped |
| `AttachGuarantees.WalkedToAState` | server/cmd/device-agent/ai_conversation_stream.go:574-741 | Wherever a handler stops, inside the events of one transaction too, there is a stored state that is the one it has caught up with |
| `AttachGuarantees.Reconstruction` | server/cmd/device-agent/ai_conversation_store.go:1783-1863 | Main result: snapshot text at watermark W plus the deltas delivered after W is the text of the state the handler has caught up with, in every interleaving and wherever it stopped |
| `AttachGuarantees.ReconstructionOfNewMessage` | server/cmd/device-agent/ai_conversation_store.go:1783-1863 | A message opened after the snapshot is rebuilt from the deltas alone |
| `AttachGuarantees.NothingIsLost` | server/cmd/device-agent/ai_conversation_stream.go:111-231 | With any number of handlers, while no joining one raises the published sequence over an event another has neither reached nor queued, every published sequence is queued, walked, or ended by a reset or close |
| `AttachGuarantees.LoneBehaviorLosesNothing` | server/cmd/device-agent/ai_conversation_stream.go:111-231 | With one handler at a time nobody is passed over, and every published sequence is queued, walked, or ended by a reset or close |
| `AttachGuarantees.NeverWaitsBehindTheJournal` | server/cmd/device-agent/ai_conversation_stream.go:260-302 | Main result: in such a run, once the hub has caught up, a handler behind the journal finds exactly its next event |
| `AttachGuarantees.SecondSubscriberIsHarmlessIff` | server/cmd/device-agent/ai_conversation_stream.go:111-142 | A second attach keeps the first one covered exactly when it does not raise the published sequence over an event the first has neither reached nor queued |
| `AttachGuarantees.OlderHandlerCanStarve` | server/cmd/device-agent/ai_conversation_stream.go:111-142 | A concrete run in which the older handler waits behind the journal |
| `AttachGuarantees.ReplayReachesItsEndIffOnePageDoes` | server/cmd/device-agent/ai_conversation_stream.go:693-741 | A replay that the peer keeps accepting reaches its end exactly when its first page does; otherwise it ends as a sequence gap |
| `AttachGuarantees.ReplayCanStopAtItsFirstPage` | server/cmd/device-agent/ai_conversation_stream.go:693-741 | A concrete run in which an accepted replay over an intact journal ends as a sequence gap after its first page, the one the page query gives at the attach budget |
| `AgentEventStream.AgentJournal.Append` | server/cmd/device-agent/agent_event_store.go:160-199 | Refused exactly for an empty or oversized payload or an exhausted sequence; otherwise the history grows by the record and the rows are those retention keeps |
| `AgentEventStream.AppendKeepsJournal` | server/cmd/device-agent/agent_event_store.go:160-199 | Retention by count and age never loses the newest record and keeps rows a part of the history, whatever the clock does |
| `AgentEventStream.RetentionKeepsIntervalIff` | server/cmd/device-agent/agent_event_store.go:189-197 | Retention leaves one interval exactly when no dropped row follows a row that stays |
| `AgentEventStream.AppendKeepsInterval` | server/cmd/device-agent/agent_event_store.go:160-199 | With times that do not decrease an append keeps one interval that ends with the new record |
| `AgentEventStream.RunKeepsJournal` | server/cmd/device-agent/agent_event_store.go:160-199 | After any run of appends, whatever the clock does, rows are part of the history and end with its newest record |
| `AgentEventStream.EveryCursorReplaysIff` | server/cmd/device-agent/agent_event_store.go:336-399 | Every cursor that passes the reset test finds all later records exactly when the rows are one interval |
| `AgentEventStream.RetainedCursorReplays` | server/cmd/device-agent/agent_event_store.go:336-399 | After any run of appends whose clock does not step back, a cursor that passes the reset test lists everything after it |
| `AgentEventStream.ClockStepBackLeavesHole` | server/cmd/device-agent/agent_event_store.go:189-197 | A concrete clock step back leaves a hole that the reset test does not see |
| `AgentEventStream.ReplayIsContiguous` | server/cmd/device-agent/agent_event_rpc.go:242-257 | The check accepts exactly the whole range after the cursor through the watermark |
| `AgentSubscription.Subscriber.Enqueue` | server/cmd/device-agent/agent_event_hub.go:150-172 | Ignored, reset as a slow consumer, or queued with its bytes |
| `AgentSubscription.Subscriber.BeginLiveAt` | server/cmd/device-agent/agent_event_hub.go:177-187 | Arms only this subscriber, unless it is closed |
| `AgentSubscription.Subscriber.Receive` | server/cmd/device-agent/agent_event_rpc.go:153-160 | The channel receive takes the oldest record and leaves its bytes counted |
| `AgentSubscription.Subscriber.Consume` | server/cmd/device-agent/agent_event_hub.go:208-219 | Consuming gives the bytes back and reports whether the subscription is open |
| `AgentEventHub.ProjectHub.Subscribe` | server/cmd/device-agent/agent_event_hub.go:41-59 | Refused exactly when closed or full |
| `AgentEventHub.ProjectHub.Publish` | server/cmd/device-agent/agent_event_hub.go:129-148 | A record at or below the published sequence changes nothing; a newer one is offered to each subscriber once |
| `AgentEventHub.ProjectHub.Unsubscribe` | server/cmd/device-agent/agent_event_hub.go:78-94 | The last subscriber takes the project entry with it |
| `AgentEventHub.ProjectHub.Close` | server/cmd/device-agent/agent_event_hub.go:233-258 | Shutdown closes and resets every subscriber |
| `AgentEventHub.SyncOnce` | server/cmd/device-agent/agent_event_pump.go:74-97 | The hub ends at the high watermark and every subscriber was offered exactly the retained records above the old published sequence, in order |
| `AgentSubscription.BehaviorKeepsInv` | server/cmd/device-agent/agent_event_rpc.go:44-175 | Every step of appends, pump, fan-out and subscribers keeps the subscription invariant |
| `AgentSubscription.StreamIsExact` | server/cmd/device-agent/agent_event_rpc.go:44-175 | Main result: for any number of subscribers and every interleaving, emitted frames are exactly the records after the cursor up to the last one |
| `AgentSubscription.DrainedMeansCaughtUp` | server/cmd/device-agent/agent_event_rpc.go:44-175 | Main result: with two watermarks and per-subscriber suppression, a drained subscriber without reset has emitted everything once the hub has published the high watermark |
| `AgentSubscription.LastPublishReachesHighWatermark` | server/cmd/device-agent/agent_event_pump.go:74-97 | A synchronization that finishes has published the high watermark |
| `AgentSubscription.BytesNeverClamp` | server/cmd/device-agent/agent_event_hub.go:150-219 | At every moment the byte counter is the bytes queued or received but not consumed, within both bounds, so the clamp never acts |
| `AgentServing.ResetTestIff` | server/cmd/device-agent/agent_event_rpc.go:64-103 | The reset test turns away exactly a subscriber without a cursor, one ahead of the second watermark, and one whose next record is gone with everything before it; any other goes on from its cursor |
| `AgentServing.RetentionResetIff` | server/cmd/device-agent/agent_event_rpc.go:71-103 | If the clock never stepped back, retention turns a subscriber away exactly when a record after its cursor is gone |
| `AgentServing.ReplayServesIff` | server/cmd/device-agent/agent_event_rpc.go:104-123 | A replay fails as a gap exactly when a record of its range is gone; a peer that takes every frame is left streaming with exactly the history between its cursor and the second watermark |
| `AgentServing.GoodCursorIsServed` | server/cmd/device-agent/agent_event_rpc.go:64-123 | Main result: if the clock never stepped back, a cursor that passed the reset test is served from there to the second watermark when nothing was pruned since, and a prune in between is noticed exactly when it took the record after the cursor |
| `AgentServing.ConsumeIff` | server/cmd/device-agent/agent_event_rpc.go:153-175 | A record from the queue is one of the history; a walked one is dropped, the next one delivered, and exactly a later one ends the stream as a gap |
| `AgentServing.SlowConsumerIff` | server/cmd/device-agent/agent_event_hub.go:150-172 | A subscriber is reset as slow exactly when a record it should hold finds its queue full, by count or by the bytes of all it holds |
| `ConversationCatalog.CatalogStore.AppendChange` | server/cmd/device-agent/ai_conversation_store.go:860-900 | The change gets the next shared sequence as its item's revision and the newest 4096 changes are kept |
| `ConversationCatalog.CatalogStore.Write` | server/cmd/device-agent/ai_conversation_store.go:860-900 | A create or update stores exactly the given summary and time under the id, leaves every other row alone, and records a change that carries that row |
| `ConversationCatalog.WriteIsStored` | server/cmd/device-agent/ai_conversation_store.go:860-900 | After a write the row and the newest change carry exactly what was given, and every other row is unchanged |
| `ConversationCatalog.RowsShowLastWrites` | server/cmd/device-agent/ai_conversation_store.go:860-1716 | Main result: in every run a conversation is in the catalog exactly when the last operation on it was a write, and its row is what that write gave |
| `ConversationCatalog.CatalogStore.Delete` | server/cmd/device-agent/ai_conversation_store.go:1693-1716 | A delete announces every removed conversation and then drops exactly those rows, or changes nothing |
| `ConversationCatalog.BoundSnapshotPage` | server/cmd/device-agent/ai_conversation_rpc.go:181-207 | The byte bound sends the longest prefix whose prefixes all fit, with the cursor of its last item exactly while something follows |
| `ConversationCatalog.BoundFeedPage` | server/cmd/device-agent/ai_conversation_rpc.go:212-238 | The same for changes: acknowledged through the last change sent, more signalled while one is left |
| `ConversationCatalog.ServeSnapshot` | server/cmd/device-agent/ai_conversation_rpc.go:181-207 | A snapshot page from the query through the byte bound to the client is one step of the client's run, without a cursor exactly when it is the last; refused exactly when its first row does not fit |
| `ConversationCatalog.ServeFeed` | server/cmd/device-agent/ai_conversation_rpc.go:212-238 | So is a page of changes, with more signalled exactly while a change is left, or a reset |
| `ConversationCatalog.ResetNeverMisses` | server/cmd/device-agent/ai_conversation_store.go:1409-1450 | A client not told to reset still finds every change after its acknowledgement |
| `ConversationCatalog.MissedIff` | server/cmd/device-agent/ai_conversation_store.go:1409-1450 | A change after the acknowledgement was pruned exactly when the newest pruned one comes after it |
| `ConversationCatalog.SnapshotCompletes` | server/cmd/device-agent/ai_conversation_store.go:1505-1554 | After the last page the view agrees with the rows wherever nothing changed since the pinned revision |
| `ConversationCatalog.FeedKeeps` | server/cmd/device-agent/ai_conversation_store.go:1441-1504 | Applying a page of changes in order keeps that agreement up to its last sequence |
| `ConversationCatalog.SnapshotListsOnce` | server/cmd/device-agent/ai_conversation_store.go:1505-1554 | Main result: whatever is written between pages, a snapshot lists each conversation at most once |
| `ConversationCatalog.OverlaidSnapshotIsCatalog` | server/cmd/device-agent/ai_conversation_store.go:1409-1554 | Main result: in every run a client with no change left to read and no reset holds exactly the current catalog |
| `ConversationCatalog.ResetIsSpuriousIff` | server/cmd/device-agent/ai_conversation_store.go:1436-1440 | The reset test fires for a client that missed nothing exactly when there are sequences between its acknowledgement and the oldest retained change and other projects took them all |
| `ConversationCatalog.ResetCanBeSpurious` | server/cmd/device-agent/ai_conversation_store.go:1436-1440 | A concrete run in which a client that missed nothing is told to reset |
| `SubagentLineage.ListDescendants` | server/cmd/device-agent/ai_collaboration.go:485-509 | The breadth-first walk lists every descendant once; the cycle error exactly when the start descends from itself |
| `SubagentLineage.DeleteClosure` | server/cmd/device-agent/ai_conversation_store.go:1674-1692 | The fixpoint removes exactly the root and its descendants |
| `SubagentLineage.DeleteKeepsForest` | server/cmd/device-agent/ai_conversation_store.go:1674-1716 | A delete leaves no child with a deleted parent |
| `SubagentLineage.IsAncestor` | server/cmd/device-agent/ai_collaboration.go:511-534 | True only for a real ancestor; in a forest it answers exactly whether it is one |
| `SubagentLineage.CheckSpawn` | server/cmd/device-agent/ai_collaboration.go:1276-1306 | A spawn is admitted exactly under the parent, depth and active-children rules, at the parent's depth plus one, and each refusal is given exactly for its own reason |
| `SubagentLineage.ActiveChildrenAreCounted` | server/cmd/device-agent/ai_collaboration.go:1289-1304 | What counts against the limit is each row below the parent that generates or runs, once |
| `SubagentLineage.DescribeKeepsForest` | server/cmd/device-agent/ai_collaboration.go:1313-1323 | Describing a child keeps depths; it keeps the forest exactly when the parent still exists |
| `SubagentLineage.NoCycles` | server/cmd/device-agent/ai_collaboration.go:511-534 | Under the depth invariant nothing descends from itself |
| `SubagentCutoff.Cutoffs.BeginActivity` | server/cmd/device-agent/ai_collaboration.go:1015-1039 | A driver is admitted exactly when its conversation is not being stopped and has none |
| `SubagentCutoff.Cutoffs.FinishActivity` | server/cmd/device-agent/ai_collaboration.go:1030-1037 | A driver ends only its own activity |
| `SubagentCutoff.Cutoffs.Prepare` | server/cmd/device-agent/ai_collaboration.go:1045-1105 | The cutoff is raised once per member and what runs below the root is captured |
| `SubagentCutoff.Cutoffs.Release` | server/cmd/device-agent/ai_collaboration.go:1107-1124 | Each member is lowered once and an entry at zero is removed |
| `SubagentCutoff.CountersAreOutstanding` | server/cmd/device-agent/ai_collaboration.go:1045-1124 | Main result: with overlapping cancellations each counter is the number of outstanding cancellations naming the id, and both maps are empty once all are released |
| `SubagentCutoff.CapturedStaysComplete` | server/cmd/device-agent/ai_collaboration.go:1041-1147 | Main result: from preparation to release, whatever descends from the root was captured |
| `SubagentCutoff.CutoffHolds` | server/cmd/device-agent/ai_collaboration.go:1252-1300 | While a cancellation is outstanding no spawn is admitted under its members and nothing begins on a captured descendant |
| `SubagentCutoff.ReleaseIsQuiet` | server/cmd/device-agent/ai_collaboration.go:1129-1147 | Main result: at release no driver and no generation runs on any descendant of the root |
| `SubagentRelease.ReleasableIff` | server/cmd/device-agent/ai_collaboration.go:1129-1147 | Main result: a cancellation can be released exactly when no driver and no generation runs on what it captured; it never waits for its own root |
| `SubagentCutoff.LineageIsBounded` | server/cmd/device-agent/ai_collaboration.go:1276-1323 | In every run ids are unique, depths follow the parent and stay within three, and there is no cycle |
| `SubagentCutoff.StepOrphansIff` | server/cmd/device-agent/ai_collaboration.go:1305-1323 | A step orphans a child exactly when it describes one whose parent was deleted during the spawn |
| `SubagentCutoff.ParentCanBeDeletedMidSpawn` | server/cmd/device-agent/ai_collaboration.go:1305-1323 | A concrete run whose last step describes a child under a deleted parent |
| `ToolScheduler.RoundGroups` | server/cmd/device-agent/ai_tool_scheduler.go:42-55 | The loop computes the groups |
| `ToolScheduler.GroupsAreBarriers` | server/cmd/device-agent/ai_tool_scheduler.go:42-55 | Groups concatenate back to the calls, none is empty, only parallel calls share one, and two parallel groups never follow each other |
| `ToolScheduler.NothingOverlapsABarrier` | server/cmd/device-agent/ai_tool_scheduler.go:61-159 | Main result: an exclusive call overlaps nothing; at most eight calls run at once until a cancellation, and never more than nine |
| `ToolScheduler.NinthRunsIff` | server/cmd/device-agent/ai_tool_scheduler.go:61-159 | Some interleaving runs more than eight calls at once exactly when some group has more than eight |
| `ToolRoundProgress.EveryRoundEnds` | server/cmd/device-agent/ai_tool_scheduler.go:61-159 | Main result: however calls interleave and whenever it is cancelled, a round never gets stuck, takes a bounded number of steps, and when it ends every call has been executed exactly once and has its result |
| `ToolScheduler.RoundIsSerializable` | server/cmd/device-agent/ai_tool_scheduler.go:61-159 | Main result: if parallel tools only read, every uncancelled interleaving gives the state and results of running the calls one by one |
| `ConversationGoal.GoalBoard.Create` | server/cmd/device-agent/ai_goal.go:169-204 | Created, with revision one and armed, exactly when no unfinished goal and no subagent stands in the way |
| `ConversationGoal.GoalBoard.Edit` | server/cmd/device-agent/ai_goal.go:206-256 | The revision-checked edit, or its refusal with nothing changed |
| `ConversationGoal.GoalBoard.Transition` | server/cmd/device-agent/ai_goal.go:258-325 | The allowed phase changes, their refusals, and the arming that follows |
| `ConversationGoal.GoalBoard.Clear` | server/cmd/device-agent/ai_goal.go:327-346 | Clears exactly the goal at that revision |
| `ConversationGoal.GoalBoard.AdmitNext` | server/cmd/device-agent/ai_goal.go:473-508 | Admits the next round, or blocks an active goal that has used them up |
| `ConversationGoal.GoalBoard.Drain` | server/cmd/device-agent/ai_agent_loop.go:524-627 | The drive loop ends, admits no more than the rounds left, goes on exactly while turns make progress, and leaves the goal complete, blocked with the turn's reason, blocked as used up, or active and disarmed as its last turn says |
| `ConversationGoal.CreatedAndEdited` | server/cmd/device-agent/ai_goal.go:169-256 | When a create and an edit are accepted; a new goal starts active with all its rounds left, an edit changes only what it was given |
| `ConversationGoal.MovesAre` | server/cmd/device-agent/ai_goal.go:258-325 | Which moves each phase allows, and that a move changes the phase, its reason, the revision and the time, nothing else |
| `ConversationGoal.PauseIsUndone` | server/cmd/device-agent/ai_goal.go:258-325 | Pausing and resuming gives back the goal two revisions later, exactly while rounds are left |
| `ConversationGoal.AttemptsAre` | server/cmd/device-agent/ai_goal.go:473-508 | A driver's attempt admits a round exactly when the goal it read is current, active, no further and had rounds left, and blocks it exactly when it had none left |
| `ConversationGoal.StoppedGoalsGetNoRounds` | server/cmd/device-agent/ai_goal.go:258-508 | Main result: a paused, blocked or finished goal is given no further round, whatever any driver read before, until somebody resumes it |
| `ConversationGoal.RoundsAreAdmittedOnce` | server/cmd/device-agent/ai_goal.go:473-508 | Main result: however drivers race, a goal's rounds are 1, 2, 3, ... each admitted once |
| `ConversationGoal.GoalsMoveForward` | server/cmd/device-agent/ai_goal.go:206-325 | Main result: a goal's revision and progress never fall, completion is final, and an equal revision means an equal goal but for its progress |
| `ConversationGoal.RevisionsAreCounted` | server/cmd/device-agent/ai_goal.go:206-325 | Over any stretch of any run the revision grows by exactly one for each edit, each transition and each block of a goal whose rounds are used up, and by nothing else |
| `ConversationGoal.ReasonIffBlocked` | server/cmd/device-agent/ai_goal.go:72-90 | A blocking reason is present exactly while blocked |
| `ConversationGoal.RoundsAreBounded` | server/cmd/device-agent/ai_goal.go:473-508 | Main result: without an edit a goal gets at most the rounds it has left, whoever races, pauses or resumes |
| `ContextCompaction.EstimateText` | server/cmd/device-agent/ai_conversation_rpc.go:1550-1566 | The counting loop gives the weight in quarter tokens, rounded up |
| `ContextCompaction.PruneToolResults` | server/cmd/device-agent/ai_context_compaction.go:242-259 | Prunes every long result in place and strictly lowers the estimate when it prunes |
| `ContextCompaction.PruneLowers` | server/cmd/device-agent/ai_context_compaction.go:242-259 | Pruning one long result strictly lowers its estimate; pruning again changes nothing |
| `ContextCompaction.PruneIsIdempotent` | server/cmd/device-agent/ai_context_compaction.go:242-259 | Pruning all exchanges twice is pruning them once |
| `ContextCompaction.Checkpoint` | server/cmd/device-agent/ai_context_compaction.go:319-371 | The checkpoint is the longest that fits both bounds |
| `ContextCompaction.CompactExchanges` | server/cmd/device-agent/ai_context_compaction.go:261-306 | The older exchanges are replaced exactly when there are some beyond the retained ones, worth more than 32 tokens, the text leaves room and a non-empty checkpoint fits; that lowers the estimate by at least 31 and keeps the retained suffix |
| `ContextCompaction.RetainedExchangesAreUnique` | server/cmd/device-agent/ai_context_compaction.go:269-283 | The conditions on the retained exchanges leave exactly one split |
| `ContextCompaction.RetainedTailStart` | server/cmd/device-agent/ai_context_compaction.go:373-400 | The tail is the longest one within the token and byte bounds and 48 messages, the last message always in it, moved back to the nearest user message unless 48 messages or the beginning come first |
| `ContextCompaction.RetainedTailIsUnique` | server/cmd/device-agent/ai_context_compaction.go:373-400 | Those conditions leave exactly one tail |
| `ContextCompaction.CompactHistory` | server/cmd/device-agent/ai_context_compaction.go:117-191 | The history is replaced exactly when there is something before the retained tail, worth more than 32 tokens, and the draft is not empty, not over 30,000 bytes and framed still cheaper; the result is one recognized summary followed by the untouched tail, at a rise of at most 3 |
| `ContextCompaction.CompactContext` | server/cmd/device-agent/ai_context_compaction.go:59-115 | Main result: without pressure a pass changes nothing; under it long results are pruned, then while it lasts the history is summarized and then the exchanges replaced; it never ends more than 3 above its start, and never above it unless history was replaced |
| `ContextCompaction.FramedIsRecognized` | server/cmd/device-agent/ai_context_compaction.go:193-227 | A framed summary is recognized when it is read back |
| `SummaryResume.ApplyPersisted` | server/cmd/device-agent/ai_context_compaction.go:193-222 | The summary followed by exactly the messages after its sequence, or the history unchanged |
| `SummaryResume.CompactionResumes` | server/cmd/device-agent/ai_context_compaction.go:117-222 | Re-applying the new summary to the stored messages and adding what was said while steering gives exactly the list the compactor produced, unless what it replaced ends in what was said |
| `SummaryResume.ForkIsSound` | server/cmd/device-agent/ai_conversation_store.go:1149-1252 | A fork copies exactly the messages up to the boundary, and a summary it keeps covers one of them |
| `SummaryResume.ForkResumesLikeRegeneration` | server/cmd/device-agent/ai_conversation_store.go:1149-1252 | The first turn of a fork works on exactly what a regeneration of the source at the boundary would, summary included |
| `SummaryResume.ActiveIsReapplied` | server/cmd/device-agent/ai_conversation_rpc.go:1834-2200 | Main result: through any run of turns, steering, compactions and restarts, from a new, imported or forked conversation, the working history is the persisted summary re-applied, followed by what was said in the turn |
| `SummaryResume.ResumeIff` | server/cmd/device-agent/ai_conversation_store.go:1865-1895 | A new turn resumes from the summary and everything after it exactly when at most 199 newer completed messages exist; otherwise it starts without the summary |
| `SummaryResume.SummaryCanBeForgotten` | server/cmd/device-agent/ai_conversation_store.go:1865-1895 | A concrete run that ends in a turn without the stored summary after 200 newer messages, most of them questions whose turns failed before their first round |
| `SummaryResume.SaveIsRefusedIff` | server/cmd/device-agent/ai_conversation_store.go:3062-3087 | A compaction's summary is refused, and the turn with it, exactly when what it replaces reaches into what was said while steering, or the turn regenerates an answer the persisted summary already covers |
| `SummaryResume.CoveredAnswerIsRefused` | server/cmd/device-agent/ai_conversation_store.go:3062-3087 | A concrete run that ends in a refusal of the second kind |
| `SummaryResume.SteeredTurnIsRefused` | server/cmd/device-agent/ai_conversation_rpc.go:2164-2181 | A concrete run that ends in a refusal of the first kind: a turn steered fifty times before any tool call |
| `DeltaText.SplitUtf8` | server/cmd/device-agent/ai_conversation_rpc.go:1784-1804 | Pieces are valid, non-empty, bounded and flatten back; refused exactly for an empty or invalid text or a bound below its longest code point |
| `DeltaText.Coalescer.Append` | server/cmd/device-agent/ai_conversation_rpc.go:1930-1954 | A chunk adds exactly its bytes, tagged with their field, to what is persisted and pending; every persisted delta is valid and at most 8 KiB |
| `DeltaText.Coalescer.AppendPiece` | server/cmd/device-agent/ai_conversation_rpc.go:1930-1954 | A piece joins the delta in the making unless that has another field, would grow too large or is too old; a full one is persisted at once |
| `DeltaText.Coalescer.Flush` | server/cmd/device-agent/ai_conversation_rpc.go:1903-1929 | After a flush what is persisted is everything received, in order, and only the delta in the making was added |
| `DeltaText.StreamDeltas` | server/cmd/device-agent/ai_conversation_rpc.go:1903-1954 | Main result: over a whole stream, with any flushes, the persisted deltas are valid, bounded, and together exactly the received bytes under their fields, and no two neighbours would have fitted in one unless time or a demand forced a flush; it fails exactly at an empty or invalid chunk |
| `DeltaText.ReadChunk` | server/cmd/device-agent/ai_conversation_store.go:2808-2857 | A chunk is a valid slice from the offset; over valid text it is refused exactly when its next code point does not fit |
| `DeltaText.ReadAll` | server/cmd/device-agent/ai_conversation_store.go:2808-2857 | Reading by `nextOffset` with chunks of at least four bytes ends and reassembles the body |
| `ProviderEventStream.FirstBoundary` | server/cmd/device-agent/ai_provider_adapters.go:26-45 | Taking the least index of the three separators finds the first boundary |
| `ProviderEventStream.BoundaryIsStable` | server/cmd/device-agent/ai_provider_adapters.go:26-50 | A boundary found on a prefix is never changed by more bytes |
| `ProviderEventStream.Scan` | server/cmd/device-agent/ai_provider_adapters.go:26-50 | Main result: any chunking of a stream gives the records of the whole stream, or stops at the same record that does not end within 128 KiB |
| `ProviderEventStream.BoundedIsPrefix` | server/cmd/device-agent/ai_provider_adapters.go:21-50 | The bounded scanner yields the records before the first one that does not fit 128 KiB with its separator, and reaches the end exactly when all do |
| `ProviderEventStream.WrittenIsRead` | server/cmd/device-agent/ai_provider_adapters.go:26-73 | Main result: for a stream written with one line ending, splitting and extracting give back what each event carries, whatever comments and other fields stand between its data lines |
| `ProviderEventStream.ValueIsCarried` | server/cmd/device-agent/ai_provider_adapters.go:52-73 | An event whose data lines are the lines of a value carries that value |
| `ProviderEventStream.WrittenIsScanned` | server/cmd/device-agent/ai_provider_adapters.go:21-73 | Main result: however the stream is cut into reads, the scanner reaches its end exactly when every event fits the buffer with its two line endings, and then extracts what the events carry |
| `MessagePaging.ListMessages` | server/cmd/device-agent/ai_conversation_store.go:1724-1776 | The newest rows before the cursor, oldest first, with the cursor of the first exactly while older ones remain |
| `MessagePaging.BoundPage` | server/cmd/device-agent/ai_conversation_rpc.go:421-452 | The byte bound keeps the longest suffix that fits with every shorter one |
| `MessagePaging.ReadPage` | server/cmd/device-agent/ai_conversation_rpc.go:421-452 | A page is refused exactly when its newest row does not fit alone, and otherwise the next one ends where it begins |
| `MessagePaging.ReadAll` | server/cmd/device-agent/ai_conversation_store.go:1724-1776 | Following the cursor reads every row once, in order, and ends, whenever each row fits a page alone; if neighbours do not make a row fit, exactly then |
| `MessagePaging.MarkupStopsTheWalk` | server/cmd/device-agent/ai_conversation_rpc.go:365-452 | One message of 16 KiB of `<`, six times as long once escaped, stops every walk whatever surrounds it |

## Left out

- SQL, connections, migrations and encodings: a table is a map or a sequence, a
  transaction one atomic step, and the encoded size of a page a parameter. Read errors of
  the store inside the attach handler and `event.subscribe` are the Cancel step.
- RPC parsing, envelopes, heartbeats and the `subscription.ready` frame.
- Other conversations and projects of a hub appear only as a count for the subscription
  limits and as sequences taken from the shared catalog counter.
- Message ids and the generation ids of questions are random UUIDs, which the model takes as
  never used before. The generation id of a regeneration is the client's request id; that it
  is new comes from the replay test before it, which is not modelled.
- Conversations imported from the earlier file format are a start of the runs in `Resume.dfy`
  only.
- Attachments, titles, catalog columns, plans and todos, and the size limits and
  truncation of tool-run payloads.
- Fork, approval requests and collaboration updates are modelled on values only, not in
  place, so the model does not show that they update the rows without touching others.
- Timestamps are integers given by the caller; message revisions stop at the largest safe
  integer as in the code.
- ConversationStreamPump.SyncOnce: verified against a journal that does not change while
  it runs; appends between its pages are covered by the transition system in `Attach.dfy`,
  where publishing and pump resets are separate steps.
- AgentSubscription.DrainedMeansCaughtUp: speaks of the moment the hub has published the
  high watermark; that the pump is scheduled again is not modelled.
- AttachGuarantees.NothingIsLost: for runs in which no joining handler passes another one
  over; it is false for others, as `OlderHandlerCanStarve` shows.
- ConversationStore.Store.RecoverInterrupted: one conversation; that the restart repeats it
  for each interrupted conversation, and skips one that a writer changed, is not modelled.
- SubagentCutoff.Cutoffs.Prepare: takes the descendants as one atomic read, where the source
  walks them row by row.
- ConversationGoal.GoalBoard.Drain: inbox items, failures to begin a turn, and other actors
  while the loop runs are not modelled; racing drivers are in the transition system.
- ContextCompaction.RetainedTailStart: nothing bounds the bytes of the messages added to
  reach a user message, in the code either.
- SubagentCutoff.StepOrphansIff: the generation capacity limit and the settling of
  children after a cancellation are not modelled.
- ConversationGoal.GoalBoard.AdmitNext: read and transaction are one step here, apart in the
  transition system, where other drivers act in between; the text of the round-limit
  message does not contain the number of rounds; trimming and UTF-8 checks of objectives
  are the caller's.
- ContextCompaction.CompactHistory: the model's answer, the deterministic summary and the
  rendered checkpoint facts are parameters; a cancelled summary call is not modelled.
- DeltaText.Coalescer.Append: a failing store write during a flush, which ends the turn, is
  not modelled.
- DeltaText.Coalescer.Flush: the same.
- DeltaText.StreamDeltas: the same.
- SummaryResume.ActiveIsReapplied: steering is allowed at any moment of a turn, where the code
  appends to the history only before the first tool call; attachment references added to
  loaded questions are part of their content.
- ProviderEventStream.Scan: reads fill the buffer as far as they can; a read error and a
  cancelled context are not modelled.
- MessagePaging.BoundPage: the reduction of one message to its wire form is a parameter.
- The inbox's item bounds, jobs, skills, approvals and their policies, provider HTTP
  adapters, sandboxes and terminals: separate parts with simpler state.
