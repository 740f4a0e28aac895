# NovaProxy: verified models of its bounded queues and stores

NovaProxy records HTTP traffic in an engine and shows it in a webview. What it records
passes through a chain of bounded queues and stores, each of which promises to lose
nothing, or to lose only what it counts. This project states those promises and proves
them, together with a few self-contained pieces whose correctness is easy to get wrong.

**The live stream.** `UiStream` is the engine's end (coalescing through a slot index, a
byte budget for WebSocket frames, pause and resume), `StreamQueue` the webview's, and
`FlowList`, `FramePanel` and `ListStore` the list they feed. `Frames` and `Coalesce` hold
the plain-sequence specifications those classes and methods are proved against.
`Pipeline` composes the stages into one state machine and proves that, while the flows
involved fit the list, a drained pipeline leaves exactly the list that applying each
snapshot on its own would have left. Over all runs of that machine, with pauses, clears,
imports, evictions and reloads: `FrameAccounts` proves that every WebSocket frame is held,
counted as dropped, or among those it says go uncounted, and that none does while its flow
stays listed; `FrameOrder` that while anything the engine had queued is still upstream of
the webview, so is every frame the engine held then or was given since; `StreamBounds` that
both frame queues stay within their bounds.
`FrameConservation` combines them for flows that fit the list: there no frame goes
uncounted. `NoLostUpdate` proves that no interleaving of inserts, updates, flushes, pauses,
resumes, clears and reloads loses the newest state of a flow the page was shown, and
`PageCatchesUp` that the list then shows it; `PauseNotes` says, by the numbers emitted,
exactly what a pause notes and leaves out, and `Cleared` what a clear leaves behind;
`QueueCap` says exactly when the queue's cap costs the list nothing.

**What the engine retains.** `FlowStore` (bounded, insertion-ordered, bodies packed by
`PackedFlows`) behaves as a plain map with an order; `InsightCache` answers what a fresh
analysis would; `BodyStore` keeps exactly the longest suffix of spill files that fits;
`BodyCapture` mirrors a body to disk independently of how it was cut into chunks.

**The system proxy.** `SysProxy` is the protocol that snapshots the user's settings,
persists them, changes the machine, restores and deletes, with a crash or a failed call
possible at every effect.

**Smaller cores.** `PackBits` (icon planes), `CrashMarker`, `Breakpoints`, `Curl`, and
the sidebar tree (`Scope`, `ScopeTree`).

Locks, threads and timers are atomic steps in any order. The operating system, the disk
and the analysis enter as parameters: a `Fate` says how each effect of a proxy toggle
went, `Io` how each file operation of a capture went, `Codec` is a compressor of which
only losslessness is assumed (`PackedFlows.Lossless`), and `Analysis` is any function.

## Where the code and its comments differ

- `src/streamQueue.ts:40-42` says a queue over its cap loses nothing the list would have
  kept. It can lose a dropped flow (`QueueCap.DroppedFlowWouldHaveBeenKept`), a dropped
  update (`QueueCap.DroppedUpdateStaysStale`) and a flow whose update it kept
  (`QueueCap.DropLosesKeptFlow`). `QueueCap.DropLosesNothingIff` is the exact condition,
  `QueueCap.DropLosesNoFlowIff` the one for flows alone, both counted before the kept
  snapshots come; `QueueCap.DropInvisibleForNewFlows` is the case the comment has in mind.
- Coalescing shows when a flow is evicted and sent again inside one batch
  (`QueueCap.CoalescingShowsAfterEviction`); `Coalesce.CoalesceExact` and, counted,
  `QueueCap.CoalesceExactByCount` say exactly when it does not.
- `crates/nova-core/src/flowstore.rs:78-82` bumps the generation before taking the lock.
  `InsightCache.AskedMidInsert` says exactly when that makes an insight report stale, and
  `InsightCache.StaleCount` is a report that is.
- `crates/nova-core/src/bodystore.rs:274-283`: after the preview could not be written the
  next push opens the file again, and the subtraction underflows
  (`BodyCapture.BodyCapture.Push` says exactly when, `BodyCapture.FailedHeaderUnderflows`
  is two such pushes). The file is capped by the per-body
  cap only if the preview cap is no larger (`BodyCapture.MirrorIsCappedIff`).
- `src-tauri/src/commands.rs:607-625` deletes a backup that is there but cannot be read,
  and `:549-576` writes over one (`SysProxy.ToggleSafeIff`, `SysProxy.EnableKeepsSnapshot`).
- `crates/nova-core/src/breakpoint.rs:77-78` says only the next request is caught;
  `Breakpoints.CaughtExactly` says how many are, from each arming to the next.
- `crates/nova-core/src/bodystore.rs:145` saturates the byte counter; by what it clips,
  the budget is overrun (`BodyStore.BodyStore.Register`).
- `src/inspector/curl.ts:61` prints the method unquoted, and HTTP allows methods that a
  shell reads otherwise (`Curl.ReadsBackIff`, `Curl.BareMethodBreaks`).
- A node of the sidebar tree can count flows that selecting it does not show, when a path
  has doubled slashes or lacks the leading one (`ScopeTree.PathRowIff` says exactly when,
  `ScopeTree.DoubledSlashMiscounts` is a flow of `//a`).
- `src/App.tsx:298-312` and `src-tauri/src/state.rs:241-243` clear what is listed and
  queued; what is on its way to the webview comes back (`Cleared.OnTheWireComesBack`),
  and nothing else does (`Cleared.ClearedIsGone`).
- `loadFlows` takes any list; `ListStore.LoadBoundedIff` says which keep the invariant.

## Model

| member | source | states |
|---|---|---|
| UiStream.UiStream.Queue | src-tauri/src/state.rs:163-171 | through the slot index, a newer snapshot takes the place of the queued one of its flow and a new flow goes last; ids stay unique and every slot stays exact |
| UiStream.UiStream.QueueFrame | src-tauri/src/state.rs:134-143 | appends a frame and drops the shortest prefix that brings the payload within budget or leaves one frame, counting each drop against its socket; the byte counter stays exact |
| UiStream.UiStream.TakeFrames | src-tauri/src/state.rs:148-161 | takes the longest non-empty prefix that fits the budget, or one frame; the rest stays in order with an exact byte counter |
| UiStream.UiStream.SendFlow | src-tauri/src/state.rs:323-337 | with no page nothing is queued; during a pause an existing flow is noted once; otherwise the stripped snapshot is queued |
| UiStream.UiStream.SendFrame | src-tauri/src/state.rs:341-346 | frames are queued whenever a page is bound, paused or not |
| UiStream.UiStream.BindChannel | src-tauri/src/state.rs:212-218 | a new page starts unpaused with nothing sent to it; what is queued stays |
| UiStream.UiStream.PauseStream | src-tauri/src/state.rs:221-227 | a first pause remembers the highest number emitted; a second changes nothing |
| UiStream.UiStream.ResumeStream | src-tauri/src/state.rs:231-239 | the store's current state of every noted, still retained flow is queued, and nothing else |
| UiStream.UiStream.DiscardFlows | src-tauri/src/state.rs:243-251 | queued snapshots and pause notes go; frames and the pause itself stay |
| UiStream.UiStream.FlushQueues | src-tauri/src/state.rs:253-288 | everything queued, and a tick's worth of frames, is sent once, in order, as messages of at most 500 flows |
| UiStream.UiStream.SendBatches | src-tauri/src/state.rs:265-287 | the splitting loop sends exactly the backlog, frames and counts with the last message |
| UiStream.MessagesWhole | src-tauri/src/state.rs:265-287 | the messages of a backlog joined are the backlog; none has over 500 flows; only the last carries frames and counts |
| UiStream.FrameQueueBounded | src-tauri/src/state.rs:132-143 | the frame queue is within its budget or one frame, and a suffix of what was queued that no longer suffix could be |
| Frames.CutIsLeast | src-tauri/src/state.rs:137-142 | dropping stops as soon as the rest fits: the cut is the least that does |
| Frames.FillFits | src-tauri/src/state.rs:145-161 | a tick's frames fit or are one frame, and one more would not have fit |
| Frames.TallyCounts | src/streamQueue.ts:69-77 | counting dropped frames one by one adds, per socket, exactly the frames it lost |
| Proto.WithoutBytesTwice | src/store.ts:97-103 | stripping what the engine already stripped changes nothing, so the list keeps the engine's snapshot as sent |
| Proto.SentWithoutBytes | src-tauri/src/state.rs:179-191 | what is sent carries no text and no base64 and keeps every other field: two flows are sent alike if and only if they differ in nothing else |
| Proto.LengthIsEncoded | src/store.ts:74-76 | a string's length is the number of units of its encoding, in UTF-8 for the engine and UTF-16 for the webview |
| Proto.EncodedReadsBack | src-tauri/src/state.rs:175-177 | those encodings are the standard ones as far as each character is read back from them |
| Proto.FrameWeighsBoth | src-tauri/src/state.rs:175-177 | a frame weighs what its text and its base64 take together |
| StreamQueue.StreamQueue.PushBatch | src/streamQueue.ts:57-79 | the queue after a push is the coalesced flows without the oldest past the cap, the added drop counts, and the frames cut to both bounds |
| StreamQueue.StreamQueue.PushFlows | src/streamQueue.ts:58-62 | each snapshot takes its flow's place or goes last, then exactly the oldest flows past the cap go |
| StreamQueue.StreamQueue.PushCounts | src/streamQueue.ts:63 | every socket's upstream drop count is added to what was counted here |
| StreamQueue.StreamQueue.PushFrames | src/streamQueue.ts:64-78 | frames are appended and cut to both caps, keeping the newest; the byte counter stays exact |
| StreamQueue.StreamQueue.CutToCaps | src/streamQueue.ts:68-77 | the cutting loop drops the least prefix that meets both caps or leaves one frame, counting each frame |
| StreamQueue.StreamQueue.TakeBatch | src/streamQueue.ts:81-89 | hands over everything queued and leaves the queue empty |
| StreamQueue.StreamQueue.DiscardFlows | src/streamQueue.ts:101-103 | queued flows go, frames and counts stay |
| StreamQueue.PushBounds | src/streamQueue.ts:67-77 | after a push the frames meet both caps or are one frame, include the newest, and no longer suffix would do |
| StreamQueue.NewestDropsOldest | src/streamQueue.ts:59-61 | what stays of the queued flows is their newest, as many as the cap allows |
| Coalesce.CoalesceExact | src/streamQueue.ts:37-38 | coalescing a snapshot into the queue is invisible to the list if and only if the list is not recording, the flow was not queued, or the flow is still listed after the queue is applied |
| Coalesce.CoalesceAll | src-tauri/src/state.rs:77 | with room for every id a whole batch coalesces invisibly |
| Coalesce.ReplaceCommutesAll | src/store.ts:174-184 | replacing a listed flow commutes with a whole batch that does not name it, evictions included |
| Coalesce.ApplyKeeps | src/store.ts:174-194 | one snapshot keeps ids unique and the list within its cap, and while recording lists its flow |
| Coalesce.ApplyAllEvictsNothing | src/store.ts:110-133 | while all ids fit the cap the list holds exactly the old and the new ids |
| QueueCap.DropLosesNothingIff | src/streamQueue.ts:40-42 | a drop loses neither a flow nor a dropped snapshot the list would have kept if and only if the kept flows bring as many new ones as the list has places from each dropped flow to the end, and each kept flow that stays with the dropped ones stays without |
| QueueCap.DropLosesNoFlowIff | src/streamQueue.ts:40-42 | a drop loses no flow the list would have kept if and only if each dropped and each kept flow that the counts say stays with the dropped ones stays without |
| QueueCap.PushLosesNothingIff | src/streamQueue.ts:57-62 | the same for a push itself: what it drops and what it keeps are told from the queue and the message |
| QueueCap.PushInvisibleForNewFlows | src/streamQueue.ts:57-62 | and the comment's case for a push: with only new flows left in a full queue, the list becomes the queue, newest first |
| QueueCap.EachFlowIff | src/streamQueue.ts:40-42 | for each dropped and each kept flow: whether the list holds it in the end, with the drop and without, told before the kept ones come |
| QueueCap.UntouchedStays | src/streamQueue.ts:40-42 | a listed flow that no queued snapshot names is never lost by a drop |
| QueueCap.KeptStaysIff | src/store.ts:174-194 | every flow of a batch is listed in the end if and only if fewer new flows follow it than places are left, told from the list before the batch |
| QueueCap.DroppedLostIff | src/streamQueue.ts:40-42 | for every snapshot dropped at the cap: the list would have lost its flow anyway if and only if it was not in the list the dropped ones would have left, or the kept ones bring as many new flows as that list has places from it to the end |
| QueueCap.NewOnesToldBefore | src/streamQueue.ts:40-42 | how many of the kept flows are new can be told from places in the list before they come |
| QueueCap.DropInvisibleForNewFlows | src/streamQueue.ts:40-42 | when no kept flow is listed, the drop changes nothing: the list becomes the kept flows, newest first |
| QueueCap.DroppedFlowWouldHaveBeenKept | src/streamQueue.ts:40-42 | the comment as written fails: an update of a listed flow in the queue makes it drop a flow the list would have kept |
| QueueCap.CoalescingShowsAfterEviction | src/streamQueue.ts:58 | a flow evicted and sent again inside one batch ends up elsewhere than without the queue |
| QueueCap.DroppedUpdateStaysStale | src/streamQueue.ts:40-42 | and so does this: the drop of an update leaves a listed flow as it was |
| QueueCap.DropLosesKeptFlow | src/streamQueue.ts:40-42 | and this: dropping what the list would have lost anyway makes it lose a flow whose update was kept |
| QueueCap.CoalesceExactByCount | src/streamQueue.ts:37-38 | coalescing is invisible if and only if the snapshots queued behind bring fewer new flows than the list has places from the flow to its end |
| QueueCap.CoalesceBatch | src-tauri/src/state.rs:77 | a batch of which each snapshot coalesces unseen at its turn coalesces unseen |
| QueueCap.PushedOut | src/store.ts:121-123 | any batch that does not name a listed flow pushes it out if and only if it brings as many new flows as there are places from it to the end |
| FlowList.ApplyFlowBatch | src/store.ts:151-205 | for a list with unique ids, the indexed batch gives what applying each snapshot on its own gives, for every batch and list length; unknown flows change nothing while not recording |
| FlowList.ApplySnapshot | src/store.ts:174-194 | one round of the loop finds the flow through index and shift, replaces or prepends, and keeps the index exact |
| FlowList.BuildIndex | src/store.ts:165-166 | the index leads to every listed flow and to no other |
| FlowList.LookupExact | src/store.ts:143-146 | an entry that does not lead to its own id is stale, and then the flow is not listed |
| FlowList.IndexedPrepend | src/store.ts:187-193 | shifting every entry by one and entering the new flow keeps the index exact across eviction |
| FlowList.ApplyBatchFlows | src/store.ts:151-205 | the list part of a batch does not depend on the frames held |
| FramePanel.EvictOverBudget | src/store.ts:275-298 | ends within budget, each socket keeps a suffix, the last frame dropped was necessary, and with ordered sockets nothing dropped is newer than anything kept |
| FramePanel.OldestSocket | src/store.ts:286-290 | the scan finds a socket whose next frame is no newer than any other's, or that none has one |
| FramePanel.EvictedLosesIff | src/store.ts:277-280 | frames are lost if and only if there is a budget and the payload exceeds it |
| FramePanel.GroupByFlow | src/store.ts:240-246 | each listed flow's group is its frames of the batch in order; unlisted flows have none |
| FramePanel.CapSockets | src/store.ts:249-261 | each socket that grew keeps its newest frames, as many as the cap allows, and is charged the rest |
| FramePanel.AddEach | src/store.ts:233-239 | upstream counts are added for listed flows only |
| FramePanel.AppendWsMessages | src/store.ts:221-268 | the whole append: unlisted frames ignored, each grown socket full up to its cap but for what the byte budget costs, every drop counted once |
| FramePanel.GrownSocketsFull | src/store.ts:256-260 | whatever an append evicts: a socket that grew held all it can, up to its cap, before the byte budget, and its count tells the rest |
| FramePanel.FitsSoFull | src/store.ts:221-268 | while held and arriving payload fit the budget, a socket that grew holds exactly the lesser of all its frames and its cap |
| ListStore.RunBounded | src/store.ts:327-358 | after any run of actions: at most 10,000 unique flows, frames and counts only for listed ones, 2,000 frames a socket, 64 MB in all |
| ListStore.LoadBoundedIff | src/store.ts:345 | an import keeps that invariant if and only if its ids are unique and within the cap |
| ListStore.AppendAccounts | src/store.ts:221-268 | per socket, what is held is a suffix of held plus arrived, and the drop count grows by exactly what went |
| ListStore.ApplyBatchBounded | src/store.ts:110-133 | evicting a flow takes its frames and count with it, whatever the batch |
| ListStore.PushedOutIsGone | src/store.ts:122-123 | a prepend loses exactly the flows of the tail past the cap |
| ListStore.Store.UpsertFlows | src/store.ts:329-330 | the action applies the batch at the list's cap and keeps the invariant |
| ListStore.Store.AddWsMessages | src/store.ts:336-342 | the action appends at both caps and keeps the invariant; while the payload fits, a grown socket holds all its frames up to 2,000 |
| ListStore.Store.LoadFlows | src/store.ts:345 | the list is taken as it is and every frame and count goes |
| ListStore.Store.Clear | src/store.ts:348-357 | flows, frames and counts go, recording stays as it was |
| Pipeline.DrainedListIsDirect | src/App.tsx:334-340 | end to end, whenever nothing is pending, the list is exactly what applying each emitted snapshot on its own would have left |
| Pipeline.FlowsAlways | src-tauri/src/state.rs:253-288 | at every moment of every run, the list with everything pending applied is the direct list |
| Pipeline.UpsertAllSeen | src/streamQueue.ts:57-62 | with room for every id the webview's queue neither drops nor visibly reorders a snapshot |
| Pipeline.TickFlows | src/App.tsx:337-339 | a tick applies the queued snapshots whole and evicts nothing |
| FrameAccounts.EveryFrameAccounted | src-tauri/src/state.rs:340-347 | between any two worlds of any run, per socket: frames held before and emitted since are held, counted as dropped, or among those said to vanish; what is held is a subsequence in emission order |
| FrameAccounts.ConservedWhileListed | src/store.ts:211-220 | while a flow stays listed nothing of its socket vanishes, whatever else the run emits, pauses, resumes, discards and evicts |
| FrameAccounts.TickConservesIff | src/App.tsx:337-340 | a tick keeps a socket's account if and only if its snapshots do not unlist a flow with frames and the frames it brings find their flow listed |
| FrameAccounts.EvictedIffLeaves | src/store.ts:110-133 | a batch cuts a flow off the end of the list if and only if one of its snapshots finds it listed and leaves it unlisted |
| FrameAccounts.TickAccounts | src/App.tsx:334-340 | what a tick loses of a socket uncounted: what the panel held if the flow is evicted, what the queue held if it is not listed, and nothing else |
| FrameAccounts.DrainedPanelAccounts | src/store.ts:217-220 | once drained, the panel's frames and its drop count account for every frame of a flow that stayed listed |
| FrameOrder.NothingOvertakes | src/store.ts:211-215 | between any two worlds of any run: while anything the engine had queued at the first is still in the engine or on the wire, the frames at hand for a tick are a subsequence of those past the engine at the first |
| FrameOrder.SnapshotsLocated | src-tauri/src/state.rs:253-288 | every flow queued in the engine is still queued, on the wire, or was handed to the webview, as its stage says, unless a clear or a new page forgets it |
| FrameOrder.FramesBringSnapshots | src/store.ts:211-215 | once a frame that was not past the engine is at hand for a tick, the webview was handed a snapshot of every flow the engine had queued |
| FrameOrder.StepBehind | src-tauri/src/state.rs:253-288 | every event keeps the frames behind what was queued ahead of them, wherever that is |
| FrameConservation.FramesAlwaysConserved | src-tauri/src/state.rs:340-347 | while the flows involved fit the list, no frame of any socket goes uncounted |
| FrameConservation.FramesFindTheirFlows | src/store.ts:211-215 | while the flows involved fit the list, every frame and drop count a tick brings finds its flow listed |
| StreamBounds.AlwaysBounded | src/streamQueue.ts:23-32 | in any run both frame queues are within their bounds or hold one frame, and the webview queues no more flows than its cap |
| StreamBounds.AlwaysSuffix | src-tauri/src/state.rs:132-161 | in any run each frame queue is a suffix of all that went into it |
| NoLostUpdate.NothingLost | src-tauri/src/state.rs:322-338 | after any run, the current state of every flow shown to the page is queued, delivered, or noted for the resume |
| NoLostUpdate.ResumeAndFlushCatchUp | src-tauri/src/state.rs:229-239 | after a resume and a flush the page holds the store's current state of every such flow |
| PauseNotes.NotesByHistory | src-tauri/src/state.rs:329-335 | what a pause notes is exactly the flows emitted since, not cleared, and numbered no higher than everything emitted to a page before the pause |
| PauseNotes.ResumeQueues | src-tauri/src/state.rs:229-239 | a resume adds to the queue exactly those of them that are retained |
| PauseNotes.NotesInOrder | src-tauri/src/state.rs:123-128 | notes are in the order of first change, each flow once, and only a clear takes any away |
| PauseNotes.ResumeInOrder | src-tauri/src/state.rs:231-239 | and in that order a resume puts them behind what is queued |
| PauseNotes.StartedWhilePaused | src-tauri/src/state.rs:79-82 | a flow first emitted during a pause, above every number before it, is neither queued, noted nor sent, then or after the resume, until it is emitted again |
| PauseNotes.LivePageIsSent | src-tauri/src/state.rs:211-239 | a page just bound or just resumed is sent everything emitted next: by the next flush it holds each such retained flow as the store has it |
| PauseNotes.NewPageOwesNothing | src-tauri/src/state.rs:211-218 | a new page was sent nothing, and nothing noted for the old one reaches it |
| PauseNotes.NothingBeforeAPage | src-tauri/src/state.rs:325-327 | until a page is bound nothing is queued and no number counts |
| Cleared.NoneFromNowhere | src-tauri/src/state.rs:241-251 | between any two worlds of any run, every flow listed, queued, noted or on the wire was so before, was emitted since, or was imported |
| Cleared.ClearedIsGone | src/App.tsx:298-312 | after a clear of list, queue and engine, with no flush of the engine in between, nothing from before comes back but what was on the wire |
| Cleared.OnTheWireComesBack | src/App.tsx:298-312 | and that can: a message sent before the clear and delivered after it is listed again |
| PageCatchesUp.PageShowsTheStore | src/App.tsx:334-340 | and once all of it arrived and was ticked, while the page's queue stays within its cap, every such flow still listed is shown as the store has it |
| PageCatchesUp.ApplyAllHolds | src/store.ts:174-194 | after any batch a listed flow shows the last snapshot applied of it, or what it showed |
| NoLostUpdate.RunKeeps | crates/nova-core/src/flow.rs:111-123 | the invariant behind it survives every event: insert with eviction, update, flush, pause, resume, clear, reload |
| NoLostUpdate.FlushDelivers | src-tauri/src/state.rs:253-288 | a flush delivers the queued state of each flow and leaves others' last delivered one |
| NoLostUpdate.QueueCurrentQueued | src-tauri/src/state.rs:234-238 | resuming queues the current state of each noted flow and no other's |
| PackedFlows.UnpackPack | crates/nova-core/src/flowstore.rs:290-328 | a flow comes back from the store exactly as it went in, if the codec is lossless |
| PackedFlows.ReuseInvisible | crates/nova-core/src/flowstore.rs:291-317 | reusing the frames of unchanged strings gives byte for byte what packing afresh gives |
| PackedFlows.StringRoundTrip | crates/nova-core/src/flowstore.rs:233-258 | a preview string survives packing, compressed or not, short or long |
| PackedFlows.PackerExact | crates/nova-core/src/flowstore.rs:290-328 | a lossless codec makes an exact packer: round trip, stripped shell, invisible reuse |
| PackedFlows.PackedSizes | crates/nova-core/src/flowstore.rs:209-213 | the bytes counted for a flow are those of every preview string of both its bodies, packed and unpacked |
| PackedFlows.HeldSmallest | crates/nova-core/src/flowstore.rs:233-244 | a string long enough is held in the smaller of its plain and its compressed form, a short one plain |
| FlowStore.FlowStore.InsertFlow | crates/nova-core/src/flowstore.rs:78-107 | what was inserted is stored, a known id in its place and a new one last; what was evicted is the front of the order, in order; counters exact |
| FlowStore.FlowStore.Admit | crates/nova-core/src/flowstore.rs:84-93 | a re-inserted id keeps its place and is not counted twice |
| FlowStore.FlowStore.EvictPastWindow | crates/nova-core/src/flowstore.rs:94-102 | the oldest ids go, in order, until the window fits, with their counted bytes |
| FlowStore.FlowStore.UpdateFlow | crates/nova-core/src/flowstore.rs:115-128 | the snapshot is what the closure makes of the flow as readers see it, and from then on is the flow stored under the id, whose place does not change; an unknown id changes nothing |
| FlowStore.FlowStore.Get | crates/nova-core/src/flowstore.rs:130-132 | reads back the plain flow, or nothing |
| FlowStore.FlowStore.ReadNewestFirst | crates/nova-core/src/flowstore.rs:135-139 | every retained flow, newest first |
| FlowStore.FlowStore.FindFlows | crates/nova-core/src/flowstore.rs:144-160 | exactly the first `limit` matches newest first, though it stops early |
| FlowStore.FlowStore.ReadShells | crates/nova-core/src/flowstore.rs:167-171 | every retained flow, oldest first, without body bytes, read without unpacking |
| FlowStore.FlowStore.Clear | crates/nova-core/src/flowstore.rs:176-189 | everything retained goes and is named; the session count stays |
| FlowStore.FlowStore.PreviewBytes | crates/nova-core/src/flowstore.rs:209-213 | both byte counters equal the sums over the stored flows, so the clamp is never needed |
| FlowStore.EvictOldestKeepsNewest | crates/nova-core/src/flowstore.rs:94-101 | eviction keeps exactly the newest ids of the window, their flows untouched |
| FlowStore.RetainedIsWritten | crates/nova-core/src/flowstore.rs:78-128 | after any run of inserts, updates and clears, what is retained under an id is the last flow inserted under it or the last snapshot an update made of it |
| FlowStore.FindIsNewest | crates/nova-core/src/flowstore.rs:141-160 | what find gives is matches, newest first; it leaves one out only when full, and then all it gives is newer |
| FlowStore.ReadersFollowOrder | crates/nova-core/src/flowstore.rs:134-171 | newest-first and oldest-first reading agree with the order, place by place |
| FlowStore.CountersCoverPreviews | crates/nova-core/src/flowstore.rs:205-213 | the two counters are the packed and the unpacked sizes of every preview string stored, and packing never adds |
| InsightCache.Insights.Report | src-tauri/src/state.rs:452-467 | cached or not, the answer is a fresh analysis of the current shells, given the added latency if network conditions are on and none if they are off |
| InsightCache.AnswersAreFresh | src-tauri/src/state.rs:450-467 | after any sequence of store changes, network changes and questions of which none is asked inside an insert, the next answer of every analysis is fresh |
| InsightCache.AnswersGoByLatency | src-tauri/src/state.rs:450-467 | and right after the conditions change it goes by the new ones, whatever was cached |
| InsightCache.AskedMidInsert | crates/nova-core/src/flowstore.rs:78-82 | for every sequence, inserts split in two: once all have ended the next answer is current if and only if it is not a report of the current key computed inside an insert; while some are open, if and only if none ended since it was computed |
| InsightCache.CurrentForEvery | src-tauri/src/state.rs:462-463 | an answer current for all there is to analyze is current for every analysis |
| InsightCache.StaleCount | crates/nova-core/src/flowstore.rs:78-82 | a report asked for inside an insert goes on counting no flow where there is one |
| BodyStore.BodyStore.Register | crates/nova-core/src/bodystore.rs:143-152 | exactly the longest suffix of files in write order that fits stays, the others are deleted, and `used` is its exact size; what saturation clipped, now or before, is by how much both are off |
| BodyStore.BodyStore.EvictOldest | crates/nova-core/src/bodystore.rs:147-151 | the loop drops the least prefix that brings the counter within the budget |
| BodyStore.BodyStore.RemoveFlow | crates/nova-core/src/bodystore.rs:155-177 | both files of a flow go, from the queue and from disk, and `used` is the size of what is left, or as far short of it as it was |
| BodyStore.BodyStore.Retain | crates/nova-core/src/bodystore.rs:163-172 | keeps the other files in order and frees exactly the size of the rest |
| BodyStore.BodyStore.ReadBody | crates/nova-core/src/bodystore.rs:181-195 | the file's bytes up to the limit, its true length, truncated exactly when it is longer; no file is an error |
| BodyStore.OverdueIsLeast | crates/nova-core/src/bodystore.rs:147-151 | evicting stops as soon as the rest fits |
| BodyStore.NewestSurvives | crates/nova-core/src/bodystore.rs:141-152 | a file outlives its own registration if and only if it fits the budget alone |
| BodyStore.PathsDistinct | crates/nova-core/src/bodystore.rs:129-139 | ids that need no sanitizing never share a file, nor do the two sides of one |
| BodyStore.SanitizeKeepsIff | crates/nova-core/src/bodystore.rs:128-137 | an id names its file unchanged if and only if all its characters are safe |
| BodyStore.EngineFilesDistinct | crates/nova-core/src/intercept.rs:121-122 | no two bodies of the engine's numbered flows share a file |
| BodyStore.WithoutConcat | crates/nova-core/src/bodystore.rs:164-172 | removing a flow's files removes exactly those, and the others keep their order |
| BodyStore.FileStaysInDirectory | crates/nova-core/src/bodystore.rs:130-135 | no id of any scheme names a file outside the directory |
| BodyCapture.BodyCapture.Push | crates/nova-core/src/bodystore.rs:249-296 | whatever fails, preview, length and flag are those of the body so far and an open file mirrors it; the subtraction underflows exactly on opening again after a push that opened the file and could not write the preview |
| BodyCapture.BodyCapture.OpenFile | crates/nova-core/src/bodystore.rs:268-292 | the file opened mirrors the preview and the part of the chunk behind it, or is given up, or is left to be opened again |
| BodyCapture.FailedHeaderUnderflows | crates/nova-core/src/bodystore.rs:274-283 | two pushes after which the subtraction underflows |
| BodyCapture.CaptureThenRead | crates/nova-core/src/bodystore.rs:181-195 | a captured body that spilled and fits the budget is read back as its mirror's prefix, length and flag |
| BodyCapture.BodyCapture.Write | crates/nova-core/src/bodystore.rs:299-314 | appends what the per-body cap leaves room for, or gives the file up |
| BodyCapture.BodyCapture.Finish | crates/nova-core/src/bodystore.rs:318-334 | registers the file if it is open and flushes, and reports the body's prefix, length and flags |
| BodyCapture.CaptureAll | crates/nova-core/src/bodystore.rs:249-334 | for every way of cutting a body into chunks: same preview, length, flags and file |
| BodyCapture.MirrorIsCappedIff | crates/nova-core/src/bodystore.rs:298-306 | the file keeps to the per-body cap if and only if the preview cap is no larger |
| BodyCapture.RegisteredStays | crates/nova-core/src/bodystore.rs:318-327 | the file just reported as spilled is already gone if and only if it exceeds the whole budget |
| SysProxy.RunSafe | src-tauri/src/commands.rs:541-629 | after any run with any effect failing or crashing: the machine is as the user had it, or the file on disk is exactly those settings |
| SysProxy.CompletedMeansRestored | src-tauri/src/commands.rs:607-625 | a disable or restore that completes puts the user's settings back, and a disable whose calls work completes |
| SysProxy.CompletedMeansOn | src-tauri/src/commands.rs:549-605 | turning on completes if and only if the engine runs, a snapshot is or gets on disk and the change works; then the machine is pointed at NovaProxy, the flag is up, and the snapshot is the one owed or of what was found |
| SysProxy.FlagMeansBackup | src-tauri/src/commands.rs:603-628 | in any run, while the flag is up there is a backup to turn the proxy off by |
| SysProxy.EnableKeepsSnapshot | src-tauri/src/commands.rs:545-550 | enabling again keeps the snapshot still owed, whatever else fails, if and only if it can be read |
| SysProxy.ToggleSafeIff | src-tauri/src/commands.rs:1198-1201 | toggling is safe whatever else fails if and only if the backup can be read or nothing is changed |
| SysProxy.EditSafeIff | src-tauri/src/commands.rs:564-567 | an edit of the settings by the user is safe if and only if no snapshot of others outlives it |
| SysProxy.TornMeansUntouched | src-tauri/src/commands.rs:564-576 | a backup cut short is only left while the machine was never touched |
| SysProxy.SystemProxy.SetSystemProxy | src-tauri/src/commands.rs:533-632 | every outcome of a toggle, failure by failure; it keeps safety, a completed enable points the machine at NovaProxy with a snapshot on disk, a completed disable restores, and the flag follows what completed |
| SysProxy.SystemProxy.RestoreFrom | src-tauri/src/lib.rs:147-163 | keeps safety; done means the user's settings are back and nothing is pending; failed means the backup is still there as it was |
| SysProxy.SystemProxy.RestoreSystemProxy | src-tauri/src/commands.rs:640-650 | restores safely, and clears the flag exactly when it succeeded |
| SysProxy.SystemProxy.ReleaseAtQuit | src-tauri/src/lib.rs:110-118 | keeps safety; where it needs a prompt nothing changes, and where not, a readable backup that can be applied puts the user's settings back |
| SysProxy.SystemProxy.LaunchSafetyNet | src-tauri/src/lib.rs:332-351 | keeps safety; whenever the machine is not as the user had it the restore is pending, unless the process died in it, and what is pending is a backup still there |
| PackBits.PackRle | assets/logo/icns.py:26-41 | decoding the output by the documented format gives the input back, every byte fits, and the overhead is at most one byte per 128 started |
| PackBits.RunLength | assets/logo/icns.py:31-32 | the run is of equal bytes, at most 130, and under three only when no triple starts there |
| PackBits.LiteralEnd | assets/logo/icns.py:36-39 | a literal spans 1 to 128 bytes, holds no triple, and stops short only at one |
| PackBits.UnpackConcat | assets/logo/icns.py:27-28 | decoding a concatenation is decoding its parts, whatever they encode |
| CrashMarker.FormatMarker | src-tauri/src/crash.rs:224-232 | for any two numbers the whole text fits and is written, and nothing behind it is touched |
| CrashMarker.PutU64 | src-tauri/src/crash.rs:244-262 | writes the decimal digits, in order, as far as they fit |
| CrashMarker.StageDigits | src-tauri/src/crash.rs:245-256 | the staged digits reversed are the decimal number, at most 20 of them |
| CrashMarker.Put | src-tauri/src/crash.rs:236-241 | copies what fits and changes nothing else |
| Decimals.DecimalLength | src-tauri/src/crash.rs:216-217 | a number below a power of ten has no more digits than its exponent |
| CrashMarker.ParseMarker | src-tauri/src/crash.rs:269-281 | reads fields in order, the last of a name counting, and rejects what is no field |
| CrashMarker.MarkerRoundTrip | src-tauri/src/crash.rs:264-281 | every marker written is read back as what crashed |
| Breakpoints.ExactlyOneDecision | crates/nova-core/src/breakpoint.rs:70-88 | in every interleaving a waiter still owns its channel or got exactly one decision: a resume of its own id or a plain continue |
| Breakpoints.DecisionsAreTheUsers | crates/nova-core/src/breakpoint.rs:71-75 | a waiter gets a user's decision if and only if the user made that one for the id while this waiter was under it |
| Breakpoints.BlankIff | crates/nova-core/src/breakpoint.rs:45 | a pattern is blank exactly when trimming leaves nothing |
| Breakpoints.RegisterKeeps | crates/nova-core/src/breakpoint.rs:79-88 | registering a pause keeps every waiter waiting or decided once: the new one waits, and an older one under the same id gets its one plain continue |
| Breakpoints.DeliverKeeps | crates/nova-core/src/breakpoint.rs:71-75 | delivering to the channel under an id keeps every waiter waiting or decided once, each by a decision that is its own |
| Breakpoints.Breakpoints.Disarm | crates/nova-core/src/breakpoint.rs:53-60 | nothing is pending after the drain, each waiter that was gets one plain continue, and nobody is left undecided |
| Breakpoints.Breakpoints.ArmFor | crates/nova-core/src/breakpoint.rs:44-51 | armed with the pattern, a blank one becoming the wildcard; waiters are untouched |
| Breakpoints.Breakpoints.ResumeRequest | crates/nova-core/src/breakpoint.rs:71-75 | an unknown id changes nothing |
| Breakpoints.Breakpoints.RegisterPause | crates/nova-core/src/breakpoint.rs:79-87 | the new waiter waits under its id and the breakpoint is disarmed |
| Breakpoints.CaughtExactly | crates/nova-core/src/breakpoint.rs:44-85 | in any run, from one arming to the next exactly the matching requests that check before a pause is registered or the breakpoint disarmed are caught, whatever matching is |
| Curl.BuildCurl | src/inspector/curl.ts:57-71 | the printed command, and that a shell splits it into the arguments meant for every URL, header and body when the method is a plain word |
| Curl.ReadsBackIff | src/inspector/curl.ts:57-71 | for every HTTP method: a shell reads back the arguments meant, whatever files it finds, if and only if the method is a plain word to it |
| Curl.RequestRecovered | src/inspector/curl.ts:57-71 | from the command a shell and curl recover the method, the URL, each exported header's name and value in order, whether an encoding is accepted, and the text body unless empty |
| Curl.HeaderReadsIff | src/inspector/curl.ts:64-66 | a header line is read as its name and value if and only if the name has no colon |
| Curl.BareMethodBreaks | src/inspector/curl.ts:61 | a method HTTP allows that the command breaks on |
| Curl.CommandReadsBack | src/inspector/curl.ts:61-70 | options joined by line continuations are read back as their arguments |
| Curl.QuoteReads | src/inspector/curl.ts:28-31 | quoted text is one word, whatever it holds |
| Curl.KeptIff | src/inspector/curl.ts:16-26 | exactly the headers that are neither pseudo-headers nor of the connection are exported |
| Curl.ExportedIff | src/inspector/curl.ts:16-26 | which headers those are, by name in whatever case |
| Scope.UnderIff | src/scope.ts:71-79 | a path is under a node's prefix if and only if the node's segments are its first and it starts with the prefix as written |
| Scope.PicksAgree | src/scope.ts:112-118 | one pick or many, the scope accepts what the set of picks would |
| Scope.PicksRoundTrip | src/scope.ts:100-118 | the picker reads back the picks it made a scope of, and only two or more make a set |
| Scope.OneAppRow | src/scope.ts:54-56 | a flow is in the row of its app and no other, one without attribution in the nameless one |
| Scope.NamedAreSelected | src/scope.ts:51-67 | pins and findings select exactly the listed flows they name |
| Scope.SingleSlashedStarts | src/scope.ts:254-269 | a path with single slashes starts with the prefix of every node that counts it |
| ScopeTree.BuildScopeTree | src/scope.ts:212-245 | each app, host and app-and-host row counts exactly the flows its scope accepts, a host is marked for its HTTPS flows, and counts add up level by level |
| ScopeTree.HttpsIff | src/scope.ts:229 | a flow marks its host for HTTPS whatever case its scheme is written in |
| ScopeTree.AddPathCounts | src/scope.ts:261-269 | a path counts once at each node on its way down, and at no other |
| ScopeTree.AddPathWellBuilt | src/scope.ts:261-269 | nodes stay named for where they are, and no node's children count more than it |
| ScopeTree.PathRowIff | src/scope.ts:212-275 | a path node never counts fewer flows than selecting it shows, and as many if and only if all of them are written with its prefix |
| ScopeTree.PathNodeCountIff | src/scope.ts:71-79 | the same, between the two ways of counting flows |
| ScopeTree.DoubledSlashMiscounts | src/scope.ts:254-269 | a flow of `//a` is counted by the row `/a`, and selecting the row shows none |
| ScopeTree.SingleSlashedCounts | src/scope.ts:254-269 | for paths with single slashes a node counts exactly the flows its scope accepts |
| ScopeTree.NodePrefix | src/scope.ts:261-269 | a node's prefix is its segments joined by slashes, and its depth is bounded |

## Left out

- Threads, locks and timers as such: a store change and its emit, a flush, and a proxy toggle are one step each, in any order; a toggle never overlaps the restore thread of the launch.
- A message that fails to serialize or send is not modelled: every flush reaches the wire.
- Performance counters (`Sent`, `report`) and the flush thread's timing.
- Pipeline.DrainedListIsDirect: for a recording list, an unpaused page, no clear, and ids that fit the list; what coalescing costs beyond that is `Coalesce.CoalesceExact`, what the cap costs is `QueueCap.DropLosesNothingIff`.
- FrameConservation.FramesAlwaysConserved: for the same runs, where it says that nothing vanishes; for every run `FrameAccounts.EveryFrameAccounted` says what does.
- FrameConservation.FramesFindTheirFlows: for the same runs; for every run `FrameOrder.NothingOvertakes` says what is upstream of the frames, and `FrameAccounts.TickConservesIff` what an unlisted flow's frames cost.
- QueueCap.CoalesceBatch: one way only, since snapshots that come later in a batch can push out what coalescing an earlier one showed.
- FlowList.ApplyFlowBatch: for a list with a repeated id (an import can load one) nothing is promised; the index then leads to the last copy.
- FrameAccounts.EveryFrameAccounted: after an import with repeated ids a tick is taken to update the first copy, where the index leads to the last; what such a tick evicts may differ.
- PageCatchesUp.PageShowsTheStore: for a page whose queue never goes over its cap; past it `QueueCap.DroppedUpdateStaysStale` shows a flow left stale.
- QueueCap.DropInvisibleForNewFlows: one way only; when a drop costs nothing the order of the list can still differ.
- QueueCap.PushInvisibleForNewFlows: one way only, for the same reason.
- Cleared.ClearedIsGone: for an engine that flushes nothing between the webview's part of a clear and its own; a flush there puts its queue on the wire, from where it comes back.
- SysProxy.FlagMeansBackup: says only that a backup is there, as one that cannot be read counts for none.
- Curl.RequestRecovered: what curl does with a header it is given, such as dropping one with an empty value, is not modelled.
- The list's caps are taken to be at least one, as the constants are.
- JavaScript's property order: loops over records pick in any order, which covers theirs.
- Sharing of arrays and maps between versions of the list (`applyFlowBatch` copies before its first write) and the sidebar's nested maps, which the model holds as values.
- Pins, comments, the selected flow and proxy status of the webview's store.
- FlowStore.FlowStore.InsertFlow: deleting the spilled bodies of evicted flows is the returned list of their ids; `Clear` likewise.
- zstd and UTF-8 are a codec assumed lossless; 64-bit byte counters do not overflow.
- BodyCapture.CaptureAll: asks for room below the 64-bit limit of the byte counter, which `BodyStore.BodyStore.Register` does not.
- Buffered writes: a spill file holds what was written to it; a capture and the removal of its own flow do not overlap, and a flow's side is captured once.
- Reading back a body whose file is cut short by the operating system between its length and its bytes.
- Housekeeping that empties the bodies directory at start.
- Settings of the operating system are one value; the engine start, the helper probe, logging and the Windows sign-in restore are not modelled beyond the toggle being refused when the engine does not start.
- SysProxy.RunSafe: a user's own edit while a snapshot is on disk, and a toggle that cannot read its backup while the machine is changed, are excluded; `EditSafeIff` and `ToggleSafeIff` say exactly why.
- How the breakpoint pattern and rules match (any function of pattern and URL here).
- Curl.ReadsBackIff: an unquoted `*` counts as misread, since files in the shell's directory may match it; where none does a shell leaves it as it is. Also left out: history expansion, which interactive shells add to the standard, and methods that are not HTTP tokens, which only an imported session could hold.
- Dropping a URL's default port (`tidyUrl`) happens before `Curl.BuildCurl`; header names are compared in ASCII.
- The crash marker's file and signal handling; white space between fields is ASCII.
- The order in which the sidebar lists its rows (`localeCompare`), scope keys and labels.
- Rules, interception, timing, classification, reports, sorting, preferences and the views: case analysis, library calls or I/O.
