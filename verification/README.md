# Recovery and transport of AIALRA-KIMI, verified

A browser shows a live session that runs on a remote host. What it shows passes through an encrypted
channel, a relay that cannot read it, and links that lose, repeat and reorder messages. This Dafny
project models the code that keeps the picture right and proves what it keeps:

- **Transcript** (`Transcript`, `TranscriptLookup`, `TranscriptShape`, `TranscriptText`,
  `TranscriptEffects`, `TranscriptLog`, `TranscriptDriver`, `TranscriptTruth`, `TranscriptObjects`,
  `TranscriptHeap`, `TranscriptBatches`, with `Json` and `Ordering`): the reducer of sequenced
  operation batches on values, what each operation does to the whole state, the shape it keeps, what
  streamed text shows, what any delivery of a log shows, whole runs of the queue, catch-ups and page
  reads that drive it, and the same reducer again on arrays, maps, turns, steps and frames that are
  edited in place.
- **Encrypted channel** (`SecureChannel`, `BrowserRelay`, `RelayTable`, `ChannelProtocol`): both
  endpoints and the relay's filter as classes, and the three of them as one state machine under an
  ideal cipher.
- **Terminals** (`Scrollback`, `TerminalRuns`, `Terminal`, `Broker`): runs of attach, detach, resume
  and reap, and the manager that edits its table so; the scrollback in UTF-8 (section 3 of RFC 3629);
  the broker's bounded buffer with its polling reader, and its window of used request ids.
- **Bookkeeping** (`Events`, `ToolMessages`, `Nonces`, `RateWindow`, `AgentRegistry`): cursors and
  subscriptions, tool-message coalescing, single-use nonces, rate windows, and which agent serves a
  host.

Code that the source writes with loops or by editing objects is a `method` or `class` here, proved
against a function; the theorems are about the functions. `dafny verify dfyconfig.toml` checks
everything.

Where the source does less than its documentation or a natural reading promises, the model follows the
source, shows an input, and gives the exact condition; for the last point the condition is sufficient
only, since an operation that reaches a payload may still change nothing:

- `meta.merge` agrees with RFC 7396, and may be repeated, exactly when no patch object with nulls lands
  where the target has no object (`MergesLikeRfc7396`, `MergeIsIdempotent`; `NestedNullExample`).
- An append whose offset is not a number is applied every time, so it may be repeated exactly when its
  offset is a number or its text is empty (`AppendTwiceIsOnce`; `UnnumberedAppendExample`).
- A reset lowers the cursor exactly when it carries none and is taken (`ResetLowersCursor`;
  `CursorlessResetExample`), and a batch skips entries exactly when the cursor is 0 and the batch, not
  the first, goes through (`ZeroCursorSkipsEntries`; `SkippedEntryExample`).
- A catch-up overwrites batches that arrived while it was under way: the cursor shown goes back exactly
  when the catch-up goes through and neither its start nor any of its numbers reaches that cursor
  (`CatchUpLowersTheCursor`; `CursorCanGoBack`). What is shown stays a contiguous fold all the same
  (`EverythingDisplayedIsGrounded`).
- Verifying a grant and consuming its nonce read the clock separately: a grant can open a second channel
  only if it expires between the two readings, and then does unless its nonce was used meanwhile
  (`GrantReopensOnlyAcrossExpiry`; `ReopenedGrantExample`). A hello can be used twice only at one exact
  pair of instants, and then is under the same proviso (`HelloReplayNeedsTheBoundary`;
  `ReplayedHelloExample`).
- A connection that has been replaced, or whose host has been revoked, but that has not yet closed still
  overwrites the login state shown for its host (`OnlyStaleHeartbeatsLeak`; `StaleHeartbeatExample`).
- A request whose frame cannot be sent has used up its number, so every later request on the channel
  stays unheard (`UnsentRequestBlocksTheChannel`).
- A batch that is given up halfway may already have edited its own payload (`GapExtendsPayload`): frames
  it brought grow by its appends, turns and steps of items and snapshots it brought take its steps and
  frames, and a snapshot's array of items takes its items. What an operation brought is untouched unless
  a later one of the batch reaches it by name (`Touches`, `SparedObjects`), and a frame that nothing has
  moved since shows what the run made of it (`FramesShow`). Nothing of the input state is ever edited.

## Model

| member | source | states |
|---|---|---|
| Json.DeepMergeLoop | apps/web/src/transcript-model.ts:483-505 | taking the patch's entries in any order gives one result, the merge that the lemmas below relate to RFC 7396 |
| Json.MergesLikeRfc7396 | apps/web/src/transcript-model.ts:488-502 | the merge equals MergePatch of RFC 7396 section 2 if and only if every patch object landing on a non-object is free of nulls |
| Json.NestedNullExample | apps/web/src/transcript-model.ts:502 | a null under a key the target lacks is stored, where MergePatch drops it, and goes the second time |
| Json.CleanForEveryTarget | apps/web/src/transcript-model.ts:491-502 | that condition holds for all targets if and only if the patch has nulls at top level only |
| Json.MergeIsIdempotent | apps/web/src/transcript-model.ts:422-428 | merging a patch twice equals merging it once if and only if the same condition holds |
| Ordering.StableOrder | apps/web/src/transcript-model.ts:340 | a permutation in ascending order that keeps equal keys in place |
| Ordering.StableOrderIsUnique | apps/web/src/transcript-model.ts:340 | no other permutation sorts stably, so the engine has no choice |
| Ordering.ArrangeKeepsElements | apps/web/src/transcript-model.ts:476-481 | whatever order the engine picks for mixed items, each is kept as often as it occurs |
| Transcript.TurnIdsAreApart | apps/web/src/transcript-model.ts:470-474 | an item id names a turn if and only if it is that turn's id with the turn prefix |
| Transcript.IndexOf | apps/web/src/transcript-model.ts:351-353 | the first position of an id, or none if it does not occur |
| Transcript.FindTurn | apps/web/src/transcript-model.ts:452-460 | the first turn with an id, or none if there is none |
| Transcript.FindStep | apps/web/src/transcript-model.ts:462-468 | the first step with the id in the first turn with the id, or none if that turn has none |
| Transcript.RemovalKeepsOrder | apps/web/src/transcript-model.ts:399-403 | exactly the items at unlisted positions are left, in order |
| Transcript.UnlistedPositions | apps/web/src/transcript-model.ts:399-403 | a position is unlisted if and only if the id of its item is not listed |
| Transcript.AppendFrameCases | apps/web/src/transcript-model.ts:362-376 | no such text is a gap; a low offset changes nothing; a high one is a gap; otherwise exactly the found frame's text grows |
| Transcript.BatchStates | apps/web/src/transcript-model.ts:265-284 | a gap leaves the state; otherwise it is left, or all operations went through and their result stands under a cursor, never something in between |
| TranscriptEffects.GapsAreMisfits | apps/web/src/transcript-model.ts:286-434 | an operation of any kind is a gap if and only if it brings nothing, names something missing, starts its text past the end or is unknown, and then changes nothing |
| TranscriptEffects.TurnUpsertEffect | apps/web/src/transcript-model.ts:311-327 | with ids unique, in the whole state the turn has its new head and its old steps and is there once; every other item, agent, cursor, tasks, tables and metadata are as before |
| TranscriptEffects.TurnUpsertKeepsItems | apps/web/src/transcript-model.ts:311-327 | whatever ids the items have, the first turn of the name is replaced or one is added, and no item is lost or repeated |
| TranscriptEffects.StepUpsertEffect | apps/web/src/transcript-model.ts:328-342 | with ids unique, the turn keeps place and head, the step has its new head and its old frames, every other step, item and field is as before |
| TranscriptEffects.FrameUpsertEffect | apps/web/src/transcript-model.ts:343-357 | the frame is found as brought, every other frame is as before, and no turn, step or other field has changed |
| TranscriptEffects.AppendFrameEffect | apps/web/src/transcript-model.ts:362-376 | an append that fits either repeats and changes nothing, or extends its frame and changes no other frame, step, turn or field |
| TranscriptEffects.AppendTaskEffect | apps/web/src/transcript-model.ts:377-387 | likewise for the tail of a task |
| TranscriptEffects.ItemUpsertEffect | apps/web/src/transcript-model.ts:389-398 | the item stands where its id stood or else at the end, every other item and field is as before |
| TranscriptEffects.ItemsRemoveEffect | apps/web/src/transcript-model.ts:399-403 | exactly the unlisted items are left, in order, and no other field changes |
| TranscriptEffects.TaskUpsertEffect | apps/web/src/transcript-model.ts:404-421 | the task is found under its id, every other task and field is as before |
| TranscriptEffects.TableUpsertEffect | apps/web/src/transcript-model.ts:404-421 | the value is found in its own table under its own string key, every other entry of every table and every field is as before |
| TranscriptEffects.MetaMergeEffect | apps/web/src/transcript-model.ts:422-428 | key by key: a null deletes, an object is merged into an object, anything else replaces; other keys and fields are as before |
| TranscriptEffects.ResetEffect | apps/web/src/transcript-model.ts:290-310 | what each field becomes: the snapshot's, with nothing pending, cursor 0 and, if none is named, the old agent |
| TranscriptEffects.PageFields | apps/web/src/transcript-model.ts:189-206 | which field of a page goes where and under which key name; a missing cursor is 0 |
| TranscriptEffects.KeyedMapHoldsLast | apps/web/src/transcript-model.ts:178-187 | under each string that some value has as its key stands the last such value, and nothing else is there |
| TranscriptEffects.TasksByIdHoldsLast | apps/web/src/transcript-model.ts:193 | under each task id stands the last task with it, and nothing else is there |
| TranscriptEffects.EmptyIsEmptyPage | apps/web/src/transcript-model.ts:162-176 | the empty transcript of an agent is what its empty page becomes |
| TranscriptEffects.PrependEffect | apps/web/src/transcript-model.ts:250-263 | an older page changes the items and whether more are to come, and nothing else |
| TranscriptEffects.BatchOutcome | apps/web/src/transcript-model.ts:265-284 | a batch is a gap if and only if it is ahead, or not stale and its operations run into one; stale and gapped batches leave the state, any other leaves what its operations made under its number |
| TranscriptEffects.RunStopsAtTheFirstMisfit | apps/web/src/transcript-model.ts:274-282 | the run of a batch has a gap from the first operation that does not fit where those before it led |
| TranscriptLookup.TurnUpsertStores | apps/web/src/transcript-model.ts:311-327 | among the items alone: the turn has its new head and its old steps, every other item is found unchanged, wherever sorting put it |
| TranscriptLookup.StepUpsertStores | apps/web/src/transcript-model.ts:328-342 | the step has its new head and its old frames, every other step is found unchanged |
| TranscriptLookup.FrameUpsertStores | apps/web/src/transcript-model.ts:343-357 | the frame is replaced or added, every other frame is found unchanged |
| TranscriptLookup.PutItemStores | apps/web/src/transcript-model.ts:389-398 | the marker or task reference is stored whole, every other item is found unchanged |
| TranscriptLookup.RemovalForgets | apps/web/src/transcript-model.ts:399-403 | listed ids are no longer found, all others are found unchanged |
| TranscriptLookup.LastTaskWins | apps/web/src/transcript-model.ts:193 | of tasks with one id the last is kept |
| TranscriptLookup.LastValueWins | apps/web/src/transcript-model.ts:178-187 | of values with one string key the last is kept |
| TranscriptLookup.OnlyStringKeysCount | apps/web/src/transcript-model.ts:178-187 | a key is present if and only if some value has it as a string |
| TranscriptLookup.ResetLowersCursor | apps/web/src/transcript-model.ts:208-224 | a reset lowers the cursor if and only if it carries none and is taken |
| TranscriptLookup.CursorlessResetExample | apps/web/src/transcript-model.ts:204 | a page without a cursor takes the cursor from 7 to 0 |
| TranscriptShape.SortedStepsAreInOrder | apps/web/src/transcript-model.ts:340 | after sorting, ordinals ascend |
| TranscriptShape.PageHasShape | apps/web/src/transcript-model.ts:189-206 | a page with unique ids and ordered steps becomes a state with them, its collections keyed by their own ids |
| TranscriptShape.OperationKeepsShape | apps/web/src/transcript-model.ts:286-434 | every operation keeps item ids unique, step ids unique per turn, frame ids unique per step, steps ordered and collections keyed by id |
| TranscriptShape.BatchKeepsShape | apps/web/src/transcript-model.ts:265-284 | so does every batch; a gap returns the state itself; a sequenced batch never lowers the cursor |
| TranscriptShape.ResetKeepsShape | apps/web/src/transcript-model.ts:208-224 | so does every reset; a positive cursor never lowers the cursor; shown items are never emptied |
| TranscriptShape.PrependKeepsShape | apps/web/src/transcript-model.ts:250-263 | an older page keeps the shape and leaves the shown items as a suffix |
| TranscriptShape.PrependIsCompleteAndIdempotent | apps/web/src/transcript-model.ts:250-263 | afterwards exactly the old and the page's ids are present, and the page adds nothing a second time |
| TranscriptShape.TurnsAreInOrder | apps/web/src/transcript-model.ts:476-481 | if all items are turns, an upsert leaves them in ordinal order |
| TranscriptText.RewriteOneFrame | apps/web/src/transcript-model.ts:362-376 | extending one found frame changes that frame and no other lookup of turn, step or frame |
| TranscriptText.AppendEffect | apps/web/src/transcript-model.ts:358-388 | an append is a gap if and only if its target is missing or its offset is past the end, extends its target at the end, repeats otherwise, and changes no other target |
| TranscriptText.AppendTwiceIsOnce | apps/web/src/transcript-model.ts:360-382 | an append that went through may be repeated if and only if its offset is a number or its text is empty |
| TranscriptText.UnnumberedAppendExample | apps/web/src/transcript-model.ts:360-386 | an append without a number shows its text twice when repeated |
| TranscriptText.StreamedTextNeverShrinks | apps/web/src/transcript-model.ts:358-388 | appends that are slices of a target's true text, delivered in any order with repeats and losses, never shrink what is shown and keep it a prefix of the truth |
| TranscriptTruth.OperationKeepsTruth | apps/web/src/transcript-model.ts:286-434 | if appends are slices of the truth and texts brought whole are prefixes of it, every operation keeps every text of the state, found by a lookup or not, a prefix of its truth |
| TranscriptTruth.EveryTextShownIsTrue | apps/web/src/transcript-model.ts:208-284 | so after any delivery of batches of any operations and of live pages every text shown is a prefix of its true text, targets that come into being on the way included |
| TranscriptTruth.PrependKeepsTruth | apps/web/src/transcript-model.ts:250-263 | so are the texts of older pages put in front |
| TranscriptTruth.EverythingDisplayedIsTrue | apps/web/src/App.tsx:1634-2006 | and so is everything on display over whole runs of the driver |
| TranscriptLog.BatchStep | apps/web/src/transcript-model.ts:270-283 | a delivered entry moves a replayed state to the next entry or not at all, and moves it whenever it is the next one and replays |
| TranscriptLog.ShowsContiguousLog | apps/web/src/transcript-model.ts:208-284 | from a positive cursor, any delivery with drops, repeats, reordering and live pages, empty ones included, shows what stood right after the last page taken folded through exactly the contiguous entries up to the cursor |
| TranscriptLog.ResetCases | apps/web/src/transcript-model.ts:214-223 | which pages are taken, and what is shown right after one: the page, with the old items if it has none |
| TranscriptLog.PageCursor | apps/web/src/transcript-model.ts:218-223 | taken or not, a page leaves the larger of the two cursors |
| TranscriptLog.ReplayComposes | apps/web/src/transcript-model.ts:274-283 | replaying on from a replayed state is replaying from the start |
| TranscriptLog.PagesOfTheLogConverge | apps/web/src/transcript-model.ts:208-224 | if pages that are taken are states of the log, and one without items skips no change to them, the state shown is a function of the cursor alone; pages not taken may be anything |
| TranscriptLog.CursorIsReach | apps/web/src/transcript-model.ts:208-283 | the cursor after any delivery depends only on the numbers of the batches and pages delivered and how far replay is possible |
| TranscriptLog.HorizonIsExact | apps/web/src/transcript-model.ts:274-283 | replay is possible up to one entry and no further |
| TranscriptLog.InOrderEntriesArrive | apps/web/src/transcript-model.ts:208-283 | if the next entries, which replay, arrive in order with any batches, stale pages and pages of the log in between, the cursor passes all of them |
| TranscriptLog.ZeroCursorSkipsEntries | apps/web/src/transcript-model.ts:272 | a batch moves the cursor over entries it lacks if and only if the cursor was 0 and the batch, not the first, goes through |
| TranscriptLog.SkippedEntryExample | apps/web/src/transcript-model.ts:272 | from cursor 0 an entry applies without its predecessor and the result is not the replayed log |
| TranscriptDriver.Driver.Enqueue | apps/web/src/App.tsx:1634-1650 | only events of the selected session and generation are queued |
| TranscriptDriver.Driver.Flush | apps/web/src/App.tsx:1665-1729 | the queue is emptied, its events are taken in order, and a reconcile is asked for if and only if some batch had a gap |
| TranscriptDriver.Driver.CompleteCatchUp | apps/web/src/App.tsx:1969-1989 | a catch-up that goes through replaces what is on display if the user has not moved on; a page is asked for if and only if it fails |
| TranscriptDriver.Driver.ShowPage | apps/web/src/App.tsx:1999-2009 | a page read resets the transcript of the session it was read for, unless the user has moved on |
| TranscriptDriver.OthersAreInvisible | apps/web/src/App.tsx:1677-1683 | events of another host, generation or session make no difference |
| TranscriptDriver.FramesDoNotMatter | apps/web/src/App.tsx:1651-1669 | how events are split over animation frames makes no difference |
| TranscriptDriver.FlushingIsReceiving | apps/web/src/App.tsx:1665-1722 | flushing a queue of log entries and pages is receiving what it delivers to the selected session |
| TranscriptDriver.NothingShownYet | apps/web/src/App.tsx:1709-1719 | with nothing on display the first page is taken as it is and the first batch goes to the empty transcript of its agent |
| TranscriptDriver.ReconcileIsAskedForMissedBatches | apps/web/src/App.tsx:1711-1741 | from a positive cursor a flush asks for a reconcile if and only if some batch it delivered came more than one ahead of the cursor reached, or was the next one and had a gap |
| TranscriptDriver.LostBatchExample | apps/web/src/App.tsx:1711-1741 | from cursor 1 it asks when batch 3 arrives |
| TranscriptDriver.Play | apps/web/src/App.tsx:1634-2006 | a driver that goes through any arrivals, flushes, catch-ups and page reads ends with exactly the queue and the display that the run theorems are about |
| TranscriptDriver.CatchUpLoop | apps/web/src/App.tsx:1969-1975 | the loop applies every batch or fails at the first gap |
| TranscriptDriver.CatchUpIsDelivery | apps/web/src/App.tsx:1969-1975 | a catch-up that goes through is a delivery of its entries |
| TranscriptDriver.CatchUpFailsOnMissedBatches | apps/web/src/App.tsx:1969-1975 | from a positive cursor a catch-up fails if and only if one of its batches is missed where those before it led |
| TranscriptDriver.EverythingShownIsGrounded | apps/web/src/App.tsx:1942-2006 | over all changes by deliveries and overtaking catch-ups, everything shown is the start, or what stood right after a page was taken, folded through contiguous entries |
| TranscriptDriver.DisplayedIsHistory | apps/web/src/App.tsx:1634-2006 | what arrivals, flushes, catch-ups and page reads leave on display is the last of those changes |
| TranscriptDriver.EverythingDisplayedIsGrounded | apps/web/src/App.tsx:1634-2006 | so over whole runs of the driver everything on display is such a fold |
| TranscriptDriver.CatchUpLowersTheCursor | apps/web/src/App.tsx:1954-1979 | a catch-up lowers the cursor if and only if it goes through and the cursor it set out from and all its numbers are below the cursor shown |
| TranscriptDriver.CatchUpCursor | apps/web/src/App.tsx:1969-1975 | a catch-up that goes through ends at the largest of its numbers and its starting cursor |
| TranscriptDriver.CursorCanGoBack | apps/web/src/App.tsx:1976-1979 | it happens with one live batch and an empty catch-up |
| TranscriptBatches.ApplyBatch | apps/web/src/transcript-model.ts:265-284 | on objects the batch computes what it computes on values; stale and gapped batches return the input itself; no array, map, turn, step or frame the input reaches is written or shared with the result; of the payload only what a later operation touches is written |
| TranscriptBatches.RunOnCopy | apps/web/src/transcript-model.ts:274-281 | the loop edits the copy, new objects and, of the payload, nothing an operation spares; frames it took in and did not move are where the run left them |
| TranscriptBatches.ApplyAt | apps/web/src/transcript-model.ts:286-434 | after each operation later payloads still stand for what they did, out of reach of the state, and earlier ones are reached only through turns of their name |
| TranscriptBatches.SparedIsNotWritable | apps/web/src/transcript-model.ts:286-434 | an operation that does not touch what another brought writes none of its objects |
| TranscriptBatches.StaysInPlace | apps/web/src/transcript-model.ts:358-428 | appends, map and metadata operations move no step and no frame |
| TranscriptBatches.PlacedFrameIsShown | apps/web/src/transcript-model.ts:354-374 | a frame object in its place stands for the frame found there |
| TranscriptBatches.HalfABatchRuns | apps/web/src/transcript-model.ts:276-283 | a frame, a text for it and an unknown operation make a gap behind both |
| TranscriptBatches.GapExtendsPayload | apps/web/src/transcript-model.ts:354-374 | that batch returns the input state, and the text of the payload's frame has grown |
| TranscriptHeap.ApplyObject | apps/web/src/transcript-model.ts:286-434 | each operation on objects computes what it computes on values, writes only what `Writable` lists, and takes in only new objects and its payload, under turns of its name |
| TranscriptObjects.CloneState | apps/web/src/transcript-model.ts:436-450 | the copy stands for the same value and consists of new objects, arrays and maps |
| TranscriptHeap.AppendToFrame | apps/web/src/transcript-model.ts:362-376 | only frames of that name in turns of that name can be written; text is extended inside the frame object |
| TranscriptHeap.UpsertFrameObject | apps/web/src/transcript-model.ts:343-357 | the payload's frame object itself joins the step's array and is the one found there |
| TranscriptHeap.UpsertStepObject | apps/web/src/transcript-model.ts:328-342 | a step is put into the turn's array, or a gap |
| TranscriptObjects.TurnObject.PutStep | apps/web/src/transcript-model.ts:332-340 | a new step object takes over the old one's array of frames; the turn's own array is filled and sorted |
| TranscriptObjects.StateObject.PutTurn | apps/web/src/transcript-model.ts:312-325 | a new turn object takes over the old one's array of steps; the state's own array is filled and sorted |
| TranscriptObjects.StateObject.PutItem | apps/web/src/transcript-model.ts:389-397 | the payload's item itself joins the state's array |
| TranscriptObjects.StateObject.RemoveItems | apps/web/src/transcript-model.ts:400-402 | a new array holds exactly the item objects not listed; the old array is left alone |
| TranscriptHeap.RestoreSnapshot | apps/web/src/transcript-model.ts:290-310 | the new state adopts the snapshot's array of items and has new maps |
| TranscriptHeap.ApplyToCollections | apps/web/src/transcript-model.ts:377-428 | task and keyed maps are written in place, metadata is replaced; items stay untouched |
| TranscriptObjects.StateObject.SetTask | apps/web/src/transcript-model.ts:382-385 | exactly one entry of the map of tasks changes, in the map object itself |
| TranscriptObjects.StateObject.SetEntry | apps/web/src/transcript-model.ts:416-420 | exactly one entry of exactly one keyed map changes, in the map object itself |
| SecureChannel.DecimalIsInjective | crates/agent/src/crypto.rs:138 | different sequence numbers print differently |
| SecureChannel.AadBindsSequence | crates/agent/src/crypto.rs:138 | on one channel equal associated data means equal sequence numbers |
| SecureChannel.DecimalReadsBack | crates/agent/src/crypto.rs:138 | the printed number consists of digits, reads back as the number and has no leading zero |
| SecureChannel.AadBindsEverything | crates/agent/src/crypto.rs:138 | where ids and kinds are single lines equal associated data means equal id, kind and number |
| SecureChannel.AadExample | crates/agent/src/crypto.rs:138 | id, kind and number in this order, on lines of their own |
| SecureChannel.AgentChannel.DecryptFrame | crates/agent/src/crypto.rs:125-157 | binding, number, authenticity, payload and counter are checked in this order, and the counter moves only with a returned plaintext |
| SecureChannel.AgentChannel.EncryptPlain | crates/agent/src/crypto.rs:159-190 | seals under the next number and never uses one twice |
| SecureChannel.SealedFramesOpenInPlace | crates/agent/src/crypto.rs:125-190 | what was sealed is accepted if and only if its header is untouched, its number is the next one and its payload readable, and then as it was |
| BrowserRelay.BrowserRelay.OpenChannel | apps/web/src/relay.ts:152-179 | a channel is in the table from its creation |
| BrowserRelay.BrowserRelay.AcceptHandshake | apps/web/src/relay.ts:367-405 | only the channel named gets a key |
| BrowserRelay.BrowserRelay.Request | apps/web/src/relay.ts:203-245 | a closed channel never registers a request; an open one takes a fresh number and registers it |
| BrowserRelay.BrowserRelay.Timeout | apps/web/src/relay.ts:224-229 | a timer settles its request only if it is still pending |
| BrowserRelay.BrowserRelay.DiscardChannel | apps/web/src/relay.ts:583-592 | the channel leaves the table, closes and settles everything pending, once |
| BrowserRelay.BrowserRelay.OnAgentFrame | apps/web/src/relay.ts:406-478 | exactly the channel the frame names accepts it, settles one request or is discarded; all others are untouched |
| BrowserRelay.FramesAreTakenOrFatal | apps/web/src/relay.ts:406-478 | an open channel stays open if and only if the frame is for its host and kind, is the next one, opens under its key and can be read; then it is counted once, and its event, if it is one, is handed on |
| BrowserRelay.RepliesSettleTheirRequest | apps/web/src/relay.ts:457-469 | a frame taken settles at most one request, its own, as the agent said; an event settles none |
| BrowserRelay.SettleTakesOne | apps/web/src/relay.ts:458-463 | settling takes one waiting request with the id and leaves the others in order |
| BrowserRelay.DiscardRejectsEverything | apps/web/src/relay.ts:583-592 | the first discard rejects everything waiting for its reason, in order; others do nothing |
| BrowserRelay.BrowserRelay.OnSocketClose | apps/web/src/relay.ts:287-305 | the close of a replaced socket changes nothing; when the socket in use closes, every channel ever opened ends closed with nothing pending and the table is empty |
| RelayTable.BrowserConnection.OpenChannel | apps/control-plane/src/relay.ts:495-592 | which reply each request gets, in the order of the checks: limit, grant, binding, scope, nonce, agent; only an opened channel is recorded, before number 0 |
| RelayTable.OneScopeOneKind | apps/control-plane/src/relay.ts:526-541 | one scope alone admits exactly one of the three kinds, and which one |
| RelayTable.ScopesAddUp | apps/control-plane/src/relay.ts:526-541 | several scopes admit a kind if and only if one of them does alone |
| RelayTable.OnlyElevationElevates | apps/control-plane/src/relay.ts:526-541 | without an elevation scope no elevated terminal is admitted whatever else is granted, and no other kind ever is |
| RelayTable.ScopeExamples | apps/control-plane/src/relay.ts:526-541 | one scope of each kind, and a kind that it does not admit |
| RelayTable.BrowserConnection.OnFrame | apps/control-plane/src/relay.ts:558-593 | valid if and only if host, grant and kind match and the number is new; the number is recorded even if no agent is there to forward to |
| RelayTable.BrowserConnection.CloseChannel | apps/control-plane/src/relay.ts:574-578 | removes a channel only for its own host |
| RelayTable.ForwardsIncreasing | apps/control-plane/src/relay.ts:558-573 | whatever arrives, forwarded numbers strictly increase and stay on the channel's binding |
| RelayTable.ForwardsOrderedStreams | apps/control-plane/src/relay.ts:558-573 | a well-bound stream in order is forwarded whole |
| ChannelProtocol.AcceptedIsSealed | crates/agent/src/crypto.rs:138-149 | a frame that opens at a number carries the plaintext sealed at that number |
| ChannelProtocol.LinksKept | apps/control-plane/src/relay.ts:558-593 | every step of browser, relay, agent or link keeps both directions' prefix property and counters |
| ChannelProtocol.LedgerKept | apps/web/src/relay.ts:203-245 | every step keeps each registered id counted once among pending and settled |
| ChannelProtocol.AnswersKept | crates/agent/src/relay.rs:856-868 | every step keeps each reply answering one allowed request that was heard, no request answered twice |
| ChannelProtocol.EachEndHearsAPrefix | crates/agent/src/relay.rs:688-714 | in every run the plaintexts each end accepts are a prefix of those the other sealed |
| ChannelProtocol.RelayPassesTheFilter | apps/control-plane/src/relay.ts:558-593 | the relay passes on exactly a well-bound frame with a higher number, and records the number |
| ChannelProtocol.AgentTakesOrDrops | crates/agent/src/relay.rs:688-714 | the agent takes exactly a frame under its grant that opens at the next number, and drops the channel at any other and at an operation outside its scopes |
| ChannelProtocol.EventsAreDelivered | apps/web/src/relay.ts:467-469 | in every run the events handed to the page are exactly those accepted, in order, hence a prefix of those the agent emitted |
| ChannelProtocol.UndisturbedEventsArrive | apps/web/src/relay.ts:467-469 | an undisturbed event is handed to the page, once, and settles no request |
| ChannelProtocol.EmitLeaves | crates/agent/src/relay.rs:592-604 | an emitted event is sealed under the next number; an agent whose numbers have run out drops the channel |
| ChannelProtocol.TimerRejectsItsRequest | apps/web/src/relay.ts:226-228 | a timer rejects its request if that is still waiting, and nothing else |
| ChannelProtocol.UnsentRequestBlocksTheChannel | apps/web/src/relay.ts:212-243 | a request that could not be sent has used its number all the same: whatever happens, neither it nor any later one is ever heard on this channel |
| ChannelProtocol.EachRequestSettlesOnce | apps/web/src/relay.ts:203-245 | in every run a registered request is pending or settled, exactly once, and settled if the channel is closed |
| ChannelProtocol.RepliesAreGenuine | apps/web/src/relay.ts:457-466 | a request settled in the agent's name was heard as sent, and the settlement is the only reply the agent sealed for it |
| ChannelProtocol.ClosedIsFinal | apps/web/src/relay.ts:583-592 | on a closed channel nothing registers, settles or is accepted ever again |
| ChannelProtocol.DroppedIsFinal | crates/agent/src/relay.rs:495-506 | a channel the agent dropped accepts and seals nothing ever again |
| ChannelProtocol.LeavingIsFinal | apps/web/src/relay.ts:583-592 | once the agent, the relay or the browser has left, whatever happens it hears, passes on or accepts nothing more |
| ChannelProtocol.UndisturbedRequestsSucceed | apps/web/src/relay.ts:203-245 | an undisturbed request passes every check, is settled with the agent's answer and leaves the channel idle |
| Scrollback.Encode | crates/agent/src/terminal.rs:323 | a character is one to four bytes, a continuation byte exactly everywhere but first |
| Scrollback.EncodeIsShortest | crates/agent/src/terminal.rs:323 | the first byte tells the length, and the shortest form is used |
| Scrollback.EncodeReadsBack | crates/agent/src/terminal.rs:323 | the bits of the bytes are the character |
| Scrollback.CeilBoundary | crates/agent/src/terminal.rs:327 | the first character boundary at or after a position |
| Scrollback.TailIsLongest | crates/agent/src/terminal.rs:324-329 | the kept text fits and no longer suffix does |
| Scrollback.TrimIsTail | crates/agent/src/terminal.rs:325-329 | cutting bytes at the boundary is cutting whole characters |
| Scrollback.ScrollbackIsLongestSuffix | crates/agent/src/terminal.rs:317-331 | however output is split, the scrollback encodes the longest suffix of the whole history that fits 262144 bytes |
| TerminalRuns.RunKeepsTable | crates/agent/src/terminal.rs:77-399 | in every run of requests a channel owns at most one terminal; a terminal is detached if and only if it has no channel; an elevated one is only ever on the channel that opened it; each shows the longest suffix of all it printed and had not expired at the last reap |
| TerminalRuns.NoElevatedTerminalSurvives | crates/agent/src/terminal.rs:296-315 | after all channels go, exactly the terminals opened as ordinary are left, all detached |
| TerminalRuns.NothingOutlivesItsLimit | crates/agent/src/terminal.rs:347-365 | if reaps are at most D apart, then throughout the run no elevated terminal is older than 60 minutes plus D or idle for 15 plus D, and none is detached for two plus D |
| TerminalRuns.DetachedTerminalWaits | crates/agent/src/terminal.rs:267-294 | whatever happens while nobody presents its token, a detached terminal is still there if and only if its process has not exited and no reap came two minutes or more after the detach; only its scrollback changes |
| TerminalRuns.ReconnectRestoresTheTerminal | crates/agent/src/terminal.rs:143-182 | after a lost channel, a resume finds the terminal under exactly that condition, attaches it and hands over the longest suffix of all it printed, before and after the loss |
| TerminalRuns.OneMoreChannel | crates/agent/src/terminal.rs:312-314 | disconnecting one channel after others equals disconnecting them together |
| TerminalRuns.OthersAreUntouched | crates/agent/src/terminal.rs:77-365 | a request leaves every terminal as it is that it does not name, whose channel it does not name and that has not expired |
| TerminalRuns.ConcernedTerminal | crates/agent/src/terminal.rs:205-365 | what becomes of a terminal that activity, output, close, disconnect, exit or reap concern |
| TerminalRuns.OpeningOne | crates/agent/src/terminal.rs:77-141 | a terminal opens on its channel, empty and active now, if and only if the channel is free, the size from 2 to 500 and the shell starts |
| TerminalRuns.ElevatedTerminalLives | crates/agent/src/terminal.rs:347-365 | whatever happens, an elevated terminal is there if and only if neither its channel nor its process has gone and no reap found it open for 60 minutes or idle for 15, counted from its channel's last activity |
| Terminal.TerminalManager.OpenTerminal | crates/agent/src/terminal.rs:77-141 | succeeds if and only if the channel owns nothing, the size is supported and the shell starts; otherwise nothing changes |
| Terminal.TerminalManager.ResumeTerminal | crates/agent/src/terminal.rs:143-182 | succeeds if and only if the channel owns nothing and the terminal is detached, ordinary and the token its own; returns its scrollback |
| Terminal.TerminalManager.TouchTerminal | crates/agent/src/terminal.rs:205-214 | marks activity on exactly the session of the channel |
| Terminal.TerminalManager.CloseChannel | crates/agent/src/terminal.rs:245-265 | removes exactly the session of the channel |
| Terminal.TerminalManager.DisconnectChannel | crates/agent/src/terminal.rs:267-294 | an elevated terminal ends with its channel, an ordinary one is detached now |
| Terminal.TerminalManager.DisconnectAllChannels | crates/agent/src/terminal.rs:296-315 | the loop has the effect of all channels going at once |
| Terminal.TerminalManager.RouteOutput | crates/agent/src/terminal.rs:317-331 | output reaches the attached channel and is added to the scrollback, cut at a character boundary |
| Terminal.TerminalManager.ReapExpired | crates/agent/src/terminal.rs:347-365 | removes exactly the expired sessions |
| Broker.LastOfLast | crates/agent/src/broker_main.rs:410-417 | keeping the last of what was kept is keeping the last of everything |
| Broker.OutputBuffer.Push | crates/agent/src/broker_main.rs:410-417 | the buffer is the last 524288 bytes of the history and the base offset is what is missing |
| Broker.OutputBuffer.ReadFrom | crates/agent/src/broker_main.rs:250-267 | returns the history from the cursor or the base, the total as next cursor, and the flag if and only if bytes are missing |
| Broker.ReaderIsTold | crates/agent/src/broker_main.rs:250-267 | bytes received and lost add up to the cursor; the reader has the exact history if and only if no response was flagged, that is if nothing was lost |
| Broker.ReassemblesExactlyWhenInTime | crates/agent/src/terminal.rs:453-494 | the history is reassembled exactly if and only if at most 524288 bytes arrive before each poll |
| Broker.RequestWindow.ValidateFresh | crates/agent/src/broker_main.rs:292-316 | an id is accepted if and only if recent, well formed and not among the last 4096 accepted |
| Broker.RequestWindow.Evict | crates/agent/src/broker_main.rs:310-314 | queue and set forget the same oldest ids |
| Broker.NewIdIsSpaced | crates/agent/src/broker_main.rs:306-309 | equal ids stay more than 4096 acceptances apart |
| Events.MergeCommutesWithinAnEpoch | crates/agent/src/events.rs:400-432 | two cursors commute if and only if neither contradicts the other's epoch |
| Events.MergeIsLeastUpperBound | crates/agent/src/events.rs:400-432 | within an epoch merging is the componentwise least upper bound |
| Events.MergeAllIsLeastUpperBound | crates/agent/src/events.rs:400-432 | so is merging any sequence of cursors |
| Events.OrderAndRepetitionDoNotMatter | crates/agent/src/events.rs:400-432 | within an epoch the result depends only on which cursors were merged |
| Events.TranscriptNeverGoesBack | crates/agent/src/events.rs:425-431 | even across epochs the transcript position is the largest merged |
| Events.SequenceStartsAnewWithTheEpoch | crates/agent/src/events.rs:400-424 | over any cursors the epoch is the last one named, and the sequence the largest since it last changed, the cursor that changed it included, lower or missing though it be |
| Events.LowerPositionOfANewEpoch | crates/agent/src/events.rs:400-424 | position 2 of a new epoch replaces position 9 of the old one |
| Events.SessionFollowsItsEpoch | crates/agent/src/events.rs:372-432 | the same for the cursor of a session over all that commands brought for it |
| Events.Bridge.MergeCursor | crates/agent/src/events.rs:400-432 | edits field by field to the merged cursor of that session only |
| Events.Bridge.ApplyCommand | crates/agent/src/events.rs:372-398 | subscribes the pair or drops the channel everywhere, and merges the cursor it brings |
| Events.CursorIsLeastAboveAllBrought | crates/agent/src/events.rs:372-432 | after any commands that name one epoch for a session, its cursor is the least one above all cursors they brought for it |
| Events.SubscribedMeansAskedSince | crates/agent/src/events.rs:372-398 | after any commands a pair is subscribed if and only if it asked after its channel last left, and no session has an empty set |
| ToolMessages.Coalesce | apps/web/src/session-model.ts:29-69 | the single pass with an index map shows every kept message with exactly the results that belong to it, in order |
| ToolMessages.AbsorbedMeansEarlierCall | apps/web/src/session-model.ts:39-41 | a message is absorbed if and only if it is a result and an earlier call has its id |
| ToolMessages.LatestCall | apps/web/src/session-model.ts:64 | the call a result belongs to is the latest before it with its id |
| ToolMessages.LastResultWins | apps/web/src/session-model.ts:42-53 | a call shows the output of its last result and is not streaming, and nothing else of it changes but the error flag |
| ToolMessages.LastErrorFlagWins | apps/web/src/session-model.ts:42-53 | a call shows the last error flag that a result of its carries, or else its own |
| ToolMessages.ResultsByName | apps/web/src/session-model.ts:29-41 | a result is a tool message named "result" in letters of either case |
| ToolMessages.OnlyNamedCallsAbsorb | apps/web/src/session-model.ts:33-41 | messages without an id are never merged, and a result is never merged into a result |
| ToolMessages.NormalizedFields | apps/web/src/session-model.ts:54-66 | field by field what a message shows before a result is merged into it |
| ToolMessages.UntouchedWithoutResults | apps/web/src/session-model.ts:42-66 | a message that no result belongs to is shown as it is, cleaned |
| ToolMessages.OthersStayInOrder | apps/web/src/session-model.ts:33-66 | everything not absorbed is kept, in order |
| ToolMessages.LengthDropsByAbsorbed | apps/web/src/session-model.ts:29-69 | the length drops by exactly the number absorbed |
| Nonces.NonceTable.ConsumeNonce | apps/control-plane/src/database.ts:383-397 | a nonce is consumed if and only if no unexpired row has it |
| Nonces.ConsumedNonceStays | apps/control-plane/src/database.ts:383-397 | while nobody consumes a nonce again its row stays until it has expired |
| Nonces.RowStaysUntilExpiry | apps/control-plane/src/database.ts:383-397 | before its expiry the row stays as it is, whatever messages arrive |
| Nonces.SecondUseNeedsExpiry | apps/control-plane/src/database.ts:383-397 | an eligible message is let through again if and only if the row had expired |
| Nonces.VerifiesInMillis | apps/control-plane/src/crypto.ts:114-116 | a grant verifies from 15 seconds before its issue until the millisecond before its expiry |
| Nonces.FirstUsePasses | apps/control-plane/src/relay.ts:506-556 | only messages in time and well bound get past the table; the first use of a nonce does if and only if it is one |
| Nonces.GrantOpensOneChannel | apps/control-plane/src/relay.ts:506-556 | with one clock reading per message a grant opens at most one channel over a whole run, whatever else uses its nonce |
| Nonces.GrantReopensOnlyAcrossExpiry | apps/control-plane/src/crypto.ts:114-116 | with two readings it opens another only if it expires between them, and exactly then if its nonce was not used meanwhile |
| Nonces.ReopenedGrantExample | apps/control-plane/src/relay.ts:506-541 | a grant opens two channels a millisecond apart |
| Nonces.HelloReplayNeedsTheBoundary | apps/control-plane/src/relay.ts:612-623 | a copy of a hello passes again only if first use and copy are exactly 60 s before and after its timestamp, and exactly then if its nonce was not used meanwhile |
| Nonces.ReplayedHelloExample | apps/control-plane/src/relay.ts:612-623 | it happens |
| Nonces.HelloIsAcceptedOnce | apps/control-plane/src/relay.ts:612-623 | a hello used less than 60 s before its timestamp never passes again, whatever else arrives, forged hellos with its nonce included |
| RateWindow.Limiter.ConsumeRate | apps/control-plane/src/relay.ts:66-78 | counts the call in its window and admits it if and only if the window's count allows |
| RateWindow.WindowsEndInTime | apps/control-plane/src/relay.ts:66-78 | at every call its window is younger than the duration |
| RateWindow.PauseOpensAWindow | apps/control-plane/src/relay.ts:66-78 | after a pause of the whole duration a new window opens, and its first call gets through |
| RateWindow.AdmittedPerWindow | apps/control-plane/src/relay.ts:66-78 | over any calls at most the maximum is admitted for the window of the first and for each that starts behind it |
| RateWindow.WithinOneWindow | apps/control-plane/src/relay.ts:66-78 | calls of one window, the one that opens it included: at most the maximum |
| RateWindow.WindowAdmitsItsFirstCalls | apps/control-plane/src/relay.ts:66-78 | a whole window admits exactly its first calls, up to the maximum |
| RateWindow.AtMostTwiceTheMaximum | apps/control-plane/src/relay.ts:66-78 | calls in any interval shorter than the window: at most twice the maximum |
| AgentRegistry.RelayService.OnHello | apps/control-plane/src/relay.ts:300-314 | registers the connection for its host and asks the previous one to close |
| AgentRegistry.RelayService.OnHeartbeat | apps/control-plane/src/relay.ts:369-383 | records the reported login state and, unless unsupported or revoked, the host state |
| AgentRegistry.RelayService.OnClose | apps/control-plane/src/relay.ts:337-342 | unregisters only the connection that serves the host |
| AgentRegistry.RelayService.RevokeHost | apps/control-plane/src/relay.ts:227-231 | nobody serves a revoked host |
| AgentRegistry.RegisteredIsLatest | apps/control-plane/src/relay.ts:647-653 | in every run a connection is registered if and only if it is the latest to authenticate for a host never revoked and has not closed |
| AgentRegistry.ReplacedCloseChangesNothing | apps/control-plane/src/relay.ts:337-355 | closing a replaced connection changes nothing |
| AgentRegistry.StoredIsLast | apps/control-plane/src/relay.ts:300-383 | in every run the host state stored is the last one its events stored: by hello, heartbeat, close and revocation, none once it is revoked |
| AgentRegistry.RevokedStaysOffline | apps/control-plane/src/database.ts:249 | once revoked a host is stored as offline and served by nobody for good |
| AgentRegistry.HeartbeatsDoNotSupport | apps/control-plane/src/relay.ts:369-383 | a host of the wrong version stays unsupported whatever heartbeats report |
| AgentRegistry.OnlyStaleHeartbeatsLeak | apps/control-plane/src/relay.ts:369-371 | the login state shown is the serving connection's, kept by every event but a heartbeat of another connection that reports something else |
| AgentRegistry.StaleHeartbeatExample | apps/control-plane/src/relay.ts:369-371 | a replaced connection's heartbeat overwrites its successor's state |

## Left out

- TranscriptBatches.ApplyBatch: tasks, keyed values, markers, task references and metadata are values, since the code never writes one after it is made; the insertion order of maps is not captured. That a payload is untouched is stated one way: an operation that reaches it may still change nothing, for instance by repeating a text.
- Operations whose payload is missing altogether (a turn upsert without a turn, an item upsert without an item) throw in the source and have no counterpart here; missing steps, frames, tasks and snapshots do.
- Fractional offsets and ordinals, a metadata key spelled `__proto__`, and the parsing of event envelopes.
- TranscriptLog.ShowsContiguousLog: start and pages have positive cursors; what a page without a cursor does is `ResetLowersCursor`.
- The sort of mixed items: the comparator is inconsistent there, so the engine's order is a parameter and turn order is claimed for turns only.
- ChannelProtocol.EachEndHearsAPrefix: browser counters are unbounded integers, while JavaScript numbers count exactly only up to 2^53; the agent's 64-bit counters are modelled to their end.
- Real cryptography, the handshake and its signature; the cipher is ideal, a ciphertext travels only in the direction it was sealed for, and request ids never repeat.
- ChannelProtocol.EventsAreDelivered: these are the events the agent sent; the notifications of disconnection, integrity errors and host states that the page gets besides are not modelled, nor is an event handler that throws, which would close the channel.
- Connection retries, host-online waiters and host watches.
- Several channels between one browser and one agent at once: the browser's table is modelled for all its channels, the protocol theorems are per channel.
- Windows terminals, process spawning and killing; hashes of resume tokens are taken to be injective.
- Broker.ReaderIsTold: the response carries the flag; the poll loop of crates/agent/src/terminal.rs:453-494 does not read it.
- TerminalRuns.RunKeepsTable: what a terminal printed is its text after the lossy decoding of crates/agent/src/terminal.rs:591, which is not part of this model.
- Broker.OutputBuffer.ReadFrom: bytes before lossy UTF-8 decoding, which can split characters between reads.
- The broker's terminal limit and authentication-failure limit, which are checked and updated in separate critical sections.
- The fan-out of events to subscribers, subscription frames and reconnection back-off of the event bridge.
- ToolMessages.Coalesce: `cleanToolText` is a parameter, and lower-casing is that of ASCII letters.
- Nonces.HelloIsAcceptedOnce: one clock reading serves the whole hello; the table comes before the signature check, so passing it is necessary for acceptance, not sufficient, and a hello that fails the signature check uses up its nonce all the same.
- Pairing codes, host preferences, the session cache, the audit log and every HTTP route: single-row reads and writes.
