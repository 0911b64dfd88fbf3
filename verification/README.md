# quietdm, modelled and proved in Dafny

quietdm is a small daemon that carries chat messages to a Neovim frontend. This project models the parts of it that
keep state or transform text, in the form their source gives them, and proves what they promise over every input and
every run. `dafny verify dfyconfig.toml` checks all of it.

| files | what they model |
|---|---|
| `Basics`, `Model`, `Transport`, `Utf8` | shared vocabulary, the message and room records, UTF-8 as RFC 3629 defines it |
| `Memory`, `Sql`, `SqliteStore`, `StoreRefinement`, `UnboundedLog` | the two message stores, statement by statement, and why callers cannot tell them apart |
| `EventSink`, `ClientQueue` | the two concurrent protocols of the daemon as small-step transition systems with histories |
| `YamlTree`, `YamlNode`, `YamlPatch`, `YamlSettings` | the configuration editor on a heap of mutable nodes, the two patch scripts of the setup wizard, and what the files say afterwards |
| `FrontendState`, `FrontendDedup`, `FrontendRuns` | the frontend's view of the rooms, its pruned de-duplication table, and both told from the events alone |
| `Sanitize`, `SanitizeLaws` | the text sanitiser |
| `IpcFraming`, `IpcClient`, `IpcRequests`, `IpcReading`, `IpcFlags`, `IpcReplies` | the frontend's socket client: framing, request bookkeeping, the connected flag, replies, reconnects |
| `EnvFile`, `EnvFileLaws`, `Toml` | the generated `.env` and `config.toml` |
| `Session`, `SessionRuns`, `SessionBroadcasts`, `Backoff` | the session layer, what it tells the frontends and the store, reconnect delays and the connected flag |
| `CommitMessage`, `Composer`, `Screen`, `ScreenRuns`, `ScreenGuard` | the reply composers, and everything that is drawn and taken away, where, and when |

An object whose methods change it is a class with the source's fields; each method's contract equates the new contents
with a specification function of the old ones, and the lemmas over runs are about those functions. Callbacks, timers,
scheduled closures and goroutines become steps that may happen at any time, in any order. What the outside world does
(a failing transport, a refused window, the bytes a socket delivers, what a callback calls back) is a parameter that
the theorems quantify over. Fields marked `ghost`, or described as history, exist only to state what happened.

## What turned out not to hold as written

* The stores differ on one point. After "mark everything read" on a message with an empty event id, SQLite finds its
  marker and the memory store takes the empty marker for none. `NextAnswerAgreesIff` says exactly when an answer
  differs; with named events none does.
* The comment on `prune_ids` says a pruned event can never arrive again. `PruningIsInvisible` needs that assumption and
  `DiffersIffForgotten` says exactly which arrivals are treated differently without it. 5001 messages in one room are
  enough to have some (`ArrivalsForget`, `ForgottenReplayAccepted`).
* `Text` is idempotent exactly when the size cap does not cut right after a space (`IdempotentIff`, `NotIdempotent`).
* A line over the 64 KiB limit is accepted by the frontend if it arrives in one chunk and drops the link if it does not
  (`SurvivesIffFits`).
* `connected()` is documented as link up and hello acknowledged. A chunk that outlives its link can make it true
  without a link, or of the next link before that has sent anything (`StaleReadyLies`), or can keep it false by leaving
  an unfinished line in the next link's buffer (`StaleTailSwallowsReady`). `KeepsTrustIff` and `AlwaysTrustedIff` say
  exactly which chunks do harm; without stale ones the flag is right (`TimelyRunsAreTrusted`).
* An alias with a control character other than a tab makes the whole generated configuration unreadable
  (`AliasesSurvive`).
* If the transport refuses a read mark, the frontends keep an unread count the store no longer has, unless everything
  between the old and the new reading position is the user's own (`RefusedMarkSyncIff`, `RefusedMarkMisleads`).
* Reconnect delays overflow when the upper bound is 2^62 ns or more (`WaitsAsPromisedIff`).
* Level L0 is documented as nothing of ours on screen. Every step keeps it blank except exactly these (`StaysBlankIff`,
  `AlwaysBlankIff`): a failed send told at L0 (`HintAtL0`); a list for which the editor opens no window (`EntriesAtL0`); a
  cursor movement or insert mode that hides a glance beside which there is a hint, list entries, or a window that stays
  (`LevelZeroWithList`), after which no timer is left to close that (`MovingKeepsWatchIff`); a timer that clears everything
  but hints; and a clear of a window that the editor refuses to close, or of entries whose buffer is gone.
* A glance is documented to go when the cursor moves, on insert, or after its timeout. It does at L1 and stays at any
  other level (`GlanceStaysIff`, `GlanceOutlivesFloat`); at L0 there is none (`NoGlanceAtL0`).
* Panic blanks the screen exactly when the editor closes every window and the list entries still have their scratch
  buffer (`PanicBlanksIff`); otherwise the window is forgotten while open (`RefusedFloatStays`), or the entries stay in
  the quickfix list (`EntriesRemainIff`, `OrphanedEntriesStay`).
* An own message that is replayed moves the read marker back to where it stands (`AfterOwnMessage`, `ReplayRewinds`).
  Nothing is unread after an own message exactly when no message of others follows the stored one of that id
  (`OwnMessageReadsAllIff`).

## Model

| member | source | states |
|---|---|---|
| MemoryStore.Memory.constructor | internal/store/memory.go:32-37 | a new store is empty; a capacity of zero or less means 500 |
| MemoryStore.HoldsAsAsked | internal/store/memory.go:32-37 | a store asked for a positive capacity holds that many of a room's newest messages, and one asked for none holds 500 |
| MemoryStore.Memory.LogFor | internal/store/memory.go:39-46 | a room's log is created empty on first use, and no other room changes |
| MemoryStore.Memory.AppendMessage | internal/store/memory.go:50-64 | a held event id leaves the store as it was; otherwise the room's log becomes the newest `capacity` of log and message |
| MemoryStore.Memory.RecentMessages | internal/store/memory.go:67-80 | the last `limit` messages oldest first, all of them without a limit, none for an unknown room |
| MemoryStore.Memory.UnreadCount | internal/store/memory.go:85-93 | the messages of others after the read marker |
| MemoryStore.Memory.CountUnread | internal/store/memory.go:95-112 | the two loops count others' messages from just after the marked one, or from the start when it is not held |
| MemoryStore.Memory.SetReadMarker | internal/store/memory.go:116-128 | the marker becomes the event, or the newest held one for an empty id; an empty room keeps its marker |
| SqliteStore.ReverseInPlace | internal/store/sqlite.go:143-145 | the two-index loop reverses the array in place |
| SqliteStore.SQLite.AppendMessage | internal/store/sqlite.go:93-115 | INSERT OR IGNORE followed by the trimming DELETE whose subquery may be NULL |
| SqliteStore.SQLite.RecentMessages | internal/store/sqlite.go:118-147 | the limited descending query, turned round |
| SqliteStore.SQLite.UnreadCount | internal/store/sqlite.go:152-165 | rows of others above the joined marker's sequence number, or above 0 |
| SqliteStore.SQLite.SetReadMarker | internal/store/sqlite.go:169-188 | upsert of the event, of the newest row's event for an empty id, nothing in an empty room |
| StoreRefinement.AppendRefines | internal/store/sqlite.go:93-115 | appending keeps the rows of every room, in sequence order, equal to that room's memory log |
| StoreRefinement.SetMarkerRefines | internal/store/sqlite.go:169-188 | marking keeps the two marker representations in agreement |
| StoreRefinement.RecentIsTail | internal/store/sqlite.go:118-147 | the descending query with its reversal is the tail of the room's listing |
| StoreRefinement.UnreadReadsListing | internal/store/sqlite.go:152-165 | COUNT with COALESCE over a possibly missing join row counts from the marked row's place in the listing |
| StoreRefinement.UnreadAgreesIff | internal/store/sqlite.go:152-165 | the two unread counts are equal exactly when no message is hidden behind an empty marker |
| StoreRefinement.HistoriesAgree | internal/store/store_test.go:17-18 | after any sequence of operations the table and the memory logs agree |
| StoreRefinement.NextAnswerAgreesIff | internal/store/store_test.go:17-18 | after any sequence of operations, the next answer of the two stores is the same exactly outside that case |
| StoreRefinement.StoresIndistinguishable | internal/store/store_test.go:17-18 | with named events the two stores give the same answers at every step, for every capacity |
| StoreRefinement.UnnamedEventTellsThemApart | internal/store/memory.go:97 | two operations with an empty event id that the stores answer differently |
| UnboundedLog.RunTracks | internal/store/memory.go:59-62 | in every legal run the bounded log is the tail of a log that forgets nothing, with the marker at the read position |
| UnboundedLog.UnreadIsPositional | internal/store/memory.go:95-128 | unread is the number of others' messages among the last `capacity` after the read position, also when the marked message is evicted, in both stores |
| UnboundedLog.NoEmptyMarker | internal/store/sqlite.go:154-160 | legal runs never reach the situation the stores tell apart |
| EventSink.RunInv | internal/transport/sink.go:34-61 | the lock, the once and the channel agree in every reachable state |
| EventSink.SinkIsSafe | internal/transport/sink.go:34-61 | in every interleaving no send or close hits a closed channel, and received then buffered events are the accepted ones in order, each reported or about to be |
| EventSink.EverySendIsAnswered | internal/transport/sink.go:34-50 | in every interleaving each send returns once, for its own event, or is still under way |
| EventSink.RefusalsHaveCause | internal/transport/sink.go:37-49 | as long as no context ends and nobody closes, no send is refused or about to be |
| EventSink.SoloSend | internal/transport/sink.go:34-50 | left alone, a send into an open sink with room puts its event in and returns true |
| EventSink.SoloHandoff | internal/transport/sink.go:42-44 | a waiting receiver gets the event directly |
| EventSink.ContextEndsSend | internal/transport/sink.go:47-48 | a send that waits can be ended by its context and is then refused |
| EventSink.SoloRefused | internal/transport/sink.go:37-41 | a send to a stopped sink is refused and puts nothing in |
| EventSink.SoloClose | internal/transport/sink.go:52-57 | the first close gets to where it only waits for the senders inside |
| EventSink.OtherCloseWaits | internal/transport/sink.go:52-61 | any other close waits for the first to finish, or finds the channel closed |
| EventSink.ReturnedMeansClosed | internal/transport/sink.go:52-61 | when any close returns, the channel is closed |
| EventSink.DrainingProgress | internal/transport/sink.go:52-60 | while close waits for the lock, every step of a sender inside brings it nearer to leaving and no step adds work |
| EventSink.DrainingIsBounded | internal/transport/sink.go:52-60 | the senders inside take no more steps than their remaining work before they are out |
| EventSink.CloseNeverStuck | internal/transport/sink.go:54-61 | a running close can take its next step, or a sender it waits for can |
| EventSink.ClosingProgress | internal/transport/sink.go:52-60 | from the announced lock on, every step of close or of a sender inside lowers what is left to do, and no step of anyone raises it |
| EventSink.CloseFinishes | internal/transport/sink.go:52-60 | whatever else happens, close or a sender inside can take a step until close has finished, and it has after a number of such steps that is known from the start |
| EventSink.NothingAfterClose | internal/transport/sink.go:34-50 | after close has finished nothing is ever accepted again |
| ClientQueue.Client.Enqueue | internal/ipc/server.go:256-280 | undisturbed, the loop leaves the last 64 of queue and line |
| ClientQueue.RunInv | internal/ipc/server.go:256-411 | queue, shutdown and hello conditions in every reachable state of any number of producers, the reader with a ready line that may fail to encode, the writer and a shutdown |
| ClientQueue.QueueConserves | internal/ipc/server.go:256-280 | accepted lines are the removed ones followed by the queue, the queue holds at most 64, delivered lines are an in-order subsequence, every dropped line is counted |
| ClientQueue.ShutdownFlushes | internal/ipc/server.go:294-341 | if the writer ends through the flush, every line accepted before shutdown was signalled was delivered or dropped as oldest |
| ClientQueue.OnlyErrorsBeforeHello | internal/ipc/server.go:194-211 | before hello a client is queued and sent nothing but error events |
| ClientQueue.LinesAreAccountedFor | internal/ipc/server.go:194-280 | in every interleaving each broadcast and reply is accepted, under way, or met a client not greeted or closed |
| ClientQueue.GreetedMissesNothing | internal/ipc/server.go:206-210 | from hello on no broadcast is skipped, and until close no line is turned away |
| ClientQueue.SoloBroadcast | internal/ipc/server.go:194-211 | a broadcast becomes the newest line in a greeted client's queue and leaves any other client's alone |
| ClientQueue.SoloReply | internal/ipc/server.go:367-411 | a reply, ready and rejection included, becomes the newest line, and only a rejection ends the reader |
| ClientQueue.ReaderFlags | internal/ipc/server.go:397-411 | a hello greets, answered or not, and nothing else does |
| ClientQueue.SoloFlush | internal/ipc/server.go:312-356 | when the conversation has ended the writer, undisturbed, delivers all that is queued |
| ClientQueue.StoppedWriterIsSilent | internal/ipc/server.go:303-329 | after a write error, the end of the context or the flush nothing more is written |
| ClientQueue.SoloClose | internal/ipc/server.go:282-299 | close marks the client closed and signals the writer |
| ClientQueue.SoloEnqueue | internal/ipc/server.go:256-280 | the interleaving semantics, run by one producer alone, gives what Enqueue gives |
| YamlTree.FindAfterSet | internal/setup/yamlpatch.go:83-102 | looking up the path that was set gives exactly the new node |
| YamlTree.FindElsewhere | internal/setup/yamlpatch.go:83-102 | lookups on paths that are not prefixes of one another are unchanged |
| YamlTree.KeysKeepOrder | internal/setup/yamlpatch.go:113-122 | mappings on the way keep their keys in order and gain at most one entry at the end |
| YamlTree.SetAtWellFormed | internal/setup/yamlpatch.go:83-102 | mappings keep their key and value pairs |
| YamlTree.SetAtNotBlocked | internal/setup/yamlpatch.go:95-97 | the edit is only possible when no scalar or list stands in the way |
| YamlTree.SetSame | internal/setup/synapse.go:99-101 | setting what is already there changes nothing structurally |
| YamlNode.MapValue | internal/setup/yamlpatch.go:104-111 | the loop finds the value of the first pair with the key, or nothing |
| YamlNode.FindKey | internal/setup/yamlpatch.go:54-63 | the walk over the heap is lookup in the tree the nodes represent |
| YamlNode.SetMapKey | internal/setup/yamlpatch.go:113-122 | one node changes: its pair is overwritten, or a key node and the value are appended |
| YamlNode.SetPath | internal/setup/yamlpatch.go:85-102 | fails exactly on an empty path or a non-mapping on the way and then changes nothing; otherwise the heap represents the edited tree, no node is shared, and nodes outside keep their contents |
| YamlPatch.EditsStick | internal/setup/synapse.go:99-132 | every value an independent script sets is there when it ends |
| YamlPatch.PatchTwice | internal/setup/synapse.go:99-101 | running a successful script again succeeds and leaves the same tree structurally |
| YamlPatch.SynapseIndependent | internal/setup/synapse.go:102-132 | the paths of the homeserver script never lie on one another |
| YamlPatch.BridgeIndependent | internal/setup/bridge.go:28-45 | the same for the bridge script, whatever the user id |
| YamlPatch.PutsListPairs | internal/setup/synapse.go:106-124 | setting distinct keys one by one in an empty mapping lists them in order |
| YamlPatch.OneKeyNeverFails | internal/setup/synapse.go:106-124 | edits of one-element paths cannot fail, so the error branches for the database arguments are dead |
| YamlPatch.BuildArgs | internal/setup/synapse.go:106-124 | the database arguments, as a fresh mapping |
| YamlPatch.PatchSynapse | internal/setup/synapse.go:102-132 | the callback performs its script edit by edit, or stops at the first blocked one |
| YamlPatch.PatchBridge | internal/setup/bridge.go:28-45 | the same for the bridge |
| YamlSettings.SynapseSettled | internal/setup/synapse.go:102-132 | after a successful run the homeserver uses Postgres, knows the bridge and is closed to registration |
| YamlSettings.DatabaseSettled | internal/setup/synapse.go:106-124 | and connects with the wizard's user, database, host, pool and the given password |
| YamlSettings.BridgeSettled | internal/setup/bridge.go:28-45 | after a successful run the bridge has this server's domain, its administrator, and encryption on |
| FrontendState.State.HandleMessage | lua/quietdm/state.lua:98-121 | accepts exactly unseen named events and records them; the new tables in full |
| FrontendState.State.HandleRoom | lua/quietdm/state.lua:125-131 | the room's name, time and unread count; the new tables in full |
| FrontendState.State.HandleHistory | lua/quietdm/state.lua:136-148 | the room's history is replaced and counts as shown |
| FrontendState.State.PruneIds | lua/quietdm/state.lua:52-63 | the loops leave exactly the held events in seen, and the shown ones among them in glanced |
| FrontendState.State.MoveToFront | lua/quietdm/state.lua:84-92 | the room's first place in the order is moved to the front |
| FrontendState.State.NextUnglanced | lua/quietdm/state.lua:172-183 | a latest message among the rooms' newest that has not been shown, none exactly when there is none |
| FrontendDedup.RunInv | lua/quietdm/state.lua:33-148 | held events are always in seen, the order lists the rooms without repetition, and seen never exceeds the events held at the last prune by more than 5000 |
| FrontendDedup.RunRefines | lua/quietdm/state.lua:49-82 | the pruned tables refine tables that never forget |
| FrontendDedup.PruningIsInvisible | lua/quietdm/state.lua:49-82 | if no forgotten event recurs, accept and reject answers, histories, room order and glance candidates are those of tables that never forget |
| FrontendDedup.SeenIsTheRest | lua/quietdm/state.lua:52-82 | the pruned table is the full one without the events that were in no history at the last prune and were not brought back since |
| FrontendDedup.DiffersIffForgotten | lua/quietdm/state.lua:99 | after such a run an arrival is treated differently exactly if it is one of those events |
| FrontendDedup.ArrivalsForget | lua/quietdm/state.lua:52-82 | 5001 new messages in a room forget all of them but the newest ones its history holds |
| FrontendDedup.ForgottenReplayAccepted | lua/quietdm/state.lua:49-51 | for every history limit up to 5000, a run after which a replay of its first message is accepted again |
| FrontendRuns.OrderIsByActivity | lua/quietdm/state.lua:84-131 | in every run the order lists each known room once, by last accepted message, newest first, and behind them the others by first mention |
| FrontendRuns.NewestRoomIsActive | lua/quietdm/state.lua:84-92 | the room of an accepted message becomes the active one |
| FrontendRuns.HistoryIsTold | lua/quietdm/state.lua:98-148 | in every run a room's history is the daemon's last copy, or the newest of that copy and the messages accepted since |
| FrontendRuns.TablesAreTold | lua/quietdm/state.lua:98-170 | without pruning a message is new exactly if its event was never offered, and counts as shown exactly if it was shown, in a history, or the user's own |
| FrontendRuns.GlancesAreTold | lua/quietdm/state.lua:172-183 | the candidates for a glance are the rooms' newest messages the user has not seen |
| FrontendRuns.RoomsAreTold | lua/quietdm/state.lua:33-47 | in every run each room has the last name it was offered, the latest time and the last unread count |
| Utf8.EncodeIsValid | internal/sanitize/sanitize.go:116 | what is written rune by rune is well-formed and decodes to the runes written |
| Utf8.ValidIffRoundTrip | internal/sanitize/sanitize.go:108-118 | exactly the strings of the RFC 3629 grammar survive decoding and encoding |
| Utf8.StartsAreBoundaries | internal/sanitize/sanitize.go:187 | on well-formed text the bytes that are not continuation bytes are exactly the rune boundaries |
| Sanitize.StripEmoji | internal/sanitize/sanitize.go:105-119 | the loop folds each decoded rune, invalid bytes included |
| Sanitize.Collapse | internal/sanitize/sanitize.go:153-173 | the loop with its pending-space flag writes the words of the text joined by single spaces |
| Sanitize.TruncateBytes | internal/sanitize/sanitize.go:176-185 | stops at the last byte within the limit that starts a rune; on well-formed text, the longest rune-aligned prefix |
| Sanitize.CleanText | internal/sanitize/sanitize.go:63-76 | strip, collapse and cap, with 8192 for a zero cap and no cap for a negative one |
| Sanitize.CleanMessage | internal/sanitize/sanitize.go:80-101 | the placeholder of a kind that is not text, otherwise the cleaned body; the rest of the message is kept |
| SanitizeLaws.FitsIsLongest | internal/sanitize/sanitize.go:175-185 | the kept prefix is well-formed, none longer within the limit is, and at most three bytes go unused |
| SanitizeLaws.WordsKept | internal/sanitize/sanitize.go:150-173 | collapsing keeps every word in order |
| SanitizeLaws.StrippedHasNoEmoji | internal/sanitize/sanitize.go:103-148 | no rune of the stripped ranges is left, nor brought in by a replacement |
| SanitizeLaws.StrippingNothing | internal/sanitize/sanitize.go:103-119 | text without emoji passes unchanged |
| SanitizeLaws.TextIsSafe | internal/sanitize/sanitize.go:62-76 | for every input: well-formed, within the cap, no control rune, no leading or double space, no emoji when stripping |
| SanitizeLaws.TextTwice | internal/sanitize/sanitize.go:62-76 | a second pass removes at most one trailing space and a third changes nothing |
| SanitizeLaws.IdempotentIff | internal/sanitize/sanitize.go:68-74 | a second pass changes nothing exactly when the cap does not cut right after a space |
| SanitizeLaws.NotIdempotent | internal/sanitize/sanitize.go:68-74 | an input on which it does |
| SanitizeLaws.CapAsConfigured | internal/sanitize/sanitize.go:68-74 | 8192 bytes without a cap, everything with a negative one, at most three bytes below a positive one |
| SanitizeLaws.FacesReadAs | internal/sanitize/sanitize.go:30-59 | faces read as their ASCII ancestors |
| SanitizeLaws.SignsReadAs | internal/sanitize/sanitize.go:30-59 | and so do signs |
| SanitizeLaws.ModifiersGo | internal/sanitize/sanitize_test.go:18-20 | a sign with a modifier folds to the sign alone |
| SanitizeLaws.PictureReads | internal/sanitize/sanitize.go:80-101 | the placeholder of a picture, as its bytes |
| SanitizeLaws.VoiceReads | internal/sanitize/sanitize.go:80-101 | of a voice message |
| SanitizeLaws.StickerReads | internal/sanitize/sanitize.go:80-101 | of a sticker |
| SanitizeLaws.AttachmentReads | internal/sanitize/sanitize.go:80-101 | of any other attachment |
| SanitizeLaws.BodyIsSafe | internal/sanitize/sanitize.go:78-101 | every message body becomes one safe line and nothing else in the message changes |
| IpcFraming.ChunksDoNotMatter | lua/quietdm/ipc.lua:205-228 | lines that fit come out the same, with the same remainder, however the stream is cut |
| IpcFraming.SurvivesIffFits | lua/quietdm/ipc.lua:223-227 | a stream survives every way of cutting it exactly when all its lines fit |
| IpcFraming.ReadsBackWhatWasSent | internal/ipc/server.go:213-223 | the frontend reads exactly the events the daemon could encode, in order, with nothing left over |
| IpcClient.Client.Send | lua/quietdm/ipc.lua:150-176 | a request gets the next id and waits for its reply if it was written, for its error otherwise |
| IpcClient.Client.Dispatch | lua/quietdm/ipc.lua:178-201 | ready sets the flags, a pending reply is answered once, then callbacks and handlers act |
| IpcClient.Client.Consume | lua/quietdm/ipc.lua:205-228 | the loop takes line after line off the buffer while callbacks may change everything else, then checks the limit |
| IpcClient.Client.ClosePipe | lua/quietdm/ipc.lua:83-98 | buffer and flags are reset and every pending request gets its error scheduled |
| IpcClient.Client.Retry | lua/quietdm/ipc.lua:103-116 | if wanted, the next delay of 1, 2, 4, 8, 16, 30 seconds is armed |
| IpcClient.Client.Start | lua/quietdm/ipc.lua:266-274 | wanted, attempts reset, and a link unless there is one |
| IpcClient.Client.Stop | lua/quietdm/ipc.lua:277-285 | no link, no timer, and pending requests given up rather than failed |
| IpcClient.Client.RunFailure | lua/quietdm/ipc.lua:70-81 | a scheduled error reply reaches the callback of its own request |
| IpcRequests.DecimalReadsBack | lua/quietdm/ipc.lua:153-155 | distinct request numbers have distinct ids |
| IpcRequests.RunInv | lua/quietdm/ipc.lua:70-285 | the bookkeeping invariant over every run, with stale closures and re-entrant callbacks |
| IpcRequests.EveryRequestHasOneFate | lua/quietdm/ipc.lua:146-201 | each id is pending, scheduled to fail, called back or given up, and only one of them; nothing is pending without a link; a wanted client has a link or a reconnect armed |
| IpcRequests.NoSecondCall | lua/quietdm/ipc.lua:188-195 | no callback runs twice, and each runs for the request it was given with |
| IpcRequests.IdsAreNeverReused | lua/quietdm/ipc.lua:152-156 | the next id is new in every later state, and old ids keep their callbacks |
| IpcRequests.AbandonedStaysSilent | lua/quietdm/ipc.lua:280-284 | a request given up by stop is never called back |
| IpcRequests.CloseSettlesAll | lua/quietdm/ipc.lua:83-98 | a lost link schedules an error for every waiting caller, a stop for none |
| IpcReading.TakesLines | lua/quietdm/ipc.lua:205-222 | whatever callbacks do, the stateful loop takes exactly the non-empty complete lines, up to the one whose callback stops the client |
| IpcReading.ReadsTheDaemon | lua/quietdm/ipc.lua:205-228 | the client takes exactly what the daemon encoded, whatever the chunks and whatever callbacks do short of closing the link |
| IpcFlags.TimelyRunsAreTrusted | lua/quietdm/ipc.lua:21 | while no chunk outlives its link, connected means that there is a link whose own bytes hold its ready, and the buffer is the unfinished line of those bytes |
| IpcFlags.KeepsTrustIff | lua/quietdm/ipc.lua:205-228 | every step, with whatever callbacks, keeps that true, except exactly a stale chunk that is not cut off by a stop or an overlong line and brings a ready to a link that is not connected, or changes the unfinished line in the buffer |
| IpcFlags.AlwaysTrustedIff | lua/quietdm/ipc.lua:205-228 | in every run it is true all along exactly if no such chunk is consumed |
| IpcFlags.StaleReadyLies | lua/quietdm/ipc.lua:256 | one that leaves the client connected to nothing, and one that leaves it connected to a link that has sent nothing |
| IpcFlags.StaleTailSwallowsReady | lua/quietdm/ipc.lua:256 | one whose unfinished line swallows the ready of the present link, which is then not connected |
| IpcReplies.SentIff | lua/quietdm/ipc.lua:122-176 | a request waits for its reply exactly if there is a link that was acknowledged and the command encodes; otherwise its error is scheduled |
| IpcReplies.EveryRequestIsNumbered | lua/quietdm/ipc.lua:150-156 | of the actions callbacks take in a row each request gets its number |
| IpcReplies.ReplyReachesCaller | lua/quietdm/ipc.lua:150-201 | the answer to a written request runs its own callback, once |
| IpcReplies.FailureReachesCaller | lua/quietdm/ipc.lua:163-175 | a request that could not be written runs its own callback with the error, once |
| IpcReplies.EventArrives | lua/quietdm/ipc.lua:178-201 | a ready sets connected and the daemon's own flag and starts the delays again |
| IpcReplies.StopIsFinal | lua/quietdm/ipc.lua:277-285 | after a stop there is no link and no reconnect ahead until somebody starts the client, whatever was still scheduled |
| IpcReplies.ReconnectsBackOff | lua/quietdm/ipc.lua:103-116 | the n-th reconnect in a row waits 2^n seconds, at most 30 |
| EnvFile.ParseEnvVar | internal/setup/synapse.go:256-264 | the value of the first line that assigns the key |
| EnvFile.EnsureEnvVar | internal/setup/synapse.go:236-254 | keeps a non-empty value, fills an empty one in place, appends otherwise |
| EnvFile.MaterializeEnv | internal/setup/synapse.go:38-70 | the password kept or generated, user and group pinned, the file written only when it changes |
| EnvFileLaws.EditedLines | internal/setup/synapse.go:229-254 | every line but at most one is kept, or one is added at the end |
| EnvFileLaws.ReadsBack | internal/setup/synapse.go:229-254 | afterwards the variable reads as its earlier non-empty value, or else as the new one |
| EnvFileLaws.OthersKept | internal/setup/synapse.go:229-254 | every other variable reads as before |
| EnvFileLaws.CountGrowsToOne | internal/setup/synapse.go:230-235 | assignments of the key grow from none to one and never further |
| EnvFileLaws.EnsureIdempotent | internal/setup/synapse.go:229-254 | doing it twice is doing it once |
| EnvFileLaws.SecondRunChangesNothing | internal/setup/synapse.go:25-28 | a later run, with any other random number and user, returns the same password and leaves the file alone |
| EnvFileLaws.EachReadsAsItsOwn | internal/setup/synapse.go:38-70 | password, user and group each read as the file had them, or as the new password and the invoking user's ids |
| Toml.ReadsBack | internal/setup/writeconfig.go:50-53 | reading an escaped string as a TOML basic string gives it back, up to the closing quote written after it, exactly when it has no control character but tabs |
| Toml.EscapeInjective | internal/setup/writeconfig.go:50-53 | escaping never makes two strings one |
| Toml.EscapeAliases | internal/setup/writeconfig.go:33-36 | the loop keeps one entry for every alias |
| Toml.AliasesSurvive | internal/setup/templates/config.toml.tmpl:29-31 | a reader gets every alias back and no other, in whatever order they are written, exactly when none holds a forbidden character |
| Session.Session.Ingest | internal/session/session.go:117-146 | the message normalised, stored, noted in its room, marked read if own, and broadcast with the room |
| Session.Session.EnsureRoomLocked | internal/session/session.go:150-164 | a new room is listed last; an old one only gains a missing name |
| Session.Session.MarkRead | internal/session/session.go:198-211 | the store's marker moves first; the room is broadcast only if the transport agrees |
| Session.Session.Rooms | internal/session/session.go:222-237 | every room in order, with its unread count |
| Session.Session.History | internal/session/session.go:214-219 | unknown rooms are refused |
| SessionRuns.RunReflects | internal/session/session.go:104-164 | order is order of first mention, display the first non-empty name offered, last timestamp the largest ingested, connected the last flag, in every run |
| SessionRuns.OrderListsRooms | internal/session/session.go:150-164 | the list names every known room exactly once |
| SessionRuns.RunInSync | internal/session/session.go:140-145 | while the transport accepts read marks, the room broadcast last carries the store's unread count |
| SessionRuns.RefusedMarkSyncIff | internal/session/session.go:199-204 | after a refused mark it still does exactly when every message between the old and the new reading position is the user's own |
| SessionRuns.RefusedMarkMisleads | internal/session/session.go:199-204 | a run in which it does not |
| SessionRuns.AfterOwnMessage | internal/session/session.go:135-138 | after an own message the unread ones are the others' messages after the stored one of that id |
| SessionRuns.OwnMessageReadsAllIff | internal/session/session.go:135-138 | nothing is unread after an own message exactly when nothing of others follows the copy held before it, if any |
| SessionRuns.ReplayRewinds | internal/session/session.go:135-138 | a run in which a replayed own message moves the marker back and makes a read message unread |
| SessionRuns.FreshOwnMessageReadsAll | internal/session/session.go:135-138 | after a fresh own message nothing is unread |
| SessionRuns.RunPresentable | internal/session/session.go:117-122 | nothing raw is stored or broadcast: bodies are safe lines, kinds set, names by the alias rules |
| SessionBroadcasts.FrontendsAreTold | internal/session/session.go:117-146 | in every run the frontends are told every message that arrived, each directly followed by its room, and the rooms of accepted read marks, in order and nothing else |
| SessionBroadcasts.EveryMessageIsBroadcast | internal/session/session.go:140-141 | the messages broadcast are the normalised messages that arrived, in order |
| SessionBroadcasts.RoomFollowsMessage | internal/session/session.go:140-145 | each message is followed directly by its own room |
| SessionBroadcasts.StoreIsTold | internal/session/session.go:117-138 | the session's store is the history of stores in which every message is appended, own ones and marks are marked |
| SessionBroadcasts.NamesShown | internal/session/session.go:166-187 | a user appears under the given alias, or the part of the id before the server |
| SessionBroadcasts.KindsShown | internal/session/session.go:117-122 | a message without a kind is text, text is sanitised, other kinds get their placeholder |
| Backoff.Normalised | internal/transport/matrix.go:104-109 | bounds come out positive and ordered, and legal ones unchanged |
| Backoff.WaitDoubles | internal/transport/matrix.go:183-187 | the k-th delay is min(Min 2^k, Max) for Max below 2^62 ns |
| Backoff.WaitsAsPromisedIff | internal/transport/matrix.go:183-187 | all delays are as promised exactly then |
| Backoff.Matrix.OnFailedSync | internal/transport/matrix.go:410-422 | the delay for one failed sync, or giving up on a rejected token |
| Backoff.Matrix.AfterAttempt | internal/transport/matrix.go:168-186 | the run loop's turn after an attempt |
| Backoff.RunInv | internal/transport/matrix.go:163-187 | both delays follow the failures in a row; emitted flags alternate from true and end with the present one |
| Backoff.DelaysAreExponential | internal/transport/matrix.go:408-422 | the delay after k failures in a row, in every run; success starts again from Min, and exactly a rejected token ends the retries |
| Backoff.DrainedFlagAgrees | internal/session/session.go:104-109 | once all events are handled the session's flag is the transport's |
| CommitMessage.BodyIsOneLine | lua/quietdm/composers/gitcommit.lua:66-78 | a reply of many lines goes out as one, empty exactly when all were blank |
| CommitMessage.BodyKeepsWords | lua/quietdm/composers/gitcommit.lua:66-78 | no word is lost, cut, joined or moved, and the kept lines stand one space apart |
| CommitMessage.ComposeBody | lua/quietdm/composers/gitcommit.lua:70-77 | the loop keeps the trimmed non-blank lines, joined by spaces |
| Composer.Composer.Open | lua/quietdm/composers/gitcommit.lua:25-104 | a new generation, the old window closed, then a window or an immediate cancel |
| Composer.Composer.Finish | lua/quietdm/composers/prompt.lua:54-67 | a callback of another generation does nothing; otherwise one outcome |
| Composer.Composer.FinishCommit | lua/quietdm/composers/gitcommit.lua:60-90 | the same, with the buffer's text if it is sent and still there |
| Composer.Composer.Close | lua/quietdm/composers/gitcommit.lua:106-109 | a new generation and no window |
| Composer.FiredInVain | lua/quietdm/composers/gitcommit.lua:97-102 | callbacks run by closing the window do nothing |
| Composer.RunInv | lua/quietdm/composers/gitcommit.lua:25-116 | only the newest callback can count, and it does exactly while its open is awaited |
| Composer.OutcomesAreAwaited | lua/quietdm/composers/prompt.lua:54-67 | no outcome after a close or a newer open |
| Composer.OneOutcomeEach | lua/quietdm/composers/prompt.lua:54-67 | at most one submit or cancel for each open |
| Composer.AwaitedSubmits | lua/quietdm/composers/prompt.lua:60-66 | text given to the awaited window is submitted, to its own caller |
| Composer.AwaitedCancels | lua/quietdm/composers/prompt.lua:54-67 | an awaited window closed without text cancels its own open if that came with a cancel function |
| Composer.RefusedWindowCancels | lua/quietdm/composers/prompt.lua:37-51 | so does a window that could not be opened |
| Screen.Frontend.RenderBlame | lua/quietdm/renderers/blame.lua:43-47 | the old glance goes and the new mark is remembered |
| Screen.Frontend.ClearBlame | lua/quietdm/renderers/blame.lua:54-60 | the one remembered mark goes |
| Screen.Frontend.ClearFloat | lua/quietdm/renderers/float.lua:33-38 | the one remembered window goes, or stays open and forgotten if the editor refuses |
| Screen.Frontend.ClearList | lua/quietdm/renderers/quickfix.lua:92-104 | the list's window goes or is forgotten open, and its entries go if their buffer is still there |
| Screen.Frontend.Clear | lua/quietdm/level.lua:61-71 | all three renderers cleared, both timers stopped, level L0 |
| Screen.Frontend.ShowGlance | lua/quietdm/level.lua:74-100 | a glance only where the guard allows it and there is something new |
| Screen.Frontend.HideGlance | lua/quietdm/level.lua:104-114 | only at L1: the glance goes, its timer stops, level L0 |
| Screen.Frontend.Read | lua/quietdm/level.lua:117-145 | a float on request, unless silenced or excluded |
| Screen.Frontend.Panorama | lua/quietdm/level.lua:148-177 | a list on request, unless silenced or excluded; if the editor opens no window the entries are up and the level stays |
| Screen.Frontend.SendFailed | lua/quietdm/init.lua:201-219 | a hint of its own mark where the guard allows it |
| Screen.Frontend.Silence | lua/quietdm/guard.lua:26-31 | silent until the given minutes from now, and everything cleared |
| Screen.Frontend.Panic | lua/quietdm/init.lua:229-233 | cleared, silenced and cleared again |
| ScreenRuns.RunInv | lua/quietdm/level.lua:61-189 | each renderer owns what it drew unless the editor refused to close it, hints are nobody's glance, and silence means a swept screen, in every run |
| ScreenRuns.SilentMeansSwept | lua/quietdm/guard.lua:38-106 | whatever fires while silenced, no mark is on screen, every window is one the editor refused to close, and entries are up only without their buffer |
| ScreenRuns.SilentMeansBlank | lua/quietdm/guard.lua:38-106 | where the editor closes what it is asked to and nobody deletes the scratch buffer, no mark, float, list window or list entry is on screen while silenced |
| ScreenRuns.PanicBlanksIff | lua/quietdm/init.lua:228-233 | panic leaves nothing on screen exactly when every open window closes and the entries have their buffer |
| ScreenRuns.PanicHolds | lua/quietdm/init.lua:228-233 | the same after every run, and a blank screen then stays blank until the silence runs out, whatever fires |
| ScreenRuns.EntriesRemainIff | lua/quietdm/renderers/quickfix.lua:97-103 | clearing leaves list entries exactly when they were up and their buffer was gone |
| ScreenRuns.OrphanedEntriesStay | lua/quietdm/renderers/quickfix.lua:97-103 | a run in which panic leaves them |
| ScreenRuns.RefusedFloatStays | lua/quietdm/renderers/float.lua:34-37 | a run in which panic leaves a float |
| ScreenRuns.AtMostOneEach | lua/quietdm/renderers/blame.lua:43-47 | never two glances, and never two floats or two list windows among those not refused |
| ScreenRuns.HidingKeepsTheRest | lua/quietdm/renderers/blame.lua:50-60 | hiding the glance keeps every hint, window and list entry |
| ScreenRuns.ExpiryKeepsTheRest | lua/quietdm/init.lua:211-218 | a hint's timer removes at most that hint |
| ScreenRuns.StaysBlankIff | lua/quietdm/level.lua:61-189 | every step keeps L0 a blank screen, except exactly a hint or entries put up there, hiding a glance that was not alone, and a clear that leaves refused windows, orphaned entries or, by a timer, hints |
| ScreenRuns.AlwaysBlankIff | lua/quietdm/level.lua:61-189 | in every run L0 is blank all along exactly if no such step is taken |
| ScreenRuns.HintAtL0 | lua/quietdm/init.lua:201-210 | a failed send puts a hint on the screen at L0 |
| ScreenRuns.EntriesAtL0 | lua/quietdm/renderers/quickfix.lua:67-70 | a list that gets no window leaves its entries at L0 |
| ScreenRuns.StaysQuietIff | lua/quietdm/level.lua:61-189 | the same for floats and list windows alone, whatever hints and entries there are |
| ScreenRuns.GlanceStaysIff | lua/quietdm/level.lua:93-114 | moving, typing and the timeout take the glance away exactly at L1 |
| ScreenRuns.NoGlanceAtL0 | lua/quietdm/level.lua:61-114 | in every run L0 shows no glance |
| ScreenRuns.GlanceOutlivesFloat | lua/quietdm/level.lua:104-107 | a run in which the moved cursor closes the float and leaves the glance |
| ScreenGuard.GlanceShownIff | lua/quietdm/guard.lua:38-106 | a glance appears exactly where the user is undisturbed and something is new, in that buffer, at L1 |
| ScreenGuard.HintShownIff | lua/quietdm/init.lua:201-210 | a hint appears exactly where the user is undisturbed |
| ScreenGuard.FloatShownIff | lua/quietdm/level.lua:117-145 | a float appears exactly on request, unsilenced, outside excluded buffers, with something to read |
| ScreenGuard.ListShownIff | lua/quietdm/level.lua:148-177 | entries go up exactly on such a request, and the level follows unless no window opens |
| ScreenGuard.NothingElseDraws | lua/quietdm/level.lua:61-189 | no other step puts anything on the screen |
| ScreenGuard.EverythingIsTimed | lua/quietdm/level.lua:93-189 | in every run a glance at L1, a float or list level and each hint have a timer ahead, and none runs that was configured away |
| ScreenGuard.ClearingDisarms | lua/quietdm/level.lua:61-71 | clearing leaves no timer |
| ScreenRuns.MovingKeepsWatchIff | lua/quietdm/level.lua:179-189 | moving the cursor keeps the idle timer armed over open windows exactly when every window is a float that closes by itself (ctx.lua:124-126) or the level is L2 or L3 |
| ScreenRuns.LevelZeroWithList | lua/quietdm/level.lua:104-114 | three steps that end at L0 with the list on screen and no timer |

## Left out

- Failing databases, disks and JSON encoders: the stores never fail, and a value that does not encode is a parameter.
- The SQL engine, YAML, TOML and JSON parsers and the template engine, beyond the operations modelled. The TOML reader
  has the one-letter escapes; `\u` and `\U`, which the escaper never writes, are errors to it.
- Shared rows: the SQL table is kept in key order, and each statement is one atomic step, as the single connection makes it.
- YAML alias and anchor nodes: the trees are alias-free, and values handed to the editor are disjoint from the tree.
- Real time: write and shutdown deadlines are steps that may fail at any moment, delays are numbers, the clock never
  goes back, timers may fire late or after they were stopped.
- Fairness and liveness against a daemon, homeserver or scheduler that never answers.
- EventSink.CloseFinishes: gives termination of close under any scheduler that keeps running enabled steps of close and of
  the senders inside; that assumption itself is not modelled.
- ClientQueue.RunInv: one client; the server's table of clients and the other clients do not interact with its queue.
- Go's integer widths except for durations: counters, timestamps and sequence numbers do not wrap.
- Room state is kept by value in the session and the frontend; the records behind it are not shared in the source.
- SessionRuns.RunInSync: one event or command at a time on the memory store; interleavings between the session's locks are not modelled.
- IpcReading.ReadsTheDaemon: for callbacks that do not stop the client while it reads; TakesLines says what is taken when one does.
- The hello line and its write errors, which change nothing in the modelled state; what the daemon does with a request.
- Opening or closing a composer from within the callbacks of a window that is just closing: only finish callbacks re-enter.
- The default cmdline composer, the second glance renderer, notifiers, highlights, the registry and the log ring.
- ScreenRuns.SilentMeansBlank: composer windows are not part of the screen here. A reply asks no guard, so a composer the
  user opens while silenced, or at L0, is on screen until it is finished or everything is cleared.
- A failing clear of the quickfix list itself, and the key or event that closes a window, which is a step at any time.
- Mark, window and buffer ids are never used again by the editor.
- Reconfiguration during a run: the silence, the limits and the renderers are fixed by one setup.
- Docker, HTTP polling, Matrix calls, encryption keys, file permissions, sockets: outside the model.
- Configuration merging and path rules, the token file, message kinds of the transport, the mock transport: they would
  only add branch-by-branch facts.
- EnvFile.Assigned: text is a sequence of characters, so invalid UTF-8 in the file is not represented.
