# A verified model of the WhatsApp bridge

This project models the parts of a Matrix–WhatsApp bridge that carry state across calls, goroutines or
processes, and proves what they keep. `dafny verify dfyconfig.toml` checks all of it.

| file | what it models |
|---|---|
| `HistorySyncLoop.dfy` | the two history sync goroutines, their timer, flag, wakeup channel and durable queue, as a transition system over program counters |
| `HistorySyncTraces.dfy` | what a whole run of these loops does with payloads, notifications, wakeups and rounds of portals |
| `HistorySyncProgress.dfy` | that these loops get on: a bound on the moves of every run, and where a run can rest |
| `PortalCreation.dfy` | the portal-creation loop with its retries, WaitGroup and event handlers, likewise |
| `PortalOutcomes.dfy` | what that loop does with each conversation, told by the answers of `getChatInfo` |
| `HistoryTables.dfy`, `HistorySyncStorage.dfy` | the conversation and message tables as values, the upsert and the insert, and storing a history sync |
| `HistoryRows.dfy` | what storing one payload leaves in the tables, told by its fields and messages |
| `RecentConversations.dfy` | which conversations still need a portal |
| `BackfillPages.dfy` | the paging rules: cutting a page, following the cursor, deleting after a page |
| `HistoryPages.dfy` | requests, responses and whole runs of responses |
| `HistoryStore.dfy` | the same tables as an object that the queries and the handler update |
| `Transducers.dfy` | machines that read a sequence and write one, and when a reader follows a writer |
| `TextBlocks.dfy`, `TextFences.dfy` | WhatsApp text to HTML: the list machine, the code-fence splitter, and an HTML reader to judge them by |
| `Decimals.dfy`, `Jids.dfy`, `CompactIDs.dfy`, `MediaIDs.dfy`, `BridgeIDs.dfy` | the identifier codecs |
| `MediaLayouts.dfy` | which bytes these identifiers consist of |
| `MessageKeys.dfy` | building and resolving relative message keys |
| `DirectMedia.dfy`, `DirectMediaCalls.dfy` | concurrent media retry requests, as a transition system, and how each call of it ends |
| `DisappearingTimer.dfy` | the disappearing-message setting as a timestamped register |
| `Polls.dfy` | Matrix polls: option map, option table, votes in both directions |
| `MediaEditCache.dfy` | the media edit cache |
| `PortalMigration.dfy` | the deletion of LID portals |
| `Wrappers.dfy` | Option and Result |

## What the proofs found

- The selective delete after a page takes the oldest timestamp that was read before the cut as its inclusive
  lower bound, so every page that is cut deletes rows it did not return (`BackfillPages.LossLaw` says exactly
  when; `SelectiveDeleteLosesRow` is an instance). Reading alone loses nothing.
- Backward pagination can come to an end if and only if no timestamp has more rows than `Count`
  (`BackfillPages.CompletesIffTiesFit`, `TwoTiesNeverComplete`).
- After a `GetNext` error nothing re-wakes the main loop, so unless a wakeup is in the channel or on its way the
  queue stands until the next notification (`HistorySyncLoop.GetNextErrorUnattended`, `GetNextErrorStallsQueue`).
- A notification whose download or storage fails is tried again at once and without pause. Apart from what comes
  from outside, that is all that can keep the loops moving for ever (`HistorySyncProgress.MovesAreBounded`).
- A conversation stored by an earlier run is queried at the start of a later one only if the flag that was saved
  is up. It is set at login (pkg/connector/login.go:352) and cleared after the first round of portals
  (pkg/connector/backfill.go:420), so a payload stored after that and cut off by a restart before the timer ran
  out waits until new history comes (`HistorySyncLoop.LeftoverNeedsFlag`, `LeftoverCanWait`).
- Setting messages converge exactly as `DisappearingTimer.OrderMattersUnlessConvergent` says. One without a
  timestamp sets the time of the setting back to zero, so that older settings win again; two settings with one
  timestamp do not converge.
- "After the first response nobody asks again" does not hold: a request can still be sent exactly as long as none
  has been (`DirectMedia.CanStillSendIffNoneSent`, `AnswerBeforeRequest`).
- A waiter reads the path twice without the lock. It leaves with a path the phone sent for the message. That can
  be an empty one, but only after the phone reported success without a path for that message
  (`DirectMedia.WaitersLearnFromPhone`, `BlankEmptiesPath`, `CallerLeavesWithoutPath`).
- When two options of a Matrix poll share an ID, the poll is sent but its options are never stored; that is
  only logged, and every vote on it is sent empty (`Polls.PollVotesRoundTrip`).
- A backward request for history with neither a cursor nor an anchor gets a response that is marked as forward
  (`HistoryPages.ForwardFlag`).
- The migration keeps the phone number chat of every LID chat it deletes, unless the stored number itself reads
  as a LID with a number (`PortalMigration.SurvivesUnlessKnownLID`).

## How things are modelled

- Concurrency: one step is one atomic action on something shared; runs are arbitrary sequences of steps.
  Timers follow Go 1.23 and later (the module requires 1.24): no stale tick is left after Stop or Reset.
- Databases: a table is a map from its primary key; a transaction is one step; which calls fail is a
  parameter. The order of rows with equal sort keys is left open and may differ on each query, and so is where
  NULL sorts. The `bridge_id` column and `inserted_time` are left out.
- The stored timestamp of a message is taken to be the one in its data. The cursor is an integer, not its text.
- Text: positions count characters, where the source counts bytes of UTF-8; an ASCII fence is found at the
  same places. Inline formatting of a line is not interpreted. The list rules used to judge the output are
  those of sections 4.4.5 to 4.4.8 of the HTML Living Standard.
- Identifiers: a character of an identifier stands for a byte. Printing and parsing of JIDs is whatsmeow code
  that is not part of the repository; `Jids.dfy` models the form `user@server` with an optional `:device`.
  The server names (`s.whatsapp.net`, `g.us`, `lid`, `bot`, `msgr`, `c.us`) are those of that library.
- `CompactIDs.CompactJID` has no value for a numeric user with a device: that branch (pkg/waid/mediaid.go:201-202)
  writes past a slice of length one. All callers remove the device first. `MediaIDs.ParseMediaID` requires a
  non-empty ID, as indexing its first byte does.
- The LID mappings of an account are maps between users; a lookup that fails counts as not found.
- SHA-256 is an arbitrary function from strings to hashes of 32 characters.

## Model

| member | source | states |
|---|---|---|
| `HistorySyncLoop.EveryRunIsSafe` | pkg/connector/backfill.go:32-97 | In every state of every run of the two goroutines, with any number of producers: a conversation of a RECENT or FULL payload stored after the last portal query began, or left over from an earlier run whose flag is still up, has another query coming (no lost dispatch); a queued notification has someone coming for it unless GetNext itself failed (no lost wakeup); the pending flag up with the main loop at rest means the timer is running; every accepted notification is in exactly one queue row or delivered, never both |
| `HistorySyncLoop.QuietMeansDone` | pkg/connector/backfill.go:51-114 | When nothing is left that could move either loop, a portal query has begun after every dispatchable conversation was stored, those of an earlier run included if its flag was up, and, if no GetNext error is outstanding, every notification ever accepted has been stored and the queue is empty |
| `HistorySyncLoop.LeftoverNeedsFlag` | pkg/connector/backfill.go:36-41 | What an earlier run stored is dispatched at the start exactly if the saved flag is up and the login is not new: otherwise the timer is stopped |
| `HistorySyncLoop.LeftoverCanWait` | pkg/connector/backfill.go:36-41 | And that happens: a run in which both loops are idle, with the timer stopped, and a conversation of an earlier run waits |
| `HistorySyncLoop.IdleDispatchFollows` | pkg/connector/backfill.go:51-58 | With both loops idle and a dispatch outstanding, only the timer has to run out for the portal query to happen |
| `HistorySyncLoop.GetNextErrorUnattended` | pkg/connector/backfill.go:71-85 | A GetNext that fails leaves the queue unattended if and only if the table has rows, no wakeup is in the channel and no producer is between Put and its send |
| `HistorySyncLoop.GetNextErrorStallsQueue` | pkg/connector/backfill.go:74-75 | That happens: a run from a start state in which one GetNext error leaves a row in the queue with both loops idle, the timer stopped and no wakeup left |
| `HistorySyncLoop.StepKeepsInvariant` | pkg/connector/backfill.go:32-144 | Each atomic step of the main loop, the creator loop or the environment keeps the whole invariant |
| `HistorySyncLoop.MainKeepsQueue` | pkg/connector/wadb/hsnotif.go:50-78 | Main-loop steps keep the queue accounts and the row that is held during a download |
| `HistorySyncLoop.MainKeepsWakeup` | pkg/connector/backfill.go:71-85 | Main-loop steps never leave a queue with rows unattended, except by a GetNext error |
| `HistorySyncLoop.EnvKeepsInvariant` | pkg/connector/backfill.go:99-114 | A producer between Put and its wakeup send, a new payload, the timer running out and cancellation all keep the invariant |
| `HistorySyncTraces.NothingReceivedIsLost` | pkg/connector/backfill.go:65-70 | In every run, the conversations come to, in order, and then those still to come of the payload in hand and of the channel, are those that were to come at the start and then those of the payloads pushed: every conversation of every payload of a stored type once and in order, and no other |
| `HistorySyncTraces.QuietMeansAttempted` | pkg/connector/backfill.go:65-70 | When all is quiet every conversation of every pushed payload of a stored type has been come to once, in order |
| `HistorySyncTraces.UnqueriedIsStoredSinceQuery` | pkg/connector/backfill.go:174-312 | The conversations of the results on dispatches are exactly those that RECENT and FULL payloads stored after the last portal query began |
| `HistorySyncTraces.QueueIsPutNotCommitted` | pkg/connector/wadb/hsnotif.go:50-78 | The queue holds exactly the notifications it held or that were put and whose payload was not committed |
| `HistorySyncTraces.NoQueryWhileStoring` | pkg/connector/backfill.go:69-95 | Between stopping the timer and deciding whether to restart it the timer never runs, so no round of portals begins while history is stored |
| `HistorySyncTraces.RoundsAreAskedFor` | pkg/connector/backfill.go:51-96 | Every round of portals goes back to the flag at the start or to a RECENT or FULL payload, each of which accounts for at most two rounds |
| `HistorySyncTraces.QuietMeansAnswered` | pkg/connector/backfill.go:55-97 | When all has gone quiet a portal query has begun after the last thing that asked for one, a payload rolled back by a failed delete included |
| `HistorySyncTraces.WakeupsAreSent` | pkg/connector/backfill.go:42-48 | The main loop looks at the queue at most as often as wakeups were sent |
| `HistorySyncTraces.StalledIsFailedSinceSent` | pkg/connector/backfill.go:74-76 | The exception to the wakeup results is exactly that GetNext has failed since the channel was last sent on |
| `HistorySyncProgress.MovesAreBounded` | pkg/connector/backfill.go:51-98 | In any order of events a run makes at most 30 moves, 17 for each queued notification and failed one, 26 for each new one, and 15 and its conversations for each payload: it goes on for ever only on failures or on what comes from outside |
| `HistorySyncProgress.RestIsQuiet` | pkg/connector/backfill.go:51-98 | Until it is cancelled a run can rest if and only if nothing is left to do (no payload, no wakeup, none owed, no timer); once cancelled, if and only if both loops have ended and no timer or producer is due |
| `HistorySyncProgress.BufferIsBounded` | pkg/connector/client.go:50 | The channel holds at most 64 payloads and takes another one while it holds fewer |
| `PortalCreation.WaitGroupAccounts` | pkg/connector/backfill.go:333-419 | At every loop head the WaitGroup is the conversations still to visit plus the events whose handler has not ended; it is never negative, and it is zero exactly when every conversation is settled |
| `PortalCreation.FlagClearedOnlyWhenSettled` | pkg/connector/backfill.go:335-426 | The portals-need-creating flag changes only after the loop has ended with every conversation settled; an early return leaves it as it was; exactly the status broadcast (when off) and PSA chats are settled by being skipped |
| `PortalCreation.FlagIsClearedInTheEnd` | pkg/connector/backfill.go:417-426 | Once the loop has ended and every accepted event has been handled, the flag is cleared |
| `PortalCreation.SettlesOnce` | pkg/connector/backfill.go:345-415 | A step gives back at most one share of the WaitGroup and then settles a conversation that was not settled before |
| `PortalCreation.HandlersInOrder` | pkg/connector/backfill.go:391-405 | Every conversation is queued at most once, and its handler marks it as synced before it is done, each once |
| `PortalCreation.LoopTerminates` | pkg/connector/backfill.go:335-415 | Whatever the handlers do, a run that met r rate-limit errors over n conversations makes at most 8(n+r)+7 moves of the loop |
| `PortalCreation.OnlyRateLimitsProlong` | pkg/connector/backfill.go:335-415 | The same bound by the rate-limit errors of the run itself: nothing else can prolong the loop |
| `PortalCreation.LoopNeverStuck` | pkg/connector/backfill.go:335-415 | Until it has returned or waits for handlers, the loop can always move |
| `PortalCreation.RestIsFinished` | pkg/connector/backfill.go:335-426 | A run can go no further if and only if the loop has returned early or the flag has been cleared, and every accepted event has been handled |
| `PortalCreation.RunKeepsInvariant` | pkg/connector/backfill.go:335-426 | The accounting invariant (index, each conversation once, WaitGroup, flag) holds along every run, through skips, deletions, errors and `i--` retries |
| `PortalOutcomes.SettledByLastAnswer` | pkg/connector/backfill.go:345-415 | Every settled conversation is settled by the last answer of getChatInfo: handled, deleted if the user is not in the group, given up on another error, skipped if never asked for; a rate limit settles nothing |
| `PortalOutcomes.ClearedMeansDealtWith` | pkg/connector/backfill.go:345-426 | When the flag has been cleared every conversation has the outcome of its last answer, and exactly those to be skipped are skipped |
| `PortalOutcomes.ReturnsEarlyIff` | pkg/connector/backfill.go:335-415 | The loop returns early if and only if it was cancelled or an event was refused |
| `PortalOutcomes.SleepsBeforeAsking` | pkg/connector/backfill.go:355-386 | The loop sleeps once before each question and once more after each rate limit it goes on from |
| `HistoryTables.UpsertsMeaning` | pkg/connector/wadb/conversation.go:68-91 | After any sequence of upserts last_message_timestamp is the greatest non-null value written, each coalesced column is the last non-null value written, and synced_login_ts is untouched |
| `HistoryTables.MergeAllFactors` | pkg/connector/wadb/conversation.go:76-90 | A sequence of upserts acts as a single one |
| `HistoryTables.MergeAllAgain` | pkg/connector/wadb/conversation.go:76-90 | Upserting the same rows again in the same order changes nothing |
| `HistoryTables.InsertAllSplit` | pkg/connector/wadb/message.go:23-27 | Inserting in two batches equals inserting once |
| `HistoryTables.InsertAllKeys` | pkg/connector/wadb/message.go:23-27 | ON CONFLICT DO NOTHING leaves stored rows untouched, adds a row for each key and no other |
| `HistoryTables.InsertAllFirst` | pkg/connector/wadb/message.go:23-27 | A new key gets the first tuple that carries it |
| `HistorySyncStorage.ReplayIsHarmless` | pkg/connector/backfill.go:179-302 | Storing the same history sync again right away changes neither table, even when several of its conversations land on one chat |
| `HistorySyncStorage.StoreSyncKeepsForeignKey` | pkg/connector/backfill.go:276-302 | Whichever calls fail, no message row ever lacks its conversation row |
| `HistorySyncStorage.StoreSyncWithoutFailures` | pkg/connector/backfill.go:276-302 | Without failures the handler stores every payload and reports success, whether or not it stops on errors |
| `HistorySyncStorage.ConversationAfter` | pkg/connector/backfill.go:277-284 | Each conversation row is the result of exactly the upserts addressed to it, in order |
| `HistorySyncStorage.MessagesPresentAfter` | pkg/connector/backfill.go:285-291 | Every message that was kept is in the table afterwards |
| `HistoryRows.NewChatRow` | pkg/connector/wadb/conversation.go:36-65 | A payload of a new chat adds exactly one row, under the chat of the payload or the known phone number of its LID: every copied column is the field, pinned says whether the value is positive, a zero time is null, and the last message is that of the payload or else the newest that parses |
| `HistoryRows.KnownChatRow` | pkg/connector/wadb/conversation.go:68-91 | A payload of a chat that is there replaces what it has a value for, the last message only by a later one, and keeps the mark |
| `HistoryRows.NothingToStore` | pkg/connector/backfill.go:179-190 | A payload whose chat does not parse or is a broadcast list, or without a message worth storing, changes nothing |
| `HistoryRows.KeptAreKept` | pkg/connector/backfill.go:220-254 | The messages stored are those that parse, are not of an ignored type and can be marshalled, in their order |
| `HistoryRows.MaxTimeIsNewest` | pkg/connector/backfill.go:236-239 | The newest time is that of the newest message that parses, kept or not |
| `HistoryRows.MessageRows` | pkg/connector/wadb/message.go:23-76 | The kept messages are in the table under login, chat, sender and ID; rows that were there are unchanged and there are no others |
| `HistoryRows.NewMessageRow` | pkg/connector/wadb/message.go:57-59 | A new key gets the timestamp and data of the first message that has it |
| `HistoryRows.FailuresLeave` | pkg/connector/backfill.go:276-302 | A failing conversation leaves nothing, failing messages leave the conversation, a failing task leaves all; each counts as a failure |
| `RecentConversations.GetRecent` | pkg/connector/wadb/conversation.go:92-101 | Returns distinct conversations of the login that are not marked since loginTS, latest message first, within the limit, and leaves out only ones that may stand after all it returns |
| `RecentConversations.RecentAre` | pkg/connector/wadb/conversation.go:92-101 | What the query returns has as many rows as wait up to the limit, each once and latest first, and nothing left out should stand before any of them |
| `RecentConversations.RoundMakesProgress` | pkg/connector/wadb/conversation.go:127-140 | Marking what a query returned leaves exactly the others waiting, and a query with a non-zero limit returns something whenever anything waits |
| `RecentConversations.StoredChatWaits` | pkg/connector/wadb/conversation.go:92-101 | A chat that a payload has made waits for a portal at every login; a payload of a chat that is there changes nothing about that |
| `RecentConversations.MarkedStaysOut` | pkg/connector/wadb/conversation.go:98-119 | A marked conversation waits again if and only if the login is later than the mark, whatever history syncs are stored in between |
| `BackfillPages.PaginationIsLossless` | pkg/connector/backfill.go:446-477 | Following the cursor to the end, with nothing deleted in between, returns every row up to the starting point exactly once, however each query breaks its ties |
| `BackfillPages.CompleteOnlyIfTiesFit` | pkg/connector/backfill.go:465-477 | A pagination that ends shows that no timestamp has more rows than Count |
| `BackfillPages.CompletionExists` | pkg/connector/backfill.go:452-477 | ... and if none has, some pagination ends; so it can end exactly when ties fit |
| `BackfillPages.CompletesIffTiesFit` | pkg/connector/backfill.go:452-477 | Pagination can come to an end if and only if no timestamp has more rows than Count |
| `BackfillPages.TwoTiesNeverComplete` | pkg/connector/backfill.go:452-477 | Two rows of one second fetched one at a time: no pagination of them ends |
| `BackfillPages.ChainIsShort` | pkg/connector/backfill.go:452-477 | If ties fit, every pagination has at most one page more than there are rows |
| `BackfillPages.CursorDecreases` | pkg/connector/backfill.go:465-498 | If ties fit, cursors go strictly down and each cut page has between 1 and Count rows |
| `BackfillPages.CutPagePartition` | pkg/connector/backfill.go:465-477 | A cut page and the rows at or below its cursor are disjoint and together are what was asked for |
| `BackfillPages.DeletionLaw` | pkg/connector/backfill.go:503-513 | With the selective delete the rows before a page are the disjoint union of the rows returned, the rows still stored and the rows at the oldest timestamp that the page does not contain |
| `BackfillPages.LossLaw` | pkg/connector/backfill.go:465-513 | That third part is empty if and only if the page is the last one, or its whole window has one timestamp and holds all rows of that timestamp |
| `BackfillPages.DeletingRunConserves` | pkg/connector/backfill.go:446-513 | Over a whole deleting pagination every row is returned once, still stored or lost, and only one of the three |
| `BackfillPages.DeletingRunIsShort` | pkg/connector/backfill.go:446-513 | A deleting pagination has at most as many pages as there were rows |
| `BackfillPages.SelectiveDeleteLosesRow` | pkg/connector/backfill.go:465-513 | Three messages a second apart and a page size of two: two are returned, three deleted |
| `HistoryPages.FetchRunIsLossless` | pkg/connector/backfill.go:429-500 | A backward run of responses, each asked for with the cursor of the one before until there is no more, returns every row that the first request admits exactly once |
| `HistoryPages.FetchRunEndsIffTiesFit` | pkg/connector/backfill.go:429-500 | Such a run can come to an end if and only if no timestamp wanted has more rows than Count, and then it is no longer than the rows are many |
| `HistoryPages.ResponseLaw` | pkg/connector/backfill.go:452-500 | Any response: empty exactly if no row is wanted; otherwise wanted rows once each and oldest first, all wanted rows that are newer than the cursor, and a cursor that is the time of a wanted row and of none newer than a returned one; more to come exactly if more than Count rows are wanted, and if not, all are there |
| `HistoryPages.CutResponse` | pkg/connector/backfill.go:467-477 | If ties fit, a backward response with more to come has at most Count rows, all above its cursor, and its cursor is below that of the request |
| `HistoryPages.ResponseTimes` | pkg/connector/backfill.go:465-466 | The two times that the callback keeps are the newest one wanted and the cursor |
| `HistoryPages.DeletionAfterResponse` | pkg/connector/backfill.go:501-513 | After the selective delete for a response the rows before it are the disjoint union of the rows returned, those still stored and those at the cursor that were not returned |
| `HistoryPages.LossAfterResponse` | pkg/connector/backfill.go:501-513 | The third part is empty if and only if there was no more to come, or the response is all of one timestamp and has every row of it |
| `HistoryStore.CollectMessages` | pkg/connector/backfill.go:220-254 | The loop keeps the messages that parse, are not of an ignored type and can be marshalled, and finds the newest timestamp of all that parse |
| `HistoryStore.CutOldest` | pkg/connector/backfill.go:467-477 | The search from the end drops the messages at the oldest timestamp, unless there are no others |
| `HistoryStore.Store.PutConversation` | pkg/connector/wadb/conversation.go:122-125 | The conversation table becomes the upsert of the row, or stays as it is if the call fails |
| `HistoryStore.Store.PutMessages` | pkg/connector/wadb/message.go:65-76 | Inserting in chunks of 50 equals one insert of all; any failing chunk undoes them all |
| `HistoryStore.Store.MarkSynced` | pkg/connector/wadb/conversation.go:115-140 | Marks just that conversation |
| `HistoryStore.Store.DeleteConversation` | pkg/connector/wadb/conversation.go:111-152 | Removes the conversation and exactly its messages (the foreign key cascades) |
| `HistoryStore.Store.GetBetween` | pkg/connector/wadb/message.go:94-117 | Returns a window: the newest rows in range up to the limit, newest first, ties in any order |
| `HistoryStore.Store.DeleteBetween` | pkg/connector/wadb/message.go:119-122 | Removes the rows of that chat in the time range and touches no other chat |
| `HistoryStore.Store.DeleteAllInChat` | pkg/connector/wadb/message.go:129-132 | Removes all rows of that chat and no other |
| `HistoryStore.Store.FetchMessages` | pkg/connector/backfill.go:429-500 | The response is one that the request may get: the cut of some window that the database may return, in chronological order, with the oldest timestamp read before the cut as cursor (what that means is HistoryPages.ResponseLaw) |
| `HistoryPages.ForwardFlag` | pkg/connector/backfill.go:500 | The Forward field of the response is that of the request unless the request is a backward one with neither a cursor nor an anchor and there is something to return |
| `HistoryStore.Store.CompletePage` | pkg/connector/backfill.go:501-513 | After the callback the chat has lost the rows of the time range captured by the page, or all its rows without the backfill queue; other chats are untouched |
| `HistoryStore.Store.StoreConversation` | pkg/connector/backfill.go:179-302 | One conversation of a payload does to the tables what the storage function says, and reports whether a write failed |
| `HistoryStore.Store.HandleHistorySync` | pkg/connector/backfill.go:146-313 | Ignored sync types change nothing; otherwise the tables and the success flag are those of storing the payloads in order until the first failure that stops it, and a timer reset is asked for only by RECENT and FULL |
| `HistoryStore.SaveDownloaded` | pkg/connector/backfill.go:116-144 | A downloaded payload is stored and its queue row deleted together or neither; the reset request survives a failed delete |
| `HistoryStore.PrefixFails` | pkg/connector/backfill.go:276-302 | Once the handler has stopped, the remaining payloads make no difference |
| `TextBlocks.SegmentReads` | pkg/msgconv/wa-text.go:85-152 | For every text the tokens are well formed (lists open only outside lists, are never nested or empty and are always closed; breaks and quotes never inside a list) and, read by the list rules of the HTML Living Standard, show exactly one entry per source line, in order, each ordered item under the number on its line |
| `TextBlocks.LineKinds` | pkg/msgconv/wa-text.go:62-126 | A line is a bullet exactly if it begins with * or - and a space, an item exactly if it is one or two digits, a full stop, a space and its text, a quote exactly if it begins with > and a space, and plain otherwise |
| `TextBlocks.WrittenLineReads` | pkg/msgconv/wa-text.go:90-145 | What one line writes reads as exactly what the line says, in any state of the loop |
| `TextBlocks.NextItemReads` | pkg/msgconv/wa-text.go:105-125 | A further item gets its own number, with or without a value attribute |
| `TextBlocks.FirstItemReads` | pkg/msgconv/wa-text.go:105-125 | The first item of a list gets its own number through the start attribute, 0 included |
| `TextBlocks.LinesRejoin` | pkg/msgconv/wa-text.go:86 | Splitting into lines loses nothing and leaves no newline |
| `TextBlocks.ParseLine` | pkg/msgconv/wa-text.go:90-145 | The loop body writes the tokens and leaves the three variables that the line machine specifies |
| `TextBlocks.ParseOrdered` | pkg/msgconv/wa-text.go:105-125 | The ordered-item branch, likewise |
| `TextBlocks.ParseSegment` | pkg/msgconv/wa-text.go:85-152 | The whole loop appends the tokens of the segment |
| `TextFences.MessageReads` | pkg/msgconv/wa-text.go:154-193 | For every message, code blocks included: the output is well formed across segments, shows exactly the lines and code blocks in order with their numbers, and the split is the one and only well-made split that rebuilds the message |
| `TextFences.CutRejoins` | pkg/msgconv/wa-text.go:157-187 | The prefixes, fenced contents and tail, with their fences, rebuild the text |
| `TextFences.CutWellSplit` | pkg/msgconv/wa-text.go:157-187 | Each prefix goes up to the first fence, each code block is not blank and closes at the first fence, or at the second if nothing stands before the first, and the tail is left only if no block could be found in it |
| `TextFences.SplitIsUnique` | pkg/msgconv/wa-text.go:157-187 | Pieces that are well split in this sense and rebuild the text are the pieces of the loop, and no others are |
| `TextFences.FindBlock` | pkg/msgconv/wa-text.go:157-178 | All indices are in range, the block opens at the first fence, closes at the first fence after it or, if nothing stands before that one, at the next, and takes at least six characters |
| `TextFences.CodeIsNotBlank` | pkg/msgconv/wa-text.go:164-173 | No need to check more than once: a block found so is never blank |
| `TextFences.NextBlock` | pkg/msgconv/wa-text.go:157-178 | The index arithmetic of one round finds that block or breaks |
| `TextFences.WriteBlock` | pkg/msgconv/wa-text.go:179-189 | One round appends the text before the block and the block, as pre if it has a newline |
| `TextFences.ParseFormatting` | pkg/msgconv/wa-text.go:154-193 | The loop writes the tokens of the pieces the text splits into, and terminates |
| `Decimals.FormatUndoesNumber` | pkg/waid/mediaid.go:225-230 | Printing a parsed number gives back exactly the numerals without leading zeros |
| `Decimals.FormatIsCanonical` | pkg/waid/mediaid.go:225-230 | A printed number has no leading zeros and parses to itself |
| `Jids.ParsePrinted` | pkg/waid/id.go:27-37 | Parsing undoes printing for the JIDs without @ . : in the user and @ in the server, and for no others |
| `CompactIDs.BigEndianRoundTrip` | pkg/waid/mediaid.go:196-206 | Big-endian writing and reading are inverse within the width |
| `CompactIDs.CompactJIDRoundTrip` | pkg/waid/mediaid.go:194-247 | A compact JID comes back if and only if a numeric user has no leading zeros, or the server is the group server, or the printed form can be parsed |
| `CompactIDs.LeadingZerosAreLost` | pkg/waid/mediaid.go:196-200 | User 007 comes back as 7 |
| `CompactIDs.CompactMsgIDRoundTrip` | pkg/waid/mediaid.go:170-192 | Every message ID comes back, packed as hexadecimal or not |
| `CompactIDs.ShortenedJID` | pkg/waid/mediaid.go:214-247 | A compact JID cut short is never read as the JID it was made from |
| `MediaLayouts.CompactJIDLayout` | pkg/waid/mediaid.go:194-212 | A numeric user on the user server is a 1 and eight bytes, most significant first; a group is a 3 and its name; anything else is a 0 and the printed JID |
| `MediaLayouts.UserDeviceParses` | pkg/waid/mediaid.go:230-238 | A 2, eight bytes of user and two of device are read as that user and device |
| `MediaLayouts.CompactMsgIDLayout` | pkg/waid/mediaid.go:151-178 | Upper-case hexadecimal of even length is a 1 and one byte for each two digits, high digit first; anything else is a 0 and the text |
| `MediaLayouts.MessageLayout` | pkg/waid/mediaid.go:38-59 | The ID of a message is 255 and the fields chat, sender, login, message ID, each with its length before it |
| `MediaLayouts.AvatarLayout` | pkg/waid/mediaid.go:61-77 | The ID of an avatar is 254, or 253 for a community, and the fields target, avatar ID, login |
| `MediaLayouts.MessageReads` | pkg/waid/mediaid.go:98-121 | Of the fields of any data the first four are read in that order, and the result is an error exactly if one is missing or does not parse |
| `MediaLayouts.AvatarReads` | pkg/waid/mediaid.go:122-142 | Likewise the three fields of an avatar |
| `MediaIDs.MediaIDRoundTrip` | pkg/waid/mediaid.go:38-145 | A media ID (message, avatar or community avatar) parses to exactly what it was made from if and only if all its parts fit: canonical numeric users, parseable JIDs, and no field over 255 bytes |
| `MediaIDs.MediaIDsAreDistinct` | pkg/waid/mediaid.go:31-77 | Different media whose parts fit have different IDs, and the three kinds never collide at all |
| `MediaIDs.LegacyLengthByte` | pkg/waid/mediaid.go:31-104 | For every message media ID, whether its parts fit or not: without its type byte it parses to the same result when the length byte of the compact chat is at most 127, and gives an error when that byte is from 128 to 252 |
| `MediaIDs.LegacyIDs` | pkg/waid/mediaid.go:31-104 | Where the ID means what it was made from, it still does without the type byte if and only if the compact chat is at most 127 bytes |
| `MediaIDs.MakeMediaID` | pkg/waid/mediaid.go:38-59 | The appended bytes are the encoding of the chat and sender without devices, the override or the message ID, and the receiver |
| `MediaIDs.MakeAvatarMediaID` | pkg/waid/mediaid.go:61-77 | Likewise for avatars, with the type byte of the kind |
| `MediaIDs.ParseMediaID` | pkg/waid/mediaid.go:91-145 | Parsing with an advancing reader gives the meaning of the ID, errors included |
| `MediaIDs.Reader.ReadCompact` | pkg/waid/mediaid.go:249-261 | Reads the field behind the length byte and advances past it; data that is too short is an error and stays |
| `BridgeIDs.PortalIDRoundTrip` | pkg/waid/id.go:27-37 | A portal ID leads back to the chat without its device exactly for plain JIDs |
| `BridgeIDs.UserIDRoundTrip` | pkg/waid/id.go:42-62 | A user ID leads back to the user exactly for bots, LIDs and phone number users that do not start with one of the two prefixes |
| `BridgeIDs.UserIDIsParsedUser` | pkg/waid/id.go:42-62 | Every user ID is the ID of the user it parses to |
| `BridgeIDs.MessageIDRoundTrip` | pkg/waid/id.go:82-118 | A message ID comes back exactly when both JIDs are plain and without colons, the chat does not print as "fake", and the ID does not start with FAKE:: |
| `BridgeIDs.FakeIDsNeverParse` | pkg/waid/id.go:86-107 | A fake message ID is always refused as fake, and behind its mark stands the ID the message would have had |
| `MessageKeys.OwnKeyRoundTrip` | pkg/msgconv/wa-poll.go:97-165 | A key we built, resolved by ourselves, names its message if and only if: for our own message, it was sent from the address the key comes from, whichever device of ours that is (mapped to a phone number in a phone number chat); in a chat without participants, it is from the chat and the chat is on the phone number or bot server; otherwise its participant is kept as it is |
| `MessageKeys.ParsedMessageIDIsParsed` | pkg/waid/id.go:100-118 | The JIDs of a parsed message ID are plain and have no device, as the results on keys assume |
| `MessageKeys.OwnKeyGivesMessageID` | pkg/msgconv/wa-poll.go:97-165 | For group messages in the addressing mode of the sender of the key and phone number chats, the resolved text is the message ID |
| `MessageKeys.ParticipantResolves` | pkg/msgconv/wa-poll.go:124-134 | A key with a participant is resolved to its message exactly unless the participant is empty, on the legacy server, or put under a known LID |
| `MessageKeys.ParticipantResolvesTo` | pkg/msgconv/wa-poll.go:97-165 | What a key with a participant resolves to for any account: a legacy address is a phone number, and a phone number in a group whose keys come from LIDs is the LID that is known for it; nothing without a participant |
| `MessageKeys.PutUnderKnownLID` | pkg/msgconv/wa-poll.go:107-114 | In particular a sender put under a LID has the LID the account knows |
| `MessageKeys.OwnKeyResolvesTo` | pkg/msgconv/wa-poll.go:97-165 | What our own key resolves to in every case |
| `MessageKeys.KeySays` | pkg/connector/id.go:58-70 | A key names chat and ID, says it is ours exactly if the sender is one of our addresses, and has the sender as participant exactly in chats that are not direct |
| `MessageKeys.PeerResolvesDirectKeyTo` | pkg/msgconv/wa-poll.go:97-165 | What the other side of a direct chat resolves our key to in either case |
| `MessageKeys.GroupIsNamedByKey` | pkg/msgconv/wa-poll.go:152-159 | A group is named by the key, whatever chat the receiver takes it to be from |
| `MessageKeys.PeerResolvesDirectKey` | pkg/connector/id.go:58-70 | The other side of a phone number chat resolves a key from any of our devices to the same message in its own view of the chat if and only if the message is its own, or it can map our address to our phone number |
| `MessageKeys.PeersAgreeInGroup` | pkg/msgconv/wa-poll.go:97-165 | Two accounts that know the same LID for a third person resolve a key about that person to the same message |
| `DirectMedia.OneRequestPerMessage` | pkg/connector/directmedia.go:231-283 | In every run, whoever works on the same message shares one retry state, and at most one request is sent successfully for it |
| `DirectMedia.WaitersLearnFromPhone` | pkg/connector/directmedia.go:244-266 | In every run a caller waits only after the request was sent, is woken only after the phone answered, and leaves only with a path the phone sent for its message; the path is not empty unless the phone has reported success without a path for that message; a caller told that the media was not found is told so because the phone said it |
| `DirectMedia.BlankEmptiesPath` | pkg/connector/directmedia.go:249-252 | And then it can be: from every reachable state in which a caller is between its two reads of the path, a report of success without one can come and make it leave with none |
| `DirectMedia.CallerLeavesWithoutPath` | pkg/connector/directmedia.go:244-328 | A run from the start, for any message, in which a caller leaves with an empty path |
| `DirectMedia.RunExtends` | pkg/connector/directmedia.go:231-328 | From any reachable state on, the retry states stay in place and what was requested is not sent again |
| `DirectMedia.CanStillSendIffNoneSent` | pkg/connector/directmedia.go:268-283 | From any reachable state a request for a message can still be sent if and only if none has been sent, whether the phone has answered or not and whoever holds the lock |
| `DirectMedia.LaterCallersSendIffNotRequested` | pkg/connector/directmedia.go:268-283 | With the lock free that is: if and only if none is marked as sent |
| `DirectMedia.AnswerBeforeRequest` | pkg/connector/directmedia.go:268-328 | And that happens: an answer before the first caller has the lock sets the event, and the request can still be sent afterwards |
| `DirectMedia.RunKeepsInvariant` | pkg/connector/directmedia.go:231-328 | The invariant (one state per message, lock ownership, sends, paths) holds in every reachable state |
| `DirectMedia.AnswerArrives` | pkg/connector/directmedia.go:285-328 | With the lock free any response can come next; handling it stores the result type and the path unless the phone reports an error without a path, sets the event in every case and gives the lock back |
| `DirectMediaCalls.AnswerReachesWaiter` | pkg/connector/directmedia.go:244-266 | Whoever waits leaves with the path the phone sends, even beside an error; without one it is told whether the media was not found |
| `DirectMediaCalls.LateCallerWaits` | pkg/connector/directmedia.go:268-283 | A caller that comes once the request has been sent waits like the others and sends nothing |
| `DirectMediaCalls.CallsEnd` | pkg/connector/directmedia.go:231-328 | In every run a download makes at most nine moves and the handling of a response at most six |
| `DirectMediaCalls.NobodyIsStuck` | pkg/connector/directmedia.go:231-328 | In every reachable state an actor that has not ended can move, or wants a lock whose holder can |
| `DisappearingTimer.Portal.ConvertEphemeralSetting` | pkg/msgconv/wa-misc.go:120-145 | A live change is applied by the register rule and ignored exactly if it is not newer; a backfilled one changes nothing |
| `DisappearingTimer.Converges` | pkg/msgconv/wa-misc.go:132-140 | The same timed changes in any order, repeated or not, end the same if those competing for the newest place agree |
| `DisappearingTimer.DistinctConverge` | pkg/msgconv/wa-misc.go:132-140 | With distinct timestamps, one above the initial, the newest change and its timestamp are what is left, with its expiration as timer and the type after_send exactly if that is not zero |
| `DisappearingTimer.OrderMattersUnlessConvergent` | pkg/msgconv/wa-misc.go:132-140 | For all changes: every reordering ends the same if and only if, when all have a timestamp, those that compete for the newest place agree, and otherwise those without a timestamp agree and no other is from after time zero |
| `DisappearingTimer.TimedOrderMattersUnlessNewestAgree` | pkg/msgconv/wa-misc.go:132-140 | The first of these cases |
| `DisappearingTimer.NewestIsHeld` | pkg/msgconv/wa-misc.go:132-140 | The register holds the newest timed change and its time never decreases |
| `DisappearingTimer.UntimedGoesBack` | pkg/msgconv/wa-misc.go:133-134 | The time goes back exactly when a change without a timestamp follows a positive time |
| `DisappearingTimer.UntimedForgets` | pkg/msgconv/wa-misc.go:133-134 | Such a change makes everything before it forgotten |
| `DisappearingTimer.UntimedDiverges` | pkg/msgconv/wa-misc.go:133-134 | So with one of them the order of two changes matters |
| `Polls.PollVotesRoundTrip` | pkg/msgconv/matrixpoll.go:115-134 | For an accepted Matrix poll with distinct option IDs, a vote sent out and received again is the chosen options of the poll in order; with equal IDs nothing is stored and every vote comes back empty; the hash is arbitrary |
| `Polls.VoteComesBack` | pkg/msgconv/wa-poll.go:190-207 | Any consistent option table gives back the known chosen IDs |
| `Polls.InsertIffDistinctIDs` | pkg/connector/wadb/upgrades/00-latest-schema.sql:3-13 | The options of a new poll can be stored exactly if their IDs differ |
| `Polls.PollStartToWhatsApp` | pkg/msgconv/matrixpoll.go:64-105 | Refused exactly without a question or with two options of one hash; otherwise the names are in order and the map holds each hash with its option ID |
| `Polls.PollOptionTable.Put` | pkg/connector/wadb/polloption.go:48-61 | Stores all options or, if the constraints forbid it, none |
| `Polls.PollOptionTable.GetHashes` | pkg/connector/wadb/polloption.go:70-101 | The map of the requested IDs that have a row |
| `Polls.PollOptionTable.GetIDs` | pkg/connector/wadb/polloption.go:63-101 | The map of the requested hashes that have a row |
| `Polls.PollOptionTable.PollVoteToWhatsApp` | pkg/msgconv/matrixpoll.go:118-134 | The hashes of the chosen options in order, unknown ones left out |
| `Polls.PollOptionTable.ConvertPollUpdate` | pkg/msgconv/wa-poll.go:188-207 | The ID of each selected hash, or an empty string |
| `MediaEditCache.SweepingIsUnobservable` | pkg/connector/mediaeditcache.go:55-91 | With a clock that never goes back, reading gives what a log that is never swept would give, wherever the sweeps fall |
| `MediaEditCache.NeverSweptReadsTheSame` | pkg/connector/mediaeditcache.go:55-91 | Leaving out all sweeps changes no answer |
| `MediaEditCache.FoundForTwentyMinutes` | pkg/connector/mediaeditcache.go:55-91 | A sticker or media message is found under its key until exactly twenty minutes after it was added, wherever sweeps and other messages fall |
| `MediaEditCache.Connector.AddMediaEditCache` | pkg/connector/mediaeditcache.go:55-68 | Adds stickers and media with an expiry 20 minutes ahead, nothing else |
| `MediaEditCache.Connector.GetMediaEditCache` | pkg/connector/mediaeditcache.go:70-81 | The part, unless missing or expired |
| `MediaEditCache.Connector.ExpireMediaEditCache` | pkg/connector/mediaeditcache.go:83-91 | Removes exactly what had expired when the sweep reached it, in any order |
| `PortalMigration.Bridge.DeleteLIDDMsMigration` | pkg/connector/connector.go:166-231 | Deletes exactly the direct LID portals whose phone number portal is known and in the list, unless the database refuses |
| `PortalMigration.DeletedHaveSurvivor` | pkg/connector/connector.go:195-207 | Whatever is deleted was a LID chat whose phone number chat, with the same receiver, was in the list and is not deleted, unless its number is not a number but reads as a LID that is mapped in turn |
| `PortalMigration.SurvivesUnlessKnownLID` | pkg/connector/connector.go:195-207 | The phone number chat survives with every list of portals if and only if its number does not read as a mapped LID |

## Left out

- Network, media and image work, encryption, login, proxies and push: effects in libraries that are not part of the repository.
- Inline formatting regexes (pkg/msgconv/wa-text.go:71-83): they are applied in the order of a Go map, which is unspecified.
- The implicit timer update of ordinary messages (pkg/msgconv/from-whatsapp.go:245-253): it does not write the time of the setting, so it is no part of the register.
- `MarkRead` of a page, media requests made after it, the conversion of single messages, and `BackfillTask.MarkNotDone` beyond whether it fails.
- DeleteAll and Get of conversations and messages: single statements without branches.
- History times at or above 2^63 seconds, where the source's conversion to a signed integer wraps around.
- A write that fails inside a Postgres transaction makes later statements of the transaction fail too; the model only lets the handler stop or go on as the source's code does.
- Agent numbers (`user.agent:device`) in JIDs: a user with a dot is a parse error here, which makes no difference to any round trip.
- Votes on polls made in WhatsApp, which only encode and decode the hash as hexadecimal.
- A portal query that fails counts as a query in HistorySyncLoop; the loop then waits for the next dispatch.
- Database errors other than constraint violations when poll options are stored or read.
- The order in which the migration visits portals, and the deletion of Matrix rooms after portals.
- Cancellation of a waiting download is modelled only as giving up; which error it returns is not.
- HistorySyncLoop.EveryRunIsSafe: no lost wakeup excludes the time after a GetNext error, where it is false (see `HistorySyncLoop.GetNextErrorStallsQueue`).
- TextFences.ParseFormatting: writes tokens instead of escaped HTML text.
- HistoryStore.Store.FetchMessages: the reversal in place is a function on sequences.
