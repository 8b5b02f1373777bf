# Verification of the chat backend

A Dafny model of the backend's state machines, with proofs about every run of them.

**Burn messages.** A message with a time to live is sent, opened by each reader on a clock of their
own, marked as destroyed by a minute tick (rule R1: its deadline has passed; rule R2: every
recipient has read it out), confirmed by clients, and physically purged into a tombstone. Owners can
burn a whole conversation down, administrators can mark a message by hand.

**What readers see.** The list request shows a per-user view: content, a blurred placeholder, or a
contentless stand-in. Read receipts, read watermarks and unread counts go with it.

**Accounts.** A login throttles wrong passwords, reuses or creates a device, and evicts devices over
a cap. A guard admits requests from an in-memory cache that must agree with the tables.

**Membership and presence.** Groups, channels and private conversations with a stored owner and
member count; socket counting by single UPDATE statements that interleave.

## How it is built

| files | contents |
|---|---|
| `Prelude`, `Query`, `Grouping` | shared values; `Page`, the meaning of ORDER BY with LIMIT; grouping before a broadcast |
| `ChatDb`, `BurnSpec`, `ConversationSpec`, `ViewSpec`, `AuthSpec`, `PresenceSpec` | the tables as values and what each request does to them |
| `Runs`, `ChatInvariant`, `SmallWorld` | runs of the chat backend, what every step keeps, how every step may move the tables; small databases to build example runs in |
| `BurnTheorems`, `RevealTheorems`, `ConsumeTheorems`, `OpenTheorems`, `SenderTheorems`, `TimerTheorems`, `ShownTimeTheorems`, `SendTheorems`, `ContentTheorems`, `LifecycleTheorems`, `DissolveTheorems`, `RowTheorems`, `MarkTheorems`, `TickTheorems`, `PurgeTheorems`, `ProgressTheorems`, `ThresholdTheorems`, `ReadTheorems`, `WatermarkTheorems`, `ViewTheorems`, `ListTheorems`, `MembershipTheorems`, `RosterTheorems`, `OwnershipTheorems`, `AuthTheorems`, `LoginTheorems`, `AccountTheorems`, `PresenceTheorems` | the theorems |
| `Tables`, `MessageService`, `DestroyService`, `ConversationServices`, `AuthServices`, `PresenceServices`, `ServiceTheorems` | the services as classes whose methods update tables step by step, proved to perform the specified steps |

Three ideas carry the proofs. A bounded, ordered query is a relation (`Query.Page`), so every choice
the database has among equal keys is covered. `ChatInvariant.Evolves` says how two states of a run
may differ; it is transitive, so it holds across any number of steps and the theorems about whole
runs are read off it. And the chat classes promise `Performs`, one enabled step of the run model, so
what holds of runs holds of a database they serve; the account and presence classes promise the steps
of their own run models (`ServiceTheorems`).

The theorems named `...MovesExactly` and `...ComeExactly` say what any request can change in a row,
a copy, a member list, an account or a device, and when, in terms of the tables alone; the ones named
`...IsAdmittedExactly` and `...IsAcceptedExactly` say the same of who gets what.

`dafny verify dfyconfig.toml --resource-limit 2000000` checks the project.

## Where the code and its documentation differ

The model follows the code. Where a property is at stake, the difference is a theorem.

- Threshold 0 is documented as "every recipient must confirm" (`src/modules/message/destroy.service.ts:43`). The code counts heads, and confirmations of the sender and of people who have left count too: `ThresholdZeroCounts`, `PurgedWithoutEverybody`.
- The watermark is documented to move only forward (`src/modules/message/message.service.ts:907`). It does in every step between existing rows, but not across a purged watermark: `WatermarkStep`; `WatermarkMovesBackExactly` says which runs take it back, `WatermarkMovesBackInARun` is one.
- The time a reveal shows is documented to be the time the message lives (`src/modules/message/message.service.ts:622`). Rule R2 counts only other people's copies, as its own comment says (`src/modules/message/burn.scheduler.ts:18-20`), so the sender, who is shown a time too, can lose the message before it: `OnlyTheSenderIsCutShort` and `CutShortBeforehand` say exactly when, `SenderCutShortInARun` is a run.
- The cache is documented to be invalidated when a device is kicked (`src/common/cache/auth-cache.service.ts:37-38`). The administrators' kick does not: `CacheDivergesExactlyOnKicks`, `KickedDeviceIsAdmitted`.
- The last disconnect is documented to put a device offline at once (`src/modules/events/events.gateway.ts:126`). Its two statements, and the two of the connection, are not waited for, and what decides is which of them writes last: `OfflineAtRestExactly`. With the count exact, the device stays online in `LateOnlineUpdateWins` (the connection's online update comes last) and in `EarlyOfflineUpdateMisses` (the decrement does). The count can also keep a connection that is gone: `EarlyDisconnectLeaks`, `OvertakingDecrementLeaks`, with the exact condition in `SocketCountAtRest`.
- A transfer of ownership is documented to leave the old owner as an admin (`src/modules/group/group.service.ts:340`). The code makes them a plain member, `TransferMovesTheRole`, who has no say in the group until it is handed back: `FormerOwnerHasNoSay`.
- A group created with somebody listed twice is left behind without any member: `RepeatsLeaveNoOwner`.

## Model

| member | source | states |
|---|---|---|
| `ChatInvariant.StepIsSafe` | src/modules/message/message.service.ts:545-690 | every request and tick keeps the tables consistent (timers, marks, receipts and confirmations agree) and moves rows, copies, conversations and the clock only in the allowed directions |
| `ChatInvariant.RunIsSafe` | src/modules/message/message.service.ts:545-690 | the same between any two states of a run |
| `ChatInvariant.ReachableIsConsistent` | src/modules/message/message.service.ts:545-690 | every reachable database is consistent |
| `BurnTheorems.NoEarlyBurn` | src/modules/message/burn.scheduler.ts:45-73 | what a tick marks, unless its owner burned the conversation down, is a burn message all of whose opened recipient copies have run out; if a recipient never opened it, its whole promised life max(fallback, ttl) is over |
| `BurnTheorems.ExpiryOutlastsEveryCopy` | src/modules/message/message.service.ts:600-606 | when the absolute deadline has passed, every opened copy has run out, the sender's included |
| `BurnTheorems.MarkedCopiesAreFrozen` | src/modules/message/burn.scheduler.ts:114-122 | the recipients' copies of a marked message keep their times until it is purged |
| `BurnTheorems.OpenedCopyGetsItsWindow` | src/modules/message/message.service.ts:580-606 | a recipient who opens a message and does not consume it has had the whole granted window, never shorter than the sender's ttl, before any tick marks it |
| `BurnTheorems.BoundedLife` | src/modules/message/message.service.ts:555-606 | the deadline of a burn message stays between sent + max(fallback, ttl) and that plus the windows of the first reveals so far, at most one per user |
| `BurnTheorems.GoneForGood` | src/modules/message/message.service.ts:549-559 | once a message is marked, expired or purged, no continuation of the run lets anybody open it |
| `BurnTheorems.RunOutForGood` | src/modules/message/message.service.ts:575-578 | once a user's own copy has run out, no continuation of the run reopens it for that user |
| `BurnTheorems.FirstRevealShowsWindow` | src/modules/message/message.service.ts:580-623 | the first reveal shows exactly the window it granted |
| `BurnTheorems.ShownTimeIsOwnTime` | src/modules/message/message.service.ts:131-144 | an admitted reveal shows the time to the user's own deadline: the minimum with the message's deadline never bites |
| `BurnTheorems.RemainingTimeNeverGrows` | src/modules/message/message.service.ts:618-633 | however the run goes on, a later reveal shows no more time than an earlier one |
| `BurnTheorems.OthersKeepCopy` | src/modules/message/message.service.ts:689-690 | no step but the user's own consume shortens an opened copy |
| `OpenTheorems.ShownTimeIsHonoured` | src/modules/message/message.service.ts:545-633 | over any run without the reader's own consume, before the deadline their copy was opened with, a reveal is refused exactly if the conversation was burned down, the message was destroyed by hand or recalled, rule R2 took it and the reader is its sender, or the reader is no longer a member |
| `RevealTheorems.RevealIsAdmittedExactly` | src/modules/message/message.service.ts:545-578 | a reveal is admitted exactly for a member, of a burn message neither marked nor recalled, before its deadline and the end of the caller's own time; a refusal changes nothing |
| `RevealTheorems.RevealAnswers` | src/modules/message/message.service.ts:580-633 | the answer is the row the tables now hold, its content and everything but its deadline as before, with the caller's own time; a first reveal starts that time and reads the copy, a later one changes nothing; nobody else's copy moves; it asks for a consume exactly for what can be played |
| `RevealTheorems.ReaderGetsWhatWasSent` | src/modules/message/message.service.ts:213-247 | over any run between a send and an admitted reveal, the reader gets the words, files or ciphertext of the draft |
| `ConsumeTheorems.ConsumeIsAcceptedExactly` | src/modules/message/message.service.ts:646-686 | a consume is accepted exactly for a playable, unrecalled burn message the member has opened; it was done already exactly if the row is gone or their time is over |
| `ConsumeTheorems.ConsumedForGood` | src/modules/message/message.service.ts:636-690 | an accepted consume ends the caller's own time now and touches nothing else; in every continuation their reveals are refused |
| `SenderTheorems.OnlyTheSenderIsCutShort` | src/modules/message/burn.scheduler.ts:57-70 | of a newly marked message, not burned down, an opened copy has time left exactly if it is the sender's, rule R2 took the message, and the sender's time lies ahead |
| `SenderTheorems.CutShortBeforehand` | src/modules/message/burn.scheduler.ts:45-73 | as a caller can tell before the tick: with no more than a batch eligible, a live message is cut short for somebody exactly if R2 holds of it and the sender's own time lies ahead; then the sender can no longer open it |
| `SenderTheorems.SenderCutShortInARun` | src/modules/message/burn.scheduler.ts:57-70 | a run from the empty database in which the tick marks a message with nine seconds left on the sender's copy |
| `ShownTimeTheorems.TimeToldNeverGrows` | src/modules/message/message.service.ts:339-345 | reveals and listings together never tell a reader of more time than either told before |
| `ShownTimeTheorems.RoundingAddsAtMostASecond` | src/modules/message/message.service.ts:588-596 | read back from columns rounded to whole seconds, the time left still does not grow between readings, and exceeds the unrounded one by a second at most |
| `ShownTimeTheorems.RoundingShows` | src/modules/message/message.service.ts:588-623 | that second does show: opened at .600 for ten seconds, eleven are left at .700 |
| `TimerTheorems.NormalizedTtl` | src/modules/message/message.service.ts:117-128 | a positive request is rounded up to whole seconds, a future instant becomes the least number of seconds that reaches it, both capped at thirty days; anything else means no burning |
| `TimerTheorems.OldClientsRoundTrip` | src/modules/message/message.service.ts:111-128 | an old client's instant k seconds ahead gives the k seconds a new client asks for |
| `TimerTheorems.MediaPlay` | src/modules/message/message.service.ts:49-59 | what can be played is a voice message, a video, or a file whose name ends in one of seven extensions in any letter case |
| `TimerTheorems.WindowCoversTheMedium` | src/modules/message/message.service.ts:38-59 | the window of a reveal is the ttl and, for what can be played, the larger of the ttl and playing time plus buffer, or the default window if no length is known |
| `TimerTheorems.RemainIsLeastCover` | src/modules/message/message.service.ts:135-144 | the shown seconds are the least that cover the time to the nearer deadline, and zero exactly when it has passed |
| `SendTheorems.SendIsAcceptedExactly` | src/modules/message/message.service.ts:180-211 | a message is taken exactly from a member of an undissolved conversation, in a channel from its owner, with all or none of the cipher fields, and with something in it |
| `SendTheorems.SentSaysDraft` | src/modules/message/message.service.ts:216-247 | the stored row says what the draft said: in the open, or the ciphertext and a placeholder; its deadline is the promised one |
| `SendTheorems.SendAddsOneRow` | src/modules/message/message.service.ts:180-261 | an accepted send adds the message and one copy per member, read exactly for the sender; a refused one changes nothing |
| `SendTheorems.MentionsAreMembers` | src/modules/message/message.service.ts:193-195 | the stored mentions are exactly the mentioned members, each once |
| `SendTheorems.PlaintextLeavesNoTrace` | src/modules/message/message.service.ts:197-226 | the text that comes with an encrypted message influences neither the tables nor the outcome |
| `LifecycleTheorems.Conservation` | src/modules/message/destroy.service.ts:205-247 | a sent id is in exactly one place, moves only forward from live to marked to purged, keeps its origin, and gets its destruction stamp once, which the tombstone carries verbatim |
| `LifecycleTheorems.NothingDangles` | src/modules/message/destroy.service.ts:230-238 | every receipt and confirmation hangs off an existing row, every confirmation off a marked one |
| `LifecycleTheorems.PurgeNeedsMark` | src/modules/message/destroy.service.ts:205-211 | no step purges a message that was not marked before it |
| `MarkTheorems.R1BatchIsExact` | src/modules/message/burn.scheduler.ts:97-122 | an R1 batch takes the eligible count from n to max(0, n - 500), stamps its rows and touches no other |
| `MarkTheorems.R2BatchIsExact` | src/modules/message/burn.scheduler.ts:57-70 | the same for R2; its rows are live burn messages that somebody other than the sender has a receipt of and everybody other than the sender has opened and run out of time for; marking one never makes another eligible or ineligible |
| `MarkTheorems.TickIsExact` | src/modules/message/burn.scheduler.ts:45-73 | every message of a tick is stamped now, with the reason of the first rule that took it, and only if that rule held |
| `TickTheorems.TickMarksExactly` | src/modules/message/burn.scheduler.ts:45-73 | said of rows and receipts: before its deadline a message is marked only if it is a burn message with at least one receipt of somebody else, all of those opened and over; with no more than a batch eligible, exactly those and the expired ones are, and the stamp says which |
| `TickTheorems.OldestAreTaken` | src/modules/message/burn.scheduler.ts:105-111 | an eligible message a batch leaves out was sent no earlier than any of the 500 it takes |
| `MarkTheorems.R1SelectThenUpdate` | src/modules/message/burn.scheduler.ts:105-122 | with any requests between its SELECT and its UPDATE, a row R1 selected is by then purged, marked by others, or expired against the later clock; the guarded UPDATE overwrites no stamp |
| `ProgressTheorems.ExpiredGetsMarked` | src/modules/message/burn.scheduler.ts:97-122 | over any run, an expired message with k live messages created no later than it, itself included, is marked after ceil(k / 500) ticks |
| `ProgressTheorems.SentIsGoneInTime` | src/modules/message/message.service.ts:236-237 | over any run, a sent burn message is gone once the promised time and the windows granted since have passed |
| `ProgressTheorems.ExpiredGetsPurged` | src/modules/message/destroy.service.ts:249-295 | enough ticks, the fallback days, and enough sweeps turn an expired message into a tombstone, whatever else happens and whoever does not confirm |
| `ContentTheorems.PurgedUntilRepliedTo` | src/modules/message/destroy.service.ts:233-237 | after the step that purges a message, a row quotes it exactly if the row was sent afterwards as a reply to it |
| `ContentTheorems.QuotesOfAPurgedMessage` | src/modules/message/message.service.ts:233-233 | over any run a row quotes a purged message exactly if it did already or was sent as a reply to it since |
| `ContentTheorems.BurnContentIsKept` | src/modules/message/message.service.ts:716-728 | over any run the content of a burn message stays as sent, except that a missing link to the original file can be filled in, once |
| `PurgeTheorems.AckIsRefusedExactly` | src/modules/message/destroy.service.ts:132-140 | a confirmation is forbidden exactly to strangers and refused to a member, changing nothing, exactly if the list names a live message of the conversation |
| `PurgeTheorems.PurgeOneMore` | src/modules/message/destroy.service.ts:205-247 | purging one more row after a set is purging the larger set |
| `PurgeTheorems.AckIsExact` | src/modules/message/destroy.service.ts:142-167 | an accepted confirmation is recorded for the listed rows and purges exactly those whose policy then holds; every other row and confirmation stays |
| `PurgeTheorems.AckDependsOnTheSet` | src/modules/message/destroy.service.ts:116-167 | order and repetitions in the list do not matter |
| `PurgeTheorems.AckIsIdempotent` | src/modules/message/destroy.service.ts:109-167 | confirming the same list again changes nothing |
| `PurgeTheorems.PolicySurvivesPurge` | src/modules/message/destroy.service.ts:174-199 | purging other rows does not change whether a row meets the policy |
| `PurgeTheorems.PendingRound` | src/modules/message/destroy.service.ts:67-95 | fetching the pending list and confirming it is accepted and takes n pending rows to max(0, n - 500) |
| `PurgeTheorems.ClientLoopEnds` | src/modules/message/destroy.service.ts:67-95 | after r rounds of the client's loop max(0, n - 500 r) rows are pending |
| `PurgeTheorems.ThresholdZeroCounts` | src/modules/message/destroy.service.ts:187-198 | with threshold 0 the code purges exactly when outsiders' confirmations are at least as many as the missing recipients'; it agrees with the documented rule exactly unless 0 < missing <= outside |
| `ThresholdTheorems.PurgedWithoutEverybody` | src/modules/message/destroy.service.ts:187-198 | a reachable group of a sender and two recipients in which the confirmations of the sender and of one recipient purge a message the other never confirmed |
| `PurgeTheorems.PolicyMeans` | src/modules/message/destroy.service.ts:174-199 | a message may be purged early when anybody confirmed (private), when as many people did as the threshold asks, or at threshold 0 as many as there are other members |
| `PurgeTheorems.PendingIsOldestFirst` | src/modules/message/destroy.service.ts:67-95 | the pending list is the 500 oldest unconfirmed marks, in order |
| `PurgeTheorems.SweepPolicyIsAckPolicy` | src/modules/message/destroy.service.ts:278-284 | the sweep's policy allows no more than the confirmation's, the same for thresholds of at least 1 and private conversations, and nothing in groups at threshold 0 |
| `PurgeTheorems.SweepIsExact` | src/modules/message/destroy.service.ts:276-290 | a sweep purges exactly the rows of its page that are confirmed well enough or overdue; each of them met the purge policy or was overdue |
| `PurgeTheorems.SweepTakesExactly` | src/modules/message/destroy.service.ts:276-290 | said of rows and confirmations: a sweep purges exactly the rows of its page that enough people confirmed or that were marked longer ago than the fallback days |
| `PurgeTheorems.SweepClearsOrFills` | src/modules/message/destroy.service.ts:253-290 | a sweep clears the whole backlog of any older cutoff or 200 rows of it |
| `PurgeTheorems.BacklogOnlyShrinks` | src/modules/message/destroy.service.ts:253-255 | no step stamps a row in the past |
| `PurgeTheorems.SweepProgress` | src/modules/message/destroy.service.ts:253-295 | over any run, n sweeps leave at most k - 200 n of the k rows overdue at its start |
| `PurgeTheorems.OverdueRowsGo` | src/modules/message/destroy.service.ts:249-295 | after ceil(k / 200) sweeps everything that was overdue is a tombstone |
| `DissolveTheorems.OwnerDissolutionIsFinal` | src/modules/group/group.service.ts:296-317 | from an owner's dissolution on, in every continuation: no message of the conversation can be opened, none added, and the live ones stay gone; messages elsewhere are untouched by it |
| `DissolveTheorems.BurnedDownForGood` | src/modules/group/group.service.ts:288-317 | in every continuation none of its messages can be opened and none can be added |
| `DissolveTheorems.AdminDissolveOnlyCloses` | src/modules/group/group.service.ts:259-269 | an administrator's dissolution refuses new messages and leaves the old ones as they were |
| `DissolveTheorems.RecallCloses` | src/modules/message/message.service.ts:742-751 | a recall takes effect exactly for the author within 48 hours; then nobody can open, consume or edit the message |
| `DissolveTheorems.OriginalIsFilledOnce` | src/modules/message/message.service.ts:986-1001 | the original file is filled in once, by the author, and never replaced |
| `RowTheorems.WordsMoveExactly` | src/modules/message/message.service.ts:716-751 | in every step, what a message says changes only by its author: an edit of an ordinary message and a recall, within two days, and one fill-in of the original link |
| `RowTheorems.DeadlineMovesExactly` | src/modules/message/message.service.ts:600-606 | in every step, a deadline moves only by the first reveal of a copy, to the end of its window if that is later, and by the end of the conversation |
| `RowTheorems.MarksMoveExactly` | src/modules/admin/admin-message.service.ts:110-143 | in every step but a tick, a mark is set only by an administrator, on the one live message they name, and none moves |
| `ReadTheorems.ReadStaysRead` | src/modules/message/message.service.ts:840-849 | nothing in any run turns a read copy unread |
| `RowTheorems.CopyMovesExactly` | src/modules/message/message.service.ts:545-904 | in every step, a reader's copy changes only by the reader: opening, consuming, marking the conversation read up to a message, or marking listed messages, each exactly when allowed |
| `RowTheorems.CopiesComeExactly` | src/modules/message/message.service.ts:249-261 | a copy comes exactly with an accepted send, one for every member, or with a first reveal by a member without one |
| `RowTheorems.NewlyReadIsCounted` | src/modules/message/message.service.ts:850-904 | marking listed messages is accepted exactly for a member and 1 to 200 ids, and answers how many copies it turned read |
| `ReadTheorems.BulkMarkIsExact` | src/modules/message/message.service.ts:786-808 | a bounded mark reads exactly the caller's markable copies: nothing newer than the bound, no unopened burn message, no encrypted one, nobody else's |
| `ReadTheorems.WatermarkStep` | src/modules/message/message.service.ts:906-928 | in every step of every run a watermark that moves between existing rows does not move back |
| `WatermarkTheorems.StepFollows` | src/modules/message/message.service.ts:911-928 | a step moves a watermark exactly as its candidate and the existing row say, or drops it with the member |
| `WatermarkTheorems.CandidateIsNewest` | src/modules/message/message.service.ts:811-827 | the offered watermark is the newest message of the conversation up to the bound, or of the listed ones |
| `WatermarkTheorems.WatermarkWasSent` | src/modules/message/message.service.ts:911-928 | a watermark is always a message that exists or was purged |
| `WatermarkTheorems.WatermarkMovesBackExactly` | src/modules/message/message.service.ts:906-928 | over any run between two existing watermark rows, the later is older exactly if the watermark was lost at some moment (none, or its row purged) and everything offered from then on was older |
| `WatermarkTheorems.WatermarkMovesBackInARun` | src/modules/message/message.service.ts:911-928 | a reachable run in which it goes back from one existing message to an older existing one |
| `ReadTheorems.PurgedWatermarkYields` | src/modules/message/message.service.ts:923-925 | the watermark moves to a candidate exactly when the old one's row is gone or not newer |
| `ReadTheorems.UnreadAfterMarkAll` | src/modules/conversation/conversation.service.ts:77-94 | after marking everything read, the unread ones are exactly the live encrypted and unopened burn messages among those unread before |
| `ReadTheorems.SendRaisesByOne` | src/modules/message/message.service.ts:249-261 | a send raises the unread count by one for every other member and for nobody else |
| `ReadTheorems.GoneIsNeverUnread` | src/modules/conversation/conversation.service.ts:77-94 | a message that is marked, expired or purged is unread for nobody in any continuation |
| `ReadTheorems.NothingElseRaises` | src/modules/conversation/conversation.service.ts:77-94 | no other step raises anybody's unread count |
| `ListTheorems.PageIsTheNewest` | src/modules/message/message.service.ts:355-379 | the page is the newest of the rows asked for: a row that is missing is no newer than any on it, and the page is then full; only strangers are refused |
| `ListTheorems.LiveRowsAreListed` | src/modules/message/message.service.ts:308-348 | every live row of the page is listed: an ordinary message whole, an opened burn message whole with the reader's own time, an unopened one without a word, and left out exactly when the reader's time is over |
| `ListTheorems.BurnedAreListed` | src/modules/message/message.service.ts:440-536 | a marked message or a tombstone between two listed times is listed by what remains of it, unless its page is full of ones no older |
| `ViewTheorems.SortIsSort` | src/modules/message/message.service.ts:400-402 | the sort returns the same items in time order |
| `ViewTheorems.MergedParts` | src/modules/message/message.service.ts:379-402 | the page before tombstones holds the user's view and the gone rows of the page, each id once |
| `ViewTheorems.MergeIsCorrect` | src/modules/message/message.service.ts:350-536 | the list is in time order without repeated ids, contains the user's own view unchanged, and besides it only contentless stand-ins of marked rows or tombstones within the page's time range |
| `ViewTheorems.NonInterference` | src/modules/message/message.service.ts:286-409 | two databases that differ only in the content of destroyed, expired, unopened or run-out messages give the reader the same list |
| `ViewTheorems.ShownItemsAreOpen` | src/modules/message/message.service.ts:308-348 | an item that shows content is of a message open to the reader now; a blurred one carries none |
| `ViewTheorems.NeverShownAgain` | src/modules/message/message.service.ts:301-348 | once gone or run out, a message's content is never listed or opened for that reader again in any run |
| `MembershipTheorems.OwnershipAndCounts` | src/modules/group/group.service.ts:43-145 | in every reachable state a group or channel with members has exactly one owner row, its owner_id's; counts equal rows; no two undissolved channels of one owner; no two private conversations of one pair |
| `MembershipTheorems.OneOwnerEach` | src/modules/group/group.service.ts:43-85 | every group and channel has its one owner row, as long as no createGroup list repeats somebody |
| `MembershipTheorems.RepeatsLeaveNoOwner` | src/modules/group/group.service.ts:54-76 | createGroup leaves a group without an owner row exactly when its list repeats somebody |
| `RosterTheorems.MembershipMovesExactly` | src/modules/group/group.service.ts:43-145 | in every step, who belongs to a conversation is who belonged and did not leave (or was removed by its owner or an administrator), whom an owner added, who subscribed to a public channel, and who founded it |
| `RosterTheorems.ConversationMovesExactly` | src/modules/group/group.service.ts:259-468 | in every step, the owner changes only by a transfer among members, the visibility by the owner, and the closing happens once: by an administrator, the owner, or the end of the owner's account |
| `RosterTheorems.ConversationsComeExactly` | src/modules/group/group.service.ts:43-76 | a conversation comes exactly with a group, an owner's first channel, or a pair's first private conversation, and how it starts |
| `RosterTheorems.GroupRefusals` | src/modules/group/group.service.ts:87-139 | which group requests are refused, and that exactly those without the right are forbidden |
| `RosterTheorems.ChannelRefusals` | src/modules/channel/channel.service.ts:201-278 | the same for subscribing, unsubscribing and an owner's dissolution |
| `OwnershipTheorems.OwnerIsExactlyTheHeir` | src/modules/group/group.service.ts:343-390 | over every run the owner's role is held by the successor of the last accepted transfer, and by nobody else |
| `OwnershipTheorems.TransferMovesTheRole` | src/modules/group/group.service.ts:343-390 | an accepted transfer leaves one owner row, the successor's; the old owner stays, as a plain member, and the count does not change |
| `OwnershipTheorems.FormerOwnerHasNoSay` | src/modules/group/group.service.ts:343-390 | in every continuation in which nobody hands the group back to them, the former owner is not the owner, and adding members, dissolving and transferring are refused to them |
| `AuthTheorems.KeyIsInjective` | src/common/cache/auth-cache.service.ts:58-60 | different (user, device) pairs have different cache keys |
| `AuthTheorems.PrefixIsExact` | src/common/cache/auth-cache.service.ts:96-103 | clearing by the prefix "user:" hits that user's keys and nobody else's |
| `AuthTheorems.RunKeepsTrust` | src/common/guards/jwt-auth.guard.ts:79-119 | in every run each cache entry repeats the current account row, which is usable; without kicks its device exists |
| `AuthTheorems.CacheRefinesDatabase` | src/common/guards/jwt-auth.guard.ts:79-134 | over runs of logins with evictions, password changes and resets, status changes, deletions and device removals, the cached guard decides every request as a guard without cache would |
| `AuthTheorems.CacheDivergesExactlyOnKicks` | src/modules/admin/admin-message.service.ts:521-540 | with administrators' kicks in the run, the two differ exactly on requests of a deleted device whose entry is still live |
| `AuthTheorems.KickedDeviceIsAdmitted` | src/modules/admin/admin-message.service.ts:521-540 | a run of a guard request, a kick and up to the TTL of waiting after which the cached guard still admits the deleted device |
| `AuthTheorems.EntriesAreSourced` | src/common/cache/auth-cache.service.ts:75-83 | every cache entry was copied from the database at a moment of the run |
| `AuthTheorems.DecisionsAreRecent` | src/common/cache/auth-cache.service.ts:62-73 | every decision at t is the cacheless one at some moment of the run in [t - ttl, t], kicks included |
| `AccountTheorems.GuardDecidesExactly` | src/common/guards/jwt-auth.guard.ts:79-134 | in every run without kicks a request is admitted exactly for a registered device of an active, undeleted account that need not change its password or uses an exempt route; forbidden exactly if only the last fails; an admission carries the current columns |
| `AccountTheorems.GuardWithKicks` | src/common/guards/jwt-auth.guard.ts:79-134 | the same with kicks, where a deleted device with a live entry counts as registered |
| `AccountTheorems.GuardCachesExactly` | src/common/guards/jwt-auth.guard.ts:79-119 | what a guard request leaves in the cache: an entry no older than the TTL exactly for a device that was not turned away |
| `AccountTheorems.MustChangeFirst` | src/common/guards/jwt-auth.guard.ts:121-134 | from the moment an account must change its password until it has, no run admits it anywhere but at the exempt routes |
| `AccountTheorems.AccountMovesExactly` | src/modules/account/account.service.ts:136-207 | in every step, the forced change is set by a reset and cleared by a change with the right old password, the status follows the administrator, and an account is deleted only by another, and never an administrator |
| `AccountTheorems.AccountsComeExactly` | src/modules/account/account.service.ts:39-54 | an account comes exactly under a phone number nobody has, and must change its password |
| `AccountTheorems.DeviceMovesExactly` | src/modules/account/account.service.ts:161-207 | besides logins, a device goes away exactly by its owner, a kick, or the end of its account, and only its own heartbeats touch it |
| `AccountTheorems.LoginIsAdmittedExactly` | src/modules/auth/auth.service.ts:35-97 | who signs in: exactly the right password of an active, undeleted, unlocked account, unless an empty client id is taken; and as which device |
| `LoginTheorems.DeviceCap` | src/modules/auth/auth.service.ts:299-360 | after a login the account has min(n, max) devices, one under the single policy, the current one among them; the evicted were no more recently active than any other kept one and cannot be admitted from the cache |
| `LoginTheorems.RunStaysUnique` | src/modules/auth/auth.service.ts:68-97 | in every run (user, client id) names at most one device |
| `LoginTheorems.StepCounts` | src/modules/auth/auth.service.ts:54-66 | only logins touch the failure counter and the lock, and how |
| `LoginTheorems.CounterStaysSmall` | src/modules/auth/auth.service.ts:54-62 | the stored failure count stays in 0..4 over every run |
| `LoginTheorems.LockoutBound` | src/modules/auth/auth.service.ts:47-66 | in any stretch shorter than fifteen minutes without a right password, at most five wrong ones are checked, less those already counted |
| `LoginTheorems.LockHolds` | src/modules/auth/auth.service.ts:47-50 | while an account is locked not even the right password is looked at, and the lock does not move |
| `PresenceTheorems.SocketCountAtRest` | src/modules/events/events.gateway.ts:83-156 | in every interleaving of the statements, the count at rest is open sockets plus missed disconnects plus clamped decrements, so exact exactly when there are none; a device with a count is online |
| `PresenceTheorems.OrderedRunsCountExactly` | src/modules/events/events.gateway.ts:83-124 | if disconnects come after the handshake and decrements after their own increment, the count at rest is the number of open sockets |
| `PresenceTheorems.EarlyDisconnectLeaks` | src/modules/events/events.gateway.ts:105-109 | a disconnect during the handshake leaves a count without a socket |
| `PresenceTheorems.OvertakingDecrementLeaks` | src/modules/events/events.gateway.ts:111-124 | a decrement that overtakes its increment leaves a count without a socket |
| `PresenceTheorems.OfflineAtRestExactly` | src/modules/events/events.gateway.ts:83-156 | in every interleaving with heartbeats, sweeps and device requests, a device something was written to is offline at rest exactly if the last write was a disconnect's offline update or a sweep, and it has no open socket, no missed disconnect and no clamped decrement |
| `PresenceTheorems.LateOnlineUpdateWins` | src/modules/events/events.gateway.ts:83-90 | with every statement in order and the count exact, a disconnect handled between the two statements of the connection leaves the device online without a socket |
| `PresenceTheorems.EarlyOfflineUpdateMisses` | src/modules/events/events.gateway.ts:111-144 | so does an offline update that runs before the decrement |
| `PresenceTheorems.DeviceRowMovesExactly` | src/modules/events/events.gateway.ts:83-156 | what each statement writes: the count, the flag and the time of activity, and when each of them moves |
| `PresenceTheorems.SocketMovesExactly` | src/modules/events/events.gateway.ts:58-144 | a connection is authenticated exactly with a valid token of an existing device, and issues its closing statements exactly if it is closed after that |
| `PresenceTheorems.SweepIsExact` | src/modules/auth/presence.scheduler.ts:35-55 | a sweep takes n stale devices to max(0, n - 500), touches no other, and with at most 500 leaves only online devices that have a count or were active within the TTL |
| `PresenceTheorems.OnlineMeansPresent` | src/modules/auth/presence.scheduler.ts:11-19 | swept at rest after ordered statements, an online device has an open socket or was active within the TTL |
| `Grouping.BucketsPartition` | src/modules/message/burn.scheduler.ts:124-130 | grouping by key partitions the rows: each in its own bucket, in no other, once |
| `Grouping.GroupBy` | src/modules/auth/presence.scheduler.ts:57-63 | the grouping loop builds exactly those buckets, none empty |
| `Query.Fetch` | src/modules/message/burn.scheduler.ts:105-111 | picks a page: the least keys in order, at most the limit, no row twice |
| `Query.PageThreshold` | src/modules/message/destroy.service.ts:262-271 | of the rows under a threshold either all are on the page or the page is full of them |
| `Query.PageTakes` | src/modules/message/burn.scheduler.ts:105-111 | a page takes min(limit, n) of n rows |
| `MessageServices.MessageService.SendMessage` | src/modules/message/message.service.ts:155-283 | performs that step of the run model, and returns its outcome |
| `MessageServices.MessageService.StartCountdown` | src/modules/message/message.service.ts:580-606 | starts the caller's countdown and pushes the message's deadline back if it would come first |
| `MessageServices.MessageService.RevealMessage` | src/modules/message/message.service.ts:545-633 | performs that step of the run model, and returns its outcome |
| `MessageServices.MessageService.ConsumeMessage` | src/modules/message/message.service.ts:646-714 | performs that step of the run model, and returns its outcome |
| `MessageServices.MessageService.EditMessage` | src/modules/message/message.service.ts:716-740 | performs that step of the run model, and returns its outcome |
| `MessageServices.MessageService.RecallMessage` | src/modules/message/message.service.ts:742-751 | performs that step of the run model, and returns its outcome |
| `MessageServices.MessageService.UpdateOriginalFile` | src/modules/message/message.service.ts:992-1001 | performs that step of the run model, and returns its outcome |
| `MessageServices.MessageService.ApplyBurnView` | src/modules/message/message.service.ts:308-348 | the loop computes the per-user view, in order, run-out copies skipped |
| `MessageServices.MessageService.TimesOf` | src/modules/message/message.service.ts:471-478 | the earliest and latest time of a page, both taken on |
| `MessageServices.MessageService.TimesAreEnds` | src/modules/message/message.service.ts:469-481 | on a sorted page those are the times of its ends |
| `MessageServices.MessageService.PushUnseen` | src/modules/message/message.service.ts:517-531 | the seen-set loop keeps the first candidate of every id not on the page |
| `MessageServices.MessageService.AttachTombstones` | src/modules/message/message.service.ts:464-536 | merges both kinds of burned messages of the time range into the page |
| `MessageServices.MessageService.ListMessages` | src/modules/message/message.service.ts:350-409 | answers a list request as specified, for pages the database may return |
| `MessageServices.MessageService.AdvanceLastRead` | src/modules/message/message.service.ts:911-928 | the watermark UPDATE |
| `MessageServices.MessageService.MarkAsRead` | src/modules/message/message.service.ts:769-838 | performs that step of the run model, and returns its outcome |
| `MessageServices.MessageService.MarkMessagesRead` | src/modules/message/message.service.ts:850-904 | performs that step of the run model, and returns its outcome, the number of copies newly read |
| `DestroyServices.DestroyService.ListPending` | src/modules/message/destroy.service.ts:67-95 | a page of the marked rows the member has not confirmed, oldest mark first |
| `DestroyServices.DestroyService.MeetsPurgePolicy` | src/modules/message/destroy.service.ts:174-199 | decides the policy |
| `DestroyServices.DestroyService.Purge` | src/modules/message/destroy.service.ts:205-247 | purges a marked row from all five tables, and nothing when it is absent or unmarked |
| `DestroyServices.DestroyService.UpsertAcks` | src/modules/message/destroy.service.ts:142-151 | records one confirmation per listed row |
| `DestroyServices.DestroyService.PurgeConfirmed` | src/modules/message/destroy.service.ts:153-160 | purging in turn, each check after the purges before it, purges exactly the rows that met the policy at the start |
| `DestroyServices.DestroyService.Ack` | src/modules/message/destroy.service.ts:109-167 | performs that step of the run model, and returns its outcome |
| `DestroyServices.DestroyService.PurgeConfirmedOrExpired` | src/modules/message/destroy.service.ts:253-295 | performs a sweep; acked + expired is the number of rows removed, acked the number of those confirmed well enough |
| `DestroyServices.BurnScheduler.MarkBatch` | src/modules/message/burn.scheduler.ts:97-150 | marks a page of the rule's rows without overwriting a stamp, and groups the selected ids by conversation into exact, non-empty lists |
| `DestroyServices.BurnScheduler.MarkDestroyed` | src/modules/message/burn.scheduler.ts:45-73 | performs a tick: R1, then R2 on what R1 left; the total counts both |
| `DestroyServices.BurnScheduler.PurgeSweep` | src/modules/message/burn.scheduler.ts:81-91 | performs a sweep |
| `DestroyServices.AdminMessageService.ManualDestroy` | src/modules/admin/admin-message.service.ts:110-143 | performs that step of the run model, and returns its outcome, whether it was marked already |
| `ConversationServices.GroupService.CreateGroup` | src/modules/group/group.service.ts:43-85 | performs that step of the run model, and returns its outcome |
| `ConversationServices.GroupService.AddMembers` | src/modules/group/group.service.ts:87-111 | performs that step of the run model, and returns its outcome |
| `ConversationServices.GroupService.RemoveMember` | src/modules/group/group.service.ts:115-145 | performs that step of the run model, and returns its outcome |
| `ConversationServices.GroupService.TransferOwnership` | src/modules/group/group.service.ts:343-390 | performs that step of the run model, and returns its outcome; a missing row rolls the transaction back |
| `ConversationServices.GroupService.DissolveGroup` | src/modules/group/group.service.ts:263-269 | performs that step of the run model, and returns its outcome |
| `ConversationServices.GroupService.Burn` | src/modules/group/group.service.ts:303-317 | the transaction: stamps the conversation and expires its unmarked messages |
| `ConversationServices.GroupService.DissolveGroupByOwner` | src/modules/group/group.service.ts:296-317 | performs that step of the run model, and returns its outcome |
| `ConversationServices.GroupService.BurnEach` | src/modules/group/group.service.ts:427-465 | the cascade loop burns down every listed group but the failing ones and counts them |
| `ConversationServices.GroupService.DissolveGroupsOnAccountDelete` | src/modules/group/group.service.ts:421-468 | performs that step of the run model, and returns its outcome; the counters are owned and dissolved groups |
| `ConversationServices.ChannelService.CreateChannel` | src/modules/channel/channel.service.ts:51-83 | performs that step of the run model, and returns its outcome |
| `ConversationServices.ChannelService.Subscribe` | src/modules/channel/channel.service.ts:201-224 | performs that step of the run model, and returns its outcome |
| `ConversationServices.ChannelService.Unsubscribe` | src/modules/channel/channel.service.ts:227-247 | performs that step of the run model, and returns its outcome |
| `ConversationServices.ChannelService.DissolveChannel` | src/modules/channel/channel.service.ts:257-278 | performs that step of the run model, and returns its outcome |
| `ConversationServices.ConversationService.GetOrCreatePrivateConversation` | src/modules/conversation/conversation.service.ts:19-55 | performs that step of the run model, and returns its outcome: a private conversation both share |
| `ConversationServices.ConversationService.ListMyConversations` | src/modules/conversation/conversation.service.ts:57-96 | every undissolved conversation of the caller with the size of its unread set |
| `AuthServices.AuthCacheService.Get` | src/common/cache/auth-cache.service.ts:63-73 | returns a live entry and deletes an expired one it finds |
| `AuthServices.AuthCacheService.Set` | src/common/cache/auth-cache.service.ts:76-83 | stores the context with the current time, unless the cache is off |
| `AuthServices.AuthCacheService.Invalidate` | src/common/cache/auth-cache.service.ts:92-112 | clears one device, one user or everything, and returns how many entries went |
| `AuthServices.AuthCacheService.DropByPrefix` | src/common/cache/auth-cache.service.ts:96-103 | the loop removes exactly the keys with the prefix and counts them |
| `AuthServices.JwtAuthGuard.CanActivate` | src/common/guards/jwt-auth.guard.ts:79-142 | decides as the guard specification and leaves the cache it says |
| `AuthServices.AuthService.Evict` | src/modules/auth/auth.service.ts:317-325 | the loop deletes each device and its cache entry |
| `AuthServices.AuthService.ApplySessionPolicy` | src/modules/auth/auth.service.ts:299-360 | evicts what the policy says from the other devices, most recently active first |
| `AuthServices.AuthService.SaveDevice` | src/modules/auth/auth.service.ts:77-97 | updates the known row or inserts one, unless the unique index refuses it |
| `AuthServices.AuthService.CountFailure` | src/modules/auth/auth.service.ts:55-62 | counts a failure; the fifth locks for fifteen minutes and starts over |
| `AuthServices.AuthService.RegisterDevice` | src/modules/auth/auth.service.ts:66-97 | resets the counters and saves the device row; the counters stay reset when the row is refused |
| `AuthServices.AuthService.AdmitDevice` | src/modules/auth/auth.service.ts:66-117 | what a right password does |
| `AuthServices.AuthService.Login` | src/modules/auth/auth.service.ts:35-117 | a login as specified, with its outcome |
| `AuthServices.AuthService.ChangePassword` | src/modules/auth/auth.service.ts:145-160 | clears the forced change and the user's cache entries, or refuses |
| `AuthServices.AuthService.RemoveDevice` | src/modules/auth/auth.service.ts:235-238 | deletes the caller's device row and its cache entry |
| `AuthServices.AuthService.Heartbeat` | src/modules/auth/auth.service.ts:252-268 | refreshes the caller's own device, or refuses |
| `AuthServices.AccountService.CreateAccount` | src/modules/account/account.service.ts:39-54 | adds a usable account that must change its password, unless the phone number is taken |
| `AuthServices.AccountService.ResetPassword` | src/modules/account/account.service.ts:136-148 | forces a password change and clears the user's cache entries |
| `AuthServices.AccountService.ToggleAccountStatus` | src/modules/account/account.service.ts:161-180 | sets the status, drops the devices of a disabled account, clears its cache entries |
| `AuthServices.AccountService.SoftDeleteAccount` | src/modules/account/account.service.ts:192-207 | deletes an account that is neither the operator's nor an administrator's, with its devices and cache entries |
| `AuthServices.AccountService.ForceOfflineDevice` | src/modules/admin/admin-message.service.ts:521-527 | deletes the device row and leaves the cache alone |
| `PresenceServices.EventsGateway.FinishHandshake` | src/modules/events/events.gateway.ts:58-81 | the device id is set only for a valid token of an existing device |
| `PresenceServices.EventsGateway.IncrementCount` | src/modules/events/events.gateway.ts:84-85 | one statement: the count goes up |
| `PresenceServices.EventsGateway.SetOnline` | src/modules/events/events.gateway.ts:86-90 | one statement: online, active now |
| `PresenceServices.EventsGateway.HandleDisconnect` | src/modules/events/events.gateway.ts:105-144 | issues the two statements only if the device id is set |
| `PresenceServices.EventsGateway.DecrementCount` | src/modules/events/events.gateway.ts:111-124 | one statement: the count goes down, not below zero |
| `PresenceServices.EventsGateway.SetOfflineIfIdle` | src/modules/events/events.gateway.ts:137-151 | one statement: offline if the count is zero, announced exactly if something changed |
| `PresenceServices.PresenceScheduler.SweepOffline` | src/modules/auth/presence.scheduler.ts:35-63 | performs a sweep and groups the swept devices by user into exact, non-empty lists |

## Left out

- Rounding of stored times to whole seconds by DATETIME columns: the state machine keeps whole milliseconds; what rounding does to the time shown is `ShownTimeTheorems.RoundingAddsAtMostASecond`.
- Races between whole requests other than rule R1's SELECT and UPDATE and the gateway's statements: every other request, tick and sweep is one atomic step. The guard's query and its cache write are one step too.
- Statements that fail, connections that drop in the middle of a request, lost disconnect events. In the account-deletion cascade the failing groups are a parameter.
- The SQL text, TypeORM and MySQL: queries are maps and sets with their WHERE, ORDER BY, LIMIT and unique keys. The columns `last_message_at`, `acked_at` and `device_id` of a confirmation, names, descriptions and avatars are not stored.
- Password hashing, token signing and UUIDs: whether the password matches, the payload of a valid token and the fresh ids are parameters. Missing or invalid tokens, public routes and the refresh of tokens are not part of this model.
- Parsing of environment variables and of date strings: the settings already satisfy the defaults, request dates are instants.
- Broadcasts, push notifications, audit log and logging, except how the two schedulers group what they broadcast.
- Attachments, thumbnails, object storage, and their deletion after a purge.
- Full-text search, snippets, statistics, admin listings, contacts, keys, announcements, feedback, app versions, burn settings: thin queries. The resolved ttl is an input of send.
- Of updating a channel only its visibility is modelled, as a step of the run model without a method of its own.
- ConversationServices.ConversationService.ListMyConversations: does not model the order by last message and the other user's profile of a private conversation.
- The flags of a listed message that follow from its kind of item.
- AuthServices.AuthService.Heartbeat: does not model `is_online`, `online_at` and `offline_at`, which the presence model keeps.
- AuthServices.AuthService.Login: does not model device names, types and online columns, the notices to other devices, or the token pair it returns.
- AuthServices.AccountService.SoftDeleteAccount: the cascade over the owner's groups is `GroupService.DissolveGroupsOnAccountDelete`, on the chat tables.
- PresenceServices.PresenceScheduler.SweepOffline: its SELECT and UPDATE are one step; a connection between them could be put offline although it counts.
