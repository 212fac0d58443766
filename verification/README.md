# CancelChain: what the cache, the feed and the pushes keep

CancelChain shows a wallet the permissions it gave merchants on chain, and lets it cancel them. Its core is a
replicated cache: an indexer follows the program's log with resume cursors and feeds a store of slot-guarded rows and
idempotent feed rows; the feed is paged by key, pushed live over lossy streams that say when they lost something, and
announced by Web Push. This project models those parts and proves the promises their comments make.

Where the source changes state, the model is a class whose methods are proved against a step function on values; the
promises are lemmas about every run of that function. One event of a step machine is one stretch of code between two
awaits. Database tables are maps, a database transaction is one step, and everything from outside (the node, the
database failing, clocks, push services, browsers) is a parameter or an event that may come at any moment.

| file | component |
|---|---|
| `LogIndexer`, `LogProgress`, `LogLoop`, `TransactionReader` | the log loop: its step machine, what it gets on with, the loops and classes that refine it, and when a transaction is given up |
| `WalletPoller` | the polling fallback, one cursor per address |
| `TransactionDecoder`, `FeedStore`, `PermissionStore` | one transaction to events, events to feed rows, chain reads to cached rows |
| `ChainRead`, `PermissionList`, `CancelWindow` | plans of subscriptions, list and card, the promise before cancelling |
| `PushNotifier`, `SingleFlight`, `Retention` | claims of pushes, coalesced calls, deletion of what is old |
| `FeedPaging`, `StreamHub`, `StreamOutbox`, `RateLimiter` | the API's feed, its streams, its limiter |
| `EventCodec`, `SubscribeReview`, `ShellCache`, `ImportClosure` | event bytes, the subscribe screen, the service worker's cache, the first-screen set |

`dafny verify dfyconfig.toml` checks all of it.

## Promises that hold under a condition

Eleven promises of the source are not unconditional. Each is shown to break for an input, and has its exact condition.

1. *No silent gap* starts at the anchor. A process that anchors on an empty history, or dies before its first cursor is
   stored, leaves history out without a word (`LogIndexer.EmptyAnchorIsCompleteIff`, `RestartBeforeCursorIsCompleteIff`).
   Whatever any run loses was passed by such a start (`LostWasPassed`); what a start without a stored cursor passes is
   lost for good, and for runs of such starts the two coincide (`PassedIsLost`, `SilentlyLostIff`). With a cursor stored
   a later crash can still bring it back (`CursorBringsBack`).
2. *Cache rows converge* only once a row exists: a close that arrives first is forgotten. A set of reads converges from
   nothing, in every order, exactly when none is open or each close is older than some open read
   (`PermissionStore.MissingRowConvergesIff`; `TwoReadsConvergeIff` names the pairs that break it).
3. *A tracked permission's event has its row*, except for a closed authority after a refresh has already read the
   permission as revoked (`FeedStore.ClosureAfterRefreshLeavesNoRow`).
4. *At most once* fails when a push service takes a push whose answer times out: the sender reports `unreachable`, the
   claim is given back, and the next pass sends it again (`PushNotifier.LostAnswerSendsTwice`).
5. *At most once per browser* fails for a browser that unsubscribes and subscribes again: its claims go with the old row,
   and the scan of charges due does not ask since when a row is there (`PushNotifier.ResubscribedHearsTwice`). Only a
   removed row and a new one lead there (`SecondRowNeedsResubscription`), and the bound is one per such row
   (`AtMostOncePerBrowser`).
6. *A failed round moves no cursor* fails when the database fails while cursors are being moved
   (`WalletPoller.FailedRoundCanMoveCursors`): then exactly the addresses before the failing one have moved
   (`PollWallet`), none if and only if none of those had anything new (`FailedRoundMovesNoneIff`).
7. *A subscription's plan is proved by derivation with its own subscriber* fails for a call that mixes wallets
   (`ChainRead.MixedSubscribersCanDiffer`, `MixedSubscribersResolveTheirOwnIff`). Both callers in the repository, the
   list and the card, pass one wallet, and there it holds (`OneSubscriberResolvesItsOwn`).
8. *List and card agree* holds with the full plan scan (`PermissionList.ListAndCardAgree`) and can fail without it
   (`WithoutScanListAndCardCanDiffer`, `WithoutScanListAndCardDifferIff`). The scan is on by default, and only tests
   switch it off.
9. *A version switch keeps the replaced version's files* fails after an interrupted switch
   (`ShellCache.InterruptedSwitchDropsDrawnFiles`, `SwitchKeepsTheReplacedIff`).
10. *At most `limit` requests per window* fails for a limit below one, and for no other
    (`RateLimiter.BoundHoldsIffLimitIsPositive`).
11. *What is built reads back* fails for the sentinel given as a known authority id, and for no other id
    (`SubscribeReview.BuiltReadsBackIff`).

*The builder never disagrees with the chain* has a condition that is always met: a mismatch needs a creation time with a
part of a second (`SubscribeReview.ReviewSubscription`), and the chain's are whole seconds.

## Model

| member | source | states |
|---|---|---|
| `LogIndexer.NoSilentGap` | apps/indexer/src/subscribe.ts:298-487 | in every run of connects, drops, sweeps, failures, crashes and restarts, everything after the starting point up to `last`, up to the stored cursor and up to what a live stream delivered was stored or named in an error log |
| `LogIndexer.StepKeepsInv` | apps/indexer/src/subscribe.ts:316-487 | the invariant behind it, for each await-to-await step: also the sweep queued behind the stream and a replay half done |
| `LogIndexer.LostWasPassed` | apps/indexer/src/subscribe.ts:430-448 | whatever is behind a run and neither stored nor reported was passed, unhandled, by a step that anchors or subscribes with nothing seen; if it landed after some step, by a later one |
| `LogIndexer.PassedIsLost` | apps/indexer/src/subscribe.ts:430-448 | what such a start passes while no cursor is stored is never stored or reported, whatever follows |
| `LogIndexer.SilentlyLostIff` | apps/indexer/src/subscribe.ts:430-448 | for runs whose starts find no cursor, a transaction behind the process is neither stored nor reported exactly when a start passed it |
| `LogIndexer.CursorBringsBack` | apps/indexer/src/subscribe.ts:316-333 | with a cursor left by a sink that committed and threw, a passed transaction is stored after a crash: the condition above is needed |
| `LogIndexer.AnchoredRunsKeepTheirStart` | apps/indexer/src/worker.ts:169-171 | once a cursor is stored and `last` known, no crash or restart moves the starting point |
| `LogIndexer.ReportedIff` | apps/indexer/src/subscribe.ts:221-240 | exactly what the error log names: what was given up when handled, and what a catch-up or sweep left beyond its ten thousand |
| `LogIndexer.NothingReportedWithoutCause` | apps/indexer/src/subscribe.ts:346-370 | the error log is no escape: when each catch-up and sweep starts within its pages and nothing is given up, nothing is reported, so all is stored, however long the history |
| `LogIndexer.EmptyAnchorIsCompleteIff` | apps/indexer/src/subscribe.ts:435-448 | anchoring on an empty history loses exactly what lands before the subscription opens |
| `LogIndexer.RestartBeforeCursorIsCompleteIff` | apps/indexer/src/worker.ts:169-171 | dying before the first cursor loses exactly what landed since the anchor |
| `LogProgress.LastKeepsUp` | apps/indexer/src/subscribe.ts:326-330 | in every run `last` is at or past the slot of all that was handled since the process started, and a new process starts at or past all that was ever stored |
| `LogProgress.ConnectReachesTheHead` | apps/indexer/src/subscribe.ts:424-460 | a connect nothing interrupts stores all after `last`, ten pages at most, passes it, and follows the stream from the head |
| `LogProgress.SweepsFromLast` | apps/indexer/src/subscribe.ts:404-421 | a sweep is queued from `last` and leaves nothing after it unhandled |
| `LogProgress.ThrownIsReadAgain` | apps/indexer/src/subscribe.ts:455-487 | a transaction whose read or sink throws ends the stream, and the connect after it handles it |
| `LogProgress.RecentAreTheNewest` | apps/indexer/src/subscribe.ts:158-177 | the recent signatures are exactly the last 5000 of those added |
| `LogLoop.CollectMissed` | apps/indexer/src/subscribe.ts:344-370 | the paging returns the whole gap, or its newest ten thousand and the point where it breaks off, whatever lands between pages |
| `LogLoop.RecentSignatures.Add` | apps/indexer/src/subscribe.ts:158-177 | set and queue agree, and hold the newest 5000 distinct signatures |
| `LogLoop.LogProcess.HandleItem` | apps/indexer/src/subscribe.ts:316-333 | one transaction through `handle`, field by field: what is stored and named, and that `last` and the cursor move to it unless that goes back in slots; one seen lately changes nothing |
| `LogLoop.LogProcess.CatchUp` | apps/indexer/src/subscribe.ts:340-382 | a catch-up or sweep is the machine's read step followed by its replay steps |
| `LogLoop.LogProcess.Replay` | apps/indexer/src/subscribe.ts:377-381 | the replay loop, oldest first until one throws, is the run of replay steps |
| `LogLoop.LogProcess.MoveCursor` | apps/indexer/src/store.ts:264-284 | the stored cursor never moves back in slots, and is at or past the slot just stored |
| `TransactionReader.RefusalsAreInvisible` | apps/indexer/src/subscribe.ts:207-242 | rate limits and outages between reads change no other read's result |
| `TransactionReader.SkippedOnlyAtThirdFault` | apps/indexer/src/subscribe.ts:207-240 | over any reads of a transaction, each is a skip exactly when the node does not have it, or at a third fault of its own since it was last decoded, not served or skipped |
| `TransactionReader.Reader.Read` | apps/indexer/src/subscribe.ts:196-242 | the failure counts after a read, of this signature and of all others |
| `WalletPoller.WalletPoller.Collect` | apps/indexer/src/poll.ts:117-143 | one address after its cursor: everything is returned, behind the first-read cut, or named as lost; nothing old is returned, and only what lies behind ten full pages is named as lost |
| `WalletPoller.WalletPoller.StoreAll` | apps/indexer/src/poll.ts:174-189 | what was found, each once and oldest slot first, is handled in exactly that order until one throws |
| `WalletPoller.WalletPoller.PollWallet` | apps/indexer/src/poll.ts:158-196 | cursors stay sound for any overlapping addresses, each against the cut of its first read; what was found is handled one by one, oldest slot first, until one throws, and nothing else is stored or given up; only what is out of reach is named as lost; cursors move only after everything found was handled, and then exactly a prefix to their newest; `synced_at` moves only after all were read to the head; nothing failing, the round completes |
| `WalletPoller.FailedRoundMovesNoneIff` | apps/indexer/src/poll.ts:190-194 | when moving cursors fails, the cursors are as before exactly when no address before the failing one had anything new |
| `WalletPoller.FailedRoundCanMoveCursors` | apps/indexer/src/poll.ts:190-194 | two addresses with news, the second write fails: the first cursor has moved |
| `WalletPoller.WalletPoller.Poll` | apps/indexer/src/poll.ts:198-239 | over any rounds with any failures, everything at or before an address's cursor was stored, reported or before the cut of the round that first moved it; no cursor goes back; some round accounts for each row stored or reported; and a round in which nothing failed has caught up to its start, for good |
| `WalletPoller.WalletPoller.AdvanceAll` | apps/indexer/src/poll.ts:190-194 | exactly the cursors before the failing one move to their heads, every one stays sound, and the cuts are those of first reads |
| `WalletPoller.CutIsExactWhenTimesAreKnown` | apps/indexer/src/poll.ts:118-135 | with known, ordered block times the first read leaves out exactly what is older than the cut |
| `WalletPoller.KeptExactly` | apps/indexer/src/poll.ts:129-131 | of a page exactly what is known to be older than the cut is left out; what has no block time is kept |
| `WalletPoller.HandledSoFar` | apps/indexer/src/poll.ts:174-189 | up to the first throw each transaction is stored or named as given up, and a commit before a throw counts |
| `TransactionDecoder.PositionsAreExecutionOrder` | apps/indexer/src/decode.ts:272-288 | an event's position is the number of instructions executed before it; no two share one |
| `TransactionDecoder.AllInstructions` | apps/indexer/src/decode.ts:272-288 | the loop lists each top-level instruction followed by its calls |
| `TransactionDecoder.DecodeTransaction` | apps/indexer/src/decode.ts:553-646 | by content: of what went through, the program's events and the changes its instructions make; of a failed one, the charges tried where the refusal is visibly ours; each once, at its own position, and no other; the problems are exactly the data of ours that reads as nothing, in order, or the one unattributed refusal |
| `TransactionDecoder.DecodingIsDeterministic` | apps/indexer/src/decode.ts:553-646 | that leaves no choice: a replayed transaction decodes to the same events |
| `TransactionDecoder.DecodeFailed` | apps/indexer/src/decode.ts:570-613 | of a failed transaction only refused charges of ours are left, and a problem is named exactly when a charge was refused and not visibly by us |
| `FeedStore.PermissionsUnder` | apps/indexer/src/store.ts:459-483 | with one derivation per mint remembered: exactly the live permissions under the authority, none twice |
| `FeedStore.Store.LookUp` | apps/indexer/src/store.ts:181-186 | each closure of the transaction is given exactly the live permissions under its authority |
| `FeedStore.RowsNeverCollide` | apps/indexer/src/store.ts:211-238 | no two rows of one transaction meet on (signature, position, permission), and the rows are exactly what its events ask for |
| `FeedStore.FeedIsExactlyWhatWasTracked` | apps/indexer/src/store.ts:142-301 | over any interleaving of writes, replays and refreshes, a row exists exactly when some write of its transaction committed with the permission tracked (for a closure: and live when looked up); it never changes and says what the chain's event says |
| `FeedStore.TrackedEventHasItsRow` | apps/indexer/src/store.ts:240-262 | an event naming a tracked permission - any but a plan's update and a closing - has exactly one row, its own, whatever came before and comes after |
| `FeedStore.ClosureHasItsRows` | apps/indexer/src/store.ts:224-238 | each permission a closing was found to take down, tracked at the commit, has a row that names the authority |
| `FeedStore.ClosureAfterRefreshLeavesNoRow` | apps/indexer/src/store.ts:181-186 | the lookup passes over a permission already read as revoked, and the closure leaves no row |
| `FeedStore.Store.Commit` | apps/indexer/src/store.ts:204-299 | both tables after a write, and each tracked row is either inserted or a duplicate |
| `PermissionStore.WritesKeepTheRow` | apps/indexer/src/store.ts:412-452 | a row never disappears, its slot never falls, and it is paused exactly when `pausedAt` is set |
| `PermissionStore.NewestWins` | apps/indexer/src/store.ts:412-452 | a row is untouched by older reads and otherwise reflects its newest |
| `PermissionStore.ReadsConverge` | apps/indexer/src/store.ts:412-452 | any two orders and repetitions of the same reads leave the same slot, the same status but for the pause label, and the same network fields when the newest read is open |
| `PermissionStore.LabelSurvivesIff` | apps/indexer/src/store.ts:434-441 | the pause label survives exactly when every read that took effect was active |
| `PermissionStore.MissingRowConvergesIff` | apps/indexer/src/store.ts:446-452 | without a row, all orders and repetitions of a set of reads leave the same row exactly when none of them is open, or each close is older than some open read |
| `PermissionStore.TwoReadsConvergeIff` | apps/indexer/src/store.ts:446-452 | for one open and one closed read, also of one slot: exactly when the close is the older, or the open read is revoked at its slot |
| `PermissionStore.AllowanceTable.UpsertAllowance` | apps/indexer/src/store.ts:412-444 | field by field: a new row is the read, a newer row stays, and else the read replaces all but the label and its status, which an active read keeps; no other row changes |
| `PermissionStore.AllowanceTable.MarkRowClosed` | apps/indexer/src/store.ts:446-452 | closing revokes a row no newer than it, takes its label off and keeps the network's fields; it never creates one, and touches no other |
| `PermissionStore.AllowanceTable.Refresh` | apps/indexer/src/store.ts:371-381 | each row is its own reads applied in order; the answer is what the chain showed open |
| `ChainRead.ReadAccounts` | packages/chain/src/read.ts:239-289 | reading in batches of 100 equals one unlimited read |
| `ChainRead.IndexPlans` | packages/chain/src/read.ts:377-389 | every derived address maps to its own plan and mint, and every plan and subscriber has one |
| `ChainRead.ResolvePlanRefs` | packages/chain/src/read.ts:357-375 | the direct lookup with the full scan behind it gives every subscription the plan a scan of everything would, or none, whatever `delegatee` holds |
| `ChainRead.OneSubscriberResolvesItsOwn` | packages/chain/src/read.ts:365-374 | for one wallet's subscriptions that plan derives the address with the subscription's own subscriber |
| `ChainRead.MixedSubscribersResolveTheirOwnIff` | packages/chain/src/read.ts:382-388 | with several wallets it does so unless the address derives with another listed subscriber |
| `ChainRead.MixedSubscribersCanDiffer` | packages/chain/src/read.ts:382-388 | and that happens: one plan, two wallets |
| `PermissionList.AuthorityStates` | packages/chain/src/read.ts:406-456 | each permission's authority is live, closed or rotated, as reading its own authority account would say |
| `PermissionList.Convert` | packages/chain/src/read.ts:540-575 | cards and refusals are the verdicts, split by kind, in order, each what the chain's fields say: every field of the card, or the reason for the refusal |
| `PermissionList.DeadAuthorityRevokes` | packages/chain/src/read.ts:564-567 | a card is revoked when its authority's address holds no authority of the program or one with another init id, and else has the account's own status |
| `PermissionList.ReadAllowances` | packages/chain/src/read.ts:488-537 | with or without the full plan scan every account of the wallet ends as exactly one card or one named refusal, sorted, field by field what the chain says of it by its own plan, if that is within reach |
| `PermissionList.ReadAllowance` | packages/chain/src/read.ts:609-657 | the card, or the refusal, is what the chain's fields say of the account by its own plan, as in the list; nothing for an address without an account of the program |
| `PermissionList.ListAndCardAgree` | packages/chain/src/read.ts:357-375 | with the full scan the list shows each account as its card does, by its own plan |
| `PermissionList.WithoutScanListAndCardDifferIff` | packages/chain/src/read.ts:371-374 | without it they show an account differently exactly when it is a subscription of this version that does not point at its own plan while another listed one does |
| `PermissionList.WithoutScanListAndCardCanDiffer` | packages/chain/src/read.ts:371-374 | and that happens: a plan and two subscriptions of one wallet, where the list shows a card and the card is refused |
| `CancelWindow.NeverMoreThanPromised` | packages/chain/src/revoke.ts:266-291 | whatever is pulled between now and the promised end, the pull that rolls the period included, the total is at most what was promised |
| `CancelWindow.PromiseIsTight` | packages/chain/src/revoke.ts:279-290 | one pull right now can take all of it |
| `CancelWindow.RollingForwardChangesNothing` | packages/chain/src/revoke.ts:245-251 | rolling the recorded start forward by whole elapsed periods changes nothing of the promise |
| `CancelWindow.WindowIsTheCurrentPeriod` | packages/chain/src/revoke.ts:266-291 | the window is the period the clock is in, whole periods after the recorded start; what was taken in one that is over does not count |
| `CancelWindow.RevokeActionSays` | packages/chain/src/revoke.ts:231-239 | a direct permission is closed at once; a subscription is cancelled, then waits for its end, and from exactly then on is closed |
| `CancelWindow.ClosedOnlyWhenNothingCanBePulled` | packages/chain/src/revoke.ts:231-239 | closing a subscription is offered only when no later pulls take anything; with an end in whole seconds and something left of the period, exactly then |
| `PushNotifier.AtMostOnce` | apps/indexer/src/notify.ts:287-344 | over any interleaving of workers, crashes, retries, unsubscriptions and retention, an occasion is taken at most once per subscription row plus once per lost answer, and at most one worker holds a claim |
| `PushNotifier.AtMostOncePerBrowser` | apps/indexer/src/notify.ts:29-34 | a browser is sent an occasion at most once for each of its rows that may hear of it, plus once per lost answer |
| `PushNotifier.SecondRowNeedsResubscription` | apps/api/src/push.ts:33-61 | two rows of a browser heard of one occasion only if the first was removed before the second was inserted, and the occasion is a charge due or a refusal no older than the second row |
| `PushNotifier.ResubscribedHearsTwice` | apps/indexer/src/notify.ts:187-220 | for any charge due, unsubscribing and subscribing again has it announced twice, with every answer told |
| `PushNotifier.StepKeepsInv` | apps/indexer/src/notify.ts:287-356 | what each await-to-await step of claim, send and release keeps |
| `PushNotifier.AtMostOnceWhenAnswersArrive` | packages/db/src/schema.ts:262-268 | at most once per subscription row, when no answer of a taken push is lost |
| `PushNotifier.LostAnswerSendsTwice` | packages/push/src/send.ts:91-107 | for any due occasion, a push taken as the request times out is sent again |
| `PushNotifier.ClaimsLeaveOnlySo` | apps/indexer/src/notify.ts:306-343 | a claim leaves only after `unreachable`, with its subscription, or by retention when no pass can hold its occasion |
| `PushNotifier.RetainKeepsInv` | apps/indexer/src/retention.ts:82-88 | deleting claims older than 90 days reopens no occasion |
| `PushNotifier.DueOnlyInItsWindow` | apps/indexer/src/notify.ts:60-63 | both scans find an occasion only inside a window of at most 30 days; a short period is announced within a quarter of itself |
| `PushNotifier.EveryChargeIsAnnounced` | apps/indexer/src/notify.ts:60-63 | a charge is due from exactly its lead - a quarter of a short period - until it happens |
| `PushNotifier.ListedExactly` | apps/indexer/src/notify.ts:140-226 | what a scan lists: a row that is there, a refusal of the last day no older than the row, a charge within its lead |
| `PushNotifier.SaveSays` | apps/api/src/push.ts:33-43 | saving a browser leaves it one more or the same row, created now, and touches no other row and no claim |
| `PushNotifier.UninterruptedDelivery` | apps/indexer/src/notify.ts:287-344 | the three steps of one worker back to back are exactly one delivery on the tables |
| `PushNotifier.Notifier.Deliver` | apps/indexer/src/notify.ts:287-344 | a request is made only on a claim taken here; the claim stays unless the service was not reached; a browser that is gone goes with all its claims; each answer is counted as what it is |
| `PushNotifier.Notifier.Pass` | apps/indexer/src/notify.ts:346-356 | the counters add up to the requests; only unreachable services leave an occasion unclaimed; only subscriptions declared gone are removed |
| `SingleFlight.EveryResolvedCallHadItsPass` | apps/indexer/src/notify.ts:358-383 | in every interleaving passes never overlap, every resolved call was followed by a whole successful pass begun no earlier, and nobody waits when nothing runs |
| `SingleFlight.BurstMakesOneMorePass` | apps/indexer/src/notify.ts:100-107 | calls during a pass, however many, make one more pass and are answered by it |
| `SingleFlight.NoMorePassesThanCalls` | apps/indexer/src/notify.ts:363-378 | no call costs more than one pass, failures included |
| `SingleFlight.EveryCallIsAnswered` | apps/indexer/src/notify.ts:358-383 | at any moment each call made is waiting for a pass that runs, resolved, or rejected by a pass that failed after it - one of the three only |
| `SingleFlight.FailureKeepsTheExtraPass` | apps/indexer/src/notify.ts:369-380 | a failed pass rejects its callers, and the pass they asked for is made by the next call |
| `SingleFlight.Flight.Join` | apps/indexer/src/notify.ts:361-366 | a call joins the running flight or starts a pass at once |
| `SingleFlight.Flight.PassEnded` | apps/indexer/src/notify.ts:367-380 | after a pass: another if asked for, else the flight ends |
| `Retention.Store.RunRetention` | apps/indexer/src/retention.ts:49-91 | exactly the events and claims older than the cut go, however many batches; too short a retention deletes nothing; the later pass stays on record |
| `Retention.PassIsTheProtocolsStep` | apps/indexer/src/retention.ts:82-88 | what a pass deletes of the claims is the push protocol's own step, and keeps its invariant |
| `Retention.Store.DeleteBatch` | apps/indexer/src/retention.ts:66-80 | a batch smaller than its limit was the last |
| `StreamOutbox.NoLostChange` | apps/api/src/routes/stream.ts:51-136 | under every interleaving, throws included, each entry written, in hand or waiting answers for what was sent since the entry before it was put in and for nothing later, together for all of it; what was taken never changes; the backlog is bounded; a writer asleep has written everything |
| `StreamOutbox.SentIsWrittenAfter` | apps/api/src/routes/stream.ts:51-136 | whenever a message is sent and whatever follows, it or a `resync` stands behind everything taken from the outbox by then, and is written once the writer sleeps |
| `StreamOutbox.NothingIsLostSilently` | apps/api/src/routes/stream.ts:47-68 | each message has one entry answering for it: itself, or a `resync` put in after it was sent |
| `StreamOutbox.LosslessWithoutResync` | apps/api/src/routes/stream.ts:47-68 | without a `resync` the client got everything sent, in order, and nothing else |
| `StreamOutbox.RoomLosesNothing` | apps/api/src/routes/stream.ts:54-57 | a `resync` is no way out: while the backlog has room every message is itself, in order |
| `StreamOutbox.QuietStreamsPing` | apps/api/src/routes/stream.ts:122-125 | a heartbeat wakes a sleeping writer, and it writes a pulse |
| `StreamOutbox.Outbox.Push` | apps/api/src/routes/stream.ts:54-57 | with room the message is kept behind the others; past the limit everything waiting becomes one `resync` |
| `StreamHub.StreamHub.Subscribe` | apps/api/src/stream.ts:108-117 | refused exactly at `maxStreams`; the count is the number of live subscriptions |
| `StreamHub.StreamHub.Unsubscribe` | apps/api/src/stream.ts:117-124 | ends one subscription, and ending it again changes nothing |
| `StreamHub.StreamHub.BeginNext` | apps/api/src/stream.ts:78-90 | jobs are taken in order; a row is read exactly when its owner has a stream open; a general `resync` is sent to every stream, a wallet's to its own, and nothing else to any |
| `StreamHub.StreamHub.FinishRead` | apps/api/src/stream.ts:88-104 | every stream of the owner open by then is sent exactly the row as read, a `resync` if the read failed, nothing if the row is gone; no other stream is sent anything |
| `StreamHub.StreamsSeeRowsInOrder` | apps/api/src/stream.ts:9-14 | one job at a time: no stream gets a row's older state after its newer one |
| `StreamHub.StreamHub.RunWriter` | apps/api/src/routes/stream.ts:95-130 | each step of a writer between two awaits is the outbox machine's; a writer that leaves its loop, by a close or a throw, ends its own subscription and no other |
| `StreamHub.ChangesReachTheClient` | apps/api/src/stream.ts:16-18 | end to end, in every state hub and writers reach: once a stream's writer sleeps, every change handled for its owner since it opened was written at its place, or a `resync` put in after it was handled |
| `StreamHub.ChangeIsWrittenAfter` | apps/api/src/stream.ts:16-18 | from the moment a change is handled, whatever jobs and writer steps follow, it or a `resync` stands behind everything its stream had taken by then, and is written once the writer sleeps |
| `StreamHub.HandledIsSent` | apps/api/src/stream.ts:74-76 | what was handled for an owner since a stream opened is among its messages, in that order |
| `FeedPaging.PageIsNewest` | apps/api/src/feed.ts:101-129 | a page is the newest `limit` of what is left, and offers a cursor exactly when more is left |
| `FeedPaging.PageInChainOrder` | apps/api/src/feed.ts:101-129 | newest slot first, in a slot the latest position first; all below the cursor with no later creation at its address, and with room left everything of that kind |
| `FeedPaging.WalkNeverRepeats` | apps/api/src/feed.ts:112-129 | whatever is written or deleted between pages, a walk is strictly newest to oldest, of rows of the current permission |
| `FeedPaging.WalkIsComplete` | apps/api/src/feed.ts:112-129 | a walk to the end shows every row of the current permission present throughout |
| `FeedPaging.FixedStoreWalksWhole` | apps/api/src/feed.ts:80-143 | on a fixed store the walk ends, and its pages are the whole ordered feed cut at the last creation |
| `FeedPaging.TruncationIsNamed` | apps/api/src/feed.ts:131-138 | the cut is named exactly when no creation is stored, and nothing stored is older or left out |
| `FeedPaging.ReadFeedIsThePage` | apps/api/src/feed.ts:80-94 | only a malformed cursor fails; an untracked address answers what its empty page would, but for the flag |
| `FeedPaging.FollowIsTheWalk` | apps/api/src/feed.ts:80-143 | a client following the cursors it is given walks exactly these pages, so all the results on walks are its own |
| `RateLimiter.Limiter.Handle` | apps/api/src/rateLimit.ts:67-100 | pruning and the sweep never change a decision: it is the full log's, with its remaining count and seconds |
| `RateLimiter.Limiter.Sweep` | apps/api/src/rateLimit.ts:72-79 | the sweep forgets nothing that could still count |
| `RateLimiter.Limiter.Prune` | apps/api/src/rateLimit.ts:61-65 | the loop keeps exactly the marks inside the window |
| `RateLimiter.AnyWindowHoldsAtMostLimit` | apps/api/src/rateLimit.ts:10-18 | any window, wherever it starts, holds at most `limit` admitted requests of a key |
| `RateLimiter.BoundHoldsIffLimitIsPositive` | apps/api/src/rateLimit.ts:81-84 | that bound holds of a configured limit exactly when it is at least one |
| `RateLimiter.RetryAfterAlwaysAdmits` | apps/api/src/rateLimit.ts:84-93 | waiting the advertised seconds admits, and one whole second less does not |
| `EventCodec.EventRoundTrip` | packages/chain/src/events.ts:293-301 | every event of the seven types reads back from its bytes |
| `EventCodec.ReadsByTheLayout` | packages/chain/src/events.ts:139-196 | bytes read as an event exactly when tag, type byte and length are its and every field is its own slice, numbers low byte first and signed ones in two's complement, for all seven types |
| `EventCodec.GapsAreNamed` | packages/chain/src/events.ts:232-249 | tagged bytes that are no event are named by an unknown type or by type, expected and actual length |
| `EventCodec.BytesOfEventAreItsOwn` | packages/chain/src/events.ts:232-249 | bytes that read as an event are exactly that event's bytes |
| `EventCodec.TaggedIsNeverSkipped` | packages/chain/src/events.ts:220-249 | tagged data is an event exactly when some event has these bytes, and a named gap otherwise |
| `EventCodec.StructRoundTrip` | packages/chain/src/events.ts:135-195 | packed fields decode to what was encoded, for any layout |
| `EventCodec.LayoutRoundTrip` | packages/chain/src/events.ts:135-195 | and bytes of a layout's size encode back to themselves |
| `EventCodec.BytesRoundTrip` | packages/chain/src/events.ts:129-131 | little-endian numbers of any width fit it and write back the same bytes |
| `EventCodec.EncodeProgramEvent` | packages/chain/src/events.ts:293-301 | the filled buffer is tag, discriminator and payload, and reads back |
| `SubscribeReview.ReadSubscribeBounds` | packages/chain/src/subscribe.ts:278-328 | accepts exactly an optional authority init, then one subscribe, all of our program, with the init present if and only if the sentinel id is used |
| `SubscribeReview.BuiltSays` | packages/chain/src/subscribe.ts:160-235 | what is built, field by field: the plan's own terms, and an authority only in the plan's mint and the subscriber's name |
| `SubscribeReview.BuildFails` | packages/chain/src/subscribe.ts:126-235 | exactly when nothing is built, and why |
| `SubscribeReview.BoundsAreTheData` | packages/chain/src/subscribe.ts:313-328 | what is read back is the instruction's own data, field by field |
| `SubscribeReview.BuiltReadsBackIff` | packages/chain/src/subscribe.ts:203-235 | what is built reads back as the plan's terms, for every plan, if and only if the id is not a known sentinel |
| `SubscribeReview.ReviewSubscription` | apps/web/src/lib/subscribeReview.ts:161-208 | a transaction is offered only with decoded terms equal to the chain's; a builder mismatch happens exactly for a creation time with a part of a second; and when a review fails |
| `SubscribeReview.OfferIsTheChains` | apps/web/src/lib/subscribeReview.ts:130-185 | an offer in the network's own terms, hours against seconds included, and with nothing that stops it |
| `SubscribeReview.BlockForSays` | apps/web/src/lib/subscribeReview.ts:114-128 | a review is blocked exactly when a reason applies, by the first that does |
| `SubscribeReview.RecheckSays` | apps/web/src/lib/subscribeReview.ts:246-263 | for every fresh reading: `missing` exactly when there is none, `blocked` exactly with its block, `same` exactly for the same offer |
| `SubscribeReview.SameIsTheShownOffer` | apps/web/src/lib/subscribeReview.ts:246-263 | `same` hands over the shown transaction, only when the plan is still there, exactly for equal bounds and outside terms; then the chain's plan and the subscribe instruction are unchanged |
| `ShellCache.CachedPageIsWhole` | apps/web/public/sw.js:159-188 | over any deploys and runs stopped at any await, every file stored with the cached page, and every listed file, is cached |
| `ShellCache.StoredSays` | apps/web/public/sw.js:159-188 | what a completed run leaves: a build without its page's files is refused, else the page is cached with all its files and its build's list |
| `ShellCache.SwitchKeepsTheReplacedIff` | apps/web/public/sw.js:176-188 | a completed switch keeps the replaced version exactly when its files are listed or shared |
| `ShellCache.InterruptedSwitchDropsDrawnFiles` | apps/web/public/sw.js:176-188 | stopped between the list and the page, a switch makes the next one drop the drawn version's own files |
| `ShellCache.UnknownListDropsNothing` | apps/web/public/sw.js:176-184 | a version without its list drops nothing, nor does the switch after it |
| `ShellCache.Shell.StoreShell` | apps/web/public/sw.js:159-188 | stopped after any number of writes it is a run of the machine of `CachedPageIsWhole`; a page it cached has all files of its build; with enough writes it completes, and then the cache is what a run without obstacles leaves |
| `ShellCache.Shell.AssetResponse` | apps/web/public/sw.js:219-226 | a built file is served from the cache or fetched; only a good answer is kept, and one that could not be kept is served all the same |
| `ImportClosure.Search.Visit` | apps/web/buildPlugins.ts:62-69 | what a visit adds is reachable and imports nothing left out, on cyclic and dangling graphs |
| `ImportClosure.Search.InitialBytes` | apps/web/buildPlugins.ts:53-74 | the search ends with exactly the chunks entries reach, and counts each one's bytes once |
| `ImportClosure.WeightByAny` | apps/web/buildPlugins.ts:71-72 | the sum over the set does not depend on the order |

## Left out

- Chain reads in several requests: one read sees one chain snapshot; the slot floor of `ensureFloor` and slots from the last batch are not modelled.
- Forks: the program's history only grows, in slot order, and a stream delivers what lands after it opened, in order, until it dies.
- Signatures: a transaction is its place in the history, since signatures are unique.
- Derivation of addresses: plan, subscription and authority addresses are constructors or functions of their seeds; hashing is not modelled.
- The order of transactions inside one slot: the poller sorts by slot only (poll.ts:175), so nothing is claimed of it; the feed's creation cut compares positions across transactions of one slot (feed.ts:107-111) and is modelled as the code has it.
- Rejection reasons, the pause label's effect on them, log trimming, token-account facts of refused charges and `backfillReasons`: content of a feed row beside its event.
- Which permissions a write reads again (`chainStates`, plans updated): the reads are a parameter, so the results hold for any of them.
- PushNotifier.AtMostOnce: a pass lasts less than 60 days, a block time runs ahead of our clock by less than 29 days, and a permission's period length does not change, because the source sets no limit on any of them.
- PushNotifier.AtMostOncePerBrowser: a browser is the pair of its endpoint and a wallet it follows, as the rows are; an occasion belongs to one wallet.
- The conditions of the push scans beside the clock (status, subscription date, the chain read before an announcement): a worker's list is any set of due occasions, so dropping some changes nothing proved here.
- StreamHub.StreamHub.FinishRead: a read returns a state committed no earlier than the read began, which is the database's promise.
- Subscribers are taken to be new objects per stream, as the route makes them; the SSE encoding and the wallet-watch writes are not modelled.
- Cursor text of the feed (JSON in base64): a request carries no cursor, one this feed never issued, or a key.
- RateLimiter.Limiter.Handle: the clock does not go back between requests, which `Date.now` does not promise.
- Address text (base58) and range checks of the codec library: addresses are 32 bytes and integers are in range by type.
- Wording, money formatting and the catalog's names on the subscribe screen; lifetimes and compilation of the transaction.
- Overlapping service-worker refreshes, browser eviction, and the text of pages: a page is a string with the files it names.
- Sorting of the import closure's file names, gzip, the preconnect tag and the shell manifest.
- React screens, hooks, mock data, sign-in, endpoint lists, configuration parsing, migrations and the merchant simulator.
