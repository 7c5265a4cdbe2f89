# Address monitor: a verified model

The repository watches block chains for transfers that touch registered addresses and delivers each hit to a webhook.
This project models the logic in between and proves what it is there for. Redis, MySQL and RabbitMQ appear as explicit
state: maps, sets, lists and multisets of messages. Code that updates state is a class or a method with a loop, proved
against functions over values; runs with crashes, lost replies and faulty publications are step machines over the same
functions.

| file | part |
|---|---|
| `Bloom`, `WatchedAddress`, `WatchIndex`, `PagedLoad`, `Matcher` | the watch index: filters, hot set, watermark, paged load, snapshots, repair |
| `BlockProgress`, `Poller` | block-by-block polling, the two-level cursor, crash and rewind |
| `Topology`, `Broker`, `Delivery`, `Dispatcher`, `RequestCount`, `Sums`, `AttemptBound`, `TerminalExits` | queues and routes, publishing with its faults, the retry machine, the sender and the dead-letter handler |
| `AllowList`, `ContractFilter`, `Expander`, `Consumers`, `Worker` | who is to hear of an event, and fan-out |
| `Pipeline`, `CrashLoss`, `EndToEnd`, `RequestBound`, `Destinations` | from blocks to log rows and requests, and where those go |
| `Radix`, `Base58`, `Hex`, `AddrCodec`, `TronVersions` | canonical addresses |
| `Events`, `EvmParser`, `TronParser`, `SolParser`, `Parsers` | event identity and the parsers |
| `AddressService`, `Spellings` | creating subscriptions, batch import; which events a spelling hears of |
| `RateLimiter`, `DistLock`, `Supervisor`, `BatchWriter` | the sliding-window limiter, the Redis lease, who polls a chain, the raw-event writer |
| `Prelude` | optional values, the ASCII part of Go's `strings` |

`dafny verify dfyconfig.toml` checks everything.

## Conditions the code imposes

These are hypotheses of the theorems below, or limits they show, each with the member that says why.

- A restore is sound only if every configured chain with old rows decodes, because one restored chain is enough to skip
  the full load (`WatchIndex.RestoreExact` gives the exact condition).
- A snapshot is consistent if the watermark does not advance between any filter's encoding and the watermark write. If it
  does, a restart covers the table exactly when every enabled row that came in between on a chain with a stored filter
  tests positive in what is rebuilt; an advance through rows of other chains does no harm (`WatchIndex.SnapshotExact`;
  `WatchIndex.SnapshotRace` is a run that loses a row).
- The full load is one query per page under `ORDER BY created_at DESC` (`internal/store/watched_address.go:68-71`), and
  `created_at` has a resolution of one second (`migrations/000005_create_watched_addresses.up.sql:9`). Every row is
  visited, however ties are broken, exactly when no page begins between two rows of one second
  (`PagedLoad.CompleteIff`). A row that is passed over is found by no sync if it lies below
  the watermark (`PagedLoad.LoadedExact`). The table is taken not to change during the load.
- A row that becomes visible below the watermark is not covered unless its address tests positive anyway
  (`WatchIndex.LateCommit`).
- The restart computes `val - confirmations` in unsigned arithmetic: with a smaller cursor the listener stands still
  (`BlockProgress.RewindMoves`). A listener that finds neither cursor starts from the tip of the chain and leaves a gap
  if the tip is higher than the highest block it completed (`BlockProgress.TipRestart`).
- Events in flight at a crash are handed over again, and their rows can still be written, exactly when they belong to the
  last `confirmations` blocks (`CrashLoss.ResentIff`, `CrashLoss.RowWrittenIff`); older ones are lost until a restart from
  a lower position (`CrashLoss.LostForever`, `CrashLoss.StartedWritesIff`).
- One consumer expands: the check for a row (`internal/dispatcher/expander.go:75`) and its insertion
  (`internal/dispatcher/expander.go:137`) are two statements, and the unique key includes the second of creation
  (`migrations/000006_create_webhook_logs.up.sql:20`). With two consumers a pair can get two rows, with one it never
  does (`Consumers.CanDoubleIff`).
- A finished row can change again exactly while a message is left that carries it (`TerminalExits.LeavesIff`); with one
  copy per publication there is none (`Delivery.TerminalStays`).
- A hit that no attempt to publish left in the queue is lost: the worker goes on to the next event (`Worker.QueuedIff`).
- The sender gives up after 5 failures (`internal/dispatcher/sender.go:104`); the repository's own README speaks of 3
  retries. The model follows the code.
- A manual resend publishes the payload that was serialised before its row existed, with log id 0
  (`internal/dispatcher/expander.go:123-133`): it sends requests, but no row follows it.
- If a publication fails after the row is written, the row stays pending and redeliveries skip it
  (`Expander.LostWhenUnpublished`).
- One lock handle holds one value although the supervisor shares it across chains: acquiring a second key makes renewals
  of the first fail (`DistLock.SecondKeyForgetsFirst`). The renew loop then ends and the listener does not
  (`internal/chain/supervisor.go:112-119`): with all renewals on time and no reply lost, a second instance can come to
  poll a chain exactly when the first has taken up another chain since (`Supervisor.JoinIff`). Renewal truncates to whole
  seconds and deletes the key when there are none (`DistLock.RenewalIsBackedIff`).
- Two logs of one EVM transaction can share an event id (`EvmParser.LogsClashIff`); on such a pair the expander creates
  one row for both.
- The expander looks addresses up in lower case. That finds Base58 addresses only under a case-insensitive collation,
  which the schema leaves to the server (`Expander.LowerLookupSame`, `Expander.LowerLookupIff`).
- Chains of an allow-list request that differ only in letter case overwrite each other, harmlessly exactly when they ask
  for the same contracts (`AllowList.ReliableIff`).
- The Solana parser lowers the letters of an account and the stored address keeps them, so a subscription that names an
  account as it is written hears of it exactly when it has no capital letter (`Spellings.SolIsHeard`).
- A blank entry of an import is not skipped on the chains of the EVM codec but becomes a row for "0x"
  (`AddressService.BlankIsKeptIff`).
- Normalising a Base58 spelling with a version byte other than 0x41 may need two passes; which do is decided by the number
  the spelling stands for, mostly by the version byte alone (`TronVersions.SettlesIff`, `TronVersions.VersionDecides`).
- Solana balance changes are computed in int64: a change is exact exactly when it fits, and beyond that a gain is reported
  as a loss (`SolParser.ExactIff`, `SolParser.DirectionIff`).

## Model

| member | source | states |
|---|---|---|
| Bloom.NoFalseNegatives | pkg/bloom/bloom.go:24-38 | whatever the hash positions are, an item that was absorbed tests positive |
| Bloom.AbsorbTwice | pkg/bloom/bloom.go:24-31 | adding one set after another is adding their union |
| Bloom.AbsorbHit | internal/matcher/subscriber.go:94-99 | adding an item that already tests positive changes no bit |
| Bloom.EmptyMisses | pkg/bloom/bloom.go:17-22 | a new filter lets nothing through |
| Bloom.Filter.Add | pkg/bloom/bloom.go:24-31 | the loop over the probes sets exactly the bits of one more item |
| Bloom.Filter.Test | pkg/bloom/bloom.go:33-38 | true exactly when all probed bits are set |
| Bloom.Filter.Decode | pkg/bloom/bloom.go:47-52 | the encoded bits replace the filter's; a damaged blob is an error that changes nothing |
| WatchedAddress.AddressStore.Create | internal/store/watched_address.go:29-31 | one enabled row under a new largest id, or nothing when application, chain and address are taken |
| WatchedAddress.AddressStore.BatchCreate | internal/store/watched_address.go:33-35 | all rows under consecutive ids, or none when any key is taken, in the table or in the batch |
| WatchedAddress.AddressStore.Delete | internal/store/watched_address.go:37-42 | the row is disabled and no other row changes |
| WatchedAddress.DeletedStaysDeleted | internal/store/watched_address.go:29-42 | a deleted address keeps its unique key, so the same application can never register it again |
| WatchIndex.FunnelRefinesQuery | internal/matcher/matcher.go:37-71 | in a covered state the three layers return the rows of the plain query |
| WatchIndex.FunnelIsTheQuery | internal/store/watched_address.go:86-94 | with the whole table covered and a binary collation, for every address |
| WatchIndex.LoadCovers | internal/matcher/matcher.go:88-117 | a full load covers every row of the table |
| WatchIndex.LoadInAnyOrder | internal/matcher/matcher.go:88-117 | neither the order in which the rows arrive nor repetitions matter to filters and watermark |
| WatchIndex.LoadedWatermark | internal/matcher/matcher.go:97-113 | a full load leaves the watermark at the highest id of an enabled row on a configured chain |
| WatchIndex.SyncedWatermark | internal/matcher/matcher.go:219-243 | a sync leaves it at the highest enabled id, or where it was |
| WatchIndex.LateCommit | internal/matcher/matcher.go:219-243 | a row that becomes visible below the watermark stays covered iff its chain is not configured or it tests positive already; no later sync sees it |
| WatchIndex.SyncKeepsInv | internal/matcher/matcher.go:219-248 | a completed sync extends coverage to every visible row |
| WatchIndex.AddKeepsInv | internal/matcher/subscriber.go:49-55 | additions by event keep the invariant, in whatever order they come |
| WatchIndex.EncodeKeepsInv | internal/matcher/matcher.go:120-130 | storing one chain's filter keeps the invariant of the stored snapshot |
| WatchIndex.WatermarkKeepsInv | internal/matcher/matcher.go:131-137 | writing the watermark keeps it, if no encoding is older than the last advance |
| WatchIndex.BootKeepsInv | internal/matcher/matcher.go:143-172 | restore, take over the watermark and sync, or else load: either way the index is covered |
| WatchIndex.RunKeepsInv | internal/matcher/matcher.go:88-265 | no false negatives over any run of creates, deletes, events, syncs, snapshots, losses, crashes and restarts |
| WatchIndex.ReachableFunnel | internal/matcher/matcher.go:37-71 | in every reachable state the funnel answers the plain query for the address of any enabled row up to the watermark |
| WatchIndex.SyncedFunnel | internal/matcher/matcher.go:219-248 | after a sync in a reachable state it does so for every address |
| WatchIndex.AddedIsFound | internal/matcher/subscriber.go:38-71 | an address that came by event is found as the plain query finds it, from then until the next restart, even while its row is above the watermark |
| WatchIndex.RepairedIsFound | internal/matcher/matcher.go:250-268 | the repair pass keeps the invariant, and what it added is found as the plain query finds it until the next restart |
| WatchIndex.RestoreExact | internal/matcher/matcher.go:143-172 | a partial restore with its sync covers the table iff every chain with old enabled rows decoded, lucky probes aside |
| WatchIndex.SnapshotExact | internal/matcher/matcher.go:120-172 | after filters, watermark, crash and restore the table is covered iff every enabled row that came between its chain's stored filter and the watermark tests positive in what is rebuilt |
| WatchIndex.SnapshotRace | internal/matcher/matcher.go:120-137 | a run in which such a row is lost |
| PagedLoad.CompleteIff | internal/store/watched_address.go:52-73 | every way in which the page queries may break ties visits every row iff no page begins between two rows of one second |
| PagedLoad.SameOrderIsComplete | internal/store/watched_address.go:52-73 | with one order for all pages, or with a single page, every row is visited |
| PagedLoad.CompleteIsLoad | internal/matcher/matcher.go:88-117 | a load that visits every row, repetitions included, leaves filters and watermark of the table |
| PagedLoad.LoadedExact | internal/matcher/matcher.go:88-117 | after any load the next sync covers the table iff every row that was passed over below the watermark tests positive anyway |
| Matcher.Matcher.constructor | internal/matcher/matcher.go:24-35 | one empty filter per configured chain, under its upper-case name |
| Matcher.Matcher.IsWatched | internal/matcher/matcher.go:37-71 | the answer is the funnel's whatever the hot set holds and whether or not Redis answers; promotion is of what was found cold, and touches the hot set only |
| Matcher.Matcher.LoadFromDB | internal/matcher/matcher.go:88-117 | the index of the rows the pages had, which is that of the table when none was passed over; the count reached is that of the table in any case; a failed page leaves the watermark alone |
| Matcher.Matcher.LoadPages | internal/matcher/matcher.go:93-112 | the paging loop ends with the page that reaches the count, having visited what each page query had |
| Matcher.Matcher.SnapshotBF | internal/matcher/matcher.go:120-140 | each chain whose write succeeds is stored as it stands, then the watermark |
| Matcher.Matcher.RestoreBF | internal/matcher/matcher.go:143-172 | filters that decode are replaced, and if any did the stored watermark is taken over and synced from |
| Matcher.Matcher.SyncFromDB | internal/matcher/matcher.go:219-248 | adds the rows above the watermark and moves it to the last of them |
| Matcher.Matcher.SyncIncremental | internal/matcher/matcher.go:250-268 | afterwards every address of a readable incremental list tests positive in the filter of its chain, other filters are as they were, and the pass is a run of additions by event of the machine |
| Matcher.Matcher.HandleAddressEvent | internal/matcher/subscriber.go:38-71 | additions reach the filter, a removal the hot set only, anything else and a list that cannot be read nothing |
| Matcher.Matcher.HandleBatchAdd | internal/matcher/subscriber.go:73-107 | absorbs exactly the newest `count` entries of the list |
| Matcher.Matcher.DowngradeHotToCold | internal/matcher/matcher.go:285-307 | leaves in the hot set exactly the members whose last activity can be read and is at most 604800 seconds old, and never touches a filter bit |
| BlockProgress.GapFree | internal/chain/poller.go:70-116 | whatever cursor Redis or MySQL holds, every event of every block from the first start up to it was handed over; each run is in block order and, unless cancelled inside a block, complete from its rewound start on |
| BlockProgress.RunKeepsInv | internal/chain/tracker.go:36-101 | cursors, landed or pending, never exceed what was handed over, over all runs with failures, cancellations, crashes and late upserts |
| BlockProgress.StartKeepsInv | internal/chain/tracker.go:36-74 | the three-level restart keeps the invariant |
| BlockProgress.FinishKeepsInv | internal/chain/tracker.go:77-101 | recording a block does |
| BlockProgress.RewindMoves | internal/chain/tracker.go:36-61 | after a restart from the cursor of Redis, or else of MySQL, the next poll moves iff the cursor reaches `confirmations` or the chain has grown past the wrapped start |
| BlockProgress.TipRestart | internal/chain/tracker.go:36-73 | a restart from the tip, cursors gone or unreachable, leaves no gap iff the tip is not above the highest completed block |
| Poller.BlockTracker.Init | internal/chain/tracker.go:36-74 | `confirmations` below the cursor of Redis, else of MySQL, else the tip; one start step of the machine, and an error changes nothing |
| Poller.BlockTracker.Update | internal/chain/tracker.go:77-101 | every block moves the Redis cursor, every hundredth sends an upsert on its way |
| Poller.Cursors.UpsertLands | internal/store/chain_sync.go:36-43 | whichever pending upsert lands last wins |
| Poller.PollingListener.Poll | internal/chain/poller.go:70-116 | hands over the events of each new block in order and records it, up to the tip, the first block that cannot be fetched, or the event the channel does not take; that is exactly one run of the machine |
| Poller.ReachedOnce | internal/chain/poller.go:70-116 | which blocks can be fetched and how many events the channel takes leave a poll one way to end |
| Poller.PollingListener.HandOver | internal/chain/poller.go:105-111 | a prefix of the block's events is sent, all of them unless cancelled |
| Topology.DeclareTopology | internal/mq/topology.go:7-73 | seventeen declarations succeed iff the connection lasts and no queue is there with other arguments; then exactly the standard layout was added, and at a failure only parts of it |
| Topology.AllDeclared | internal/mq/topology.go:7-73 | the loops over exchanges and retry queues unfold to that layout |
| Topology.Routes | internal/mq/topology.go:23-70 | every route the programs use leads to one queue, and every retry queue expires back into the tasks |
| Broker.Publisher.PublishOnce | internal/mq/publisher.go:50-95 | a copy in every routed queue when confirmed, possibly one when not |
| Broker.Publisher.Publish | internal/mq/publisher.go:26-48 | stops at the first confirmed of three attempts; every attempt up to then may have left a copy; success iff one was confirmed |
| Delivery.CopiesBound | internal/mq/publisher.go:26-48 | at most one copy per attempt, at least one on success, none iff every attempt failed without enqueuing |
| Delivery.RoutesOf | internal/dispatcher/sender.go:104-121 | the c-th failure goes to the c-th retry queue, the fifth to the dead-letter queue |
| Delivery.ExpiryOf | internal/mq/topology.go:42-58 | each retry queue returns its messages to the tasks |
| Delivery.HandleKeepsInv | internal/dispatcher/sender.go:34-123 | the sender keeps the one-message invariant |
| Delivery.RunKeepsInv | internal/dispatcher/sender.go:42-122 | with one copy per publication, in every reachable state a live log has exactly one message, whose header, queue, status and retry count agree; a finished one has none |
| Delivery.TerminalStays | internal/dispatcher/deadletter.go:29-48 | with one copy per publication success and dead are never left |
| Delivery.DeliveredIff | internal/dispatcher/sender.go:75-95 | one request; its row is successful and no message carries it any more iff the callback answered 200 to 299 |
| Delivery.RetriedOtherwise | internal/dispatcher/sender.go:97-122 | with any other answer, or none, the row has failed once more, and what the attempts to publish left of its message, header included, stands in the queue of that count |
| Delivery.Waits | internal/mq/topology.go:42-58 | after the first four failures it comes back to the tasks in 1, 5, 30 and 120 minutes, after the fifth its queue sets no time |
| Delivery.GivenUp | internal/dispatcher/deadletter.go:21-49 | a row is given up for dead after exactly five failures, with no message left |
| Dispatcher.WebhookLogStore.Create | internal/store/webhook_log.go:36-38 | one new row under a fresh id |
| Dispatcher.WebhookLogStore.ExistsByEventAndAddress | internal/store/webhook_log.go:40-46 | the count over all rows is positive iff the pair has one |
| Dispatcher.WebhookLogStore.UpdateStatus | internal/store/webhook_log.go:56-65 | only that row's status changes; an unknown id matches nothing |
| Dispatcher.WebhookLogStore.IncrRetryCount | internal/store/webhook_log.go:67-72 | only that row's count grows |
| Dispatcher.WebhookLogStore.MarkDead | internal/store/webhook_log.go:74-79 | only that row becomes dead |
| Dispatcher.Sender.Handle | internal/dispatcher/sender.go:34-123 | on queues, rows and requests together it is exactly the handling step of the retry machine, an undecodable body included; one request goes to the callback of the task, and 200 to 299 make its row successful, all else failed once more |
| Dispatcher.Sender.PassOn | internal/dispatcher/sender.go:97-121 | the message with its new header lands where the failure count says, in as many copies as the attempts leave |
| Dispatcher.DeadLetterHandler.Handle | internal/dispatcher/deadletter.go:21-49 | exactly the burial step of the retry machine |
| RequestCount.RowsTellRequests | internal/dispatcher/sender.go:75-122 | with one copy per publication a live row has seen as many requests as it counts, a successful one exactly one more and at most five, a dead one exactly five |
| AttemptBound.HandleLowersWeight | internal/dispatcher/sender.go:97-122 | every acknowledged request strictly lowers the weight of its log, copies of the next message included |
| AttemptBound.AttemptsBounded | internal/mq/publisher.go:26-48 | a log causes at most 363 requests when a publication leaves up to three copies, and at most 5 when it leaves one |
| AttemptBound.StrandedIff | internal/dispatcher/sender.go:104-122 | after a failed request a message is left iff an attempt to publish left a copy; the sender acknowledges in any case |
| AttemptBound.StrandedStays | internal/dispatcher/sender.go:104-122 | no step ever touches a log without a message again |
| AttemptBound.DuplicateLeavesSuccess | internal/dispatcher/sender.go:75-95 | a run in which one duplicate leaves a delivered log failed |
| TerminalExits.LeavesIff | internal/dispatcher/sender.go:75-122 | in any state a successful or dead row can change in some run iff a message that a handler will take still carries it, for a dead one outside the dead-letter queue |
| AllowList.UpdateAllowedContracts | internal/api/service/app.go:151-185 | the row holds the normalised lists under upper-case chains, or nothing for an empty request, and a reachable cache no longer contradicts it |
| AllowList.ParseAllowedContracts | internal/dispatcher/expander.go:235-252 | each upper-case chain gets the contracts of a list it stands for; text that does not parse allows everything |
| AllowList.GetAppInfo | internal/dispatcher/expander.go:199-231 | from cache or row, url, secret and lists are those of the row; nothing for an unknown application |
| AllowList.AllowListRoundTrip | internal/dispatcher/expander.go:256-268 | stored and parsed, a request accepts a contract iff it is empty, its chain has no list or an empty one, or the list names it in any spelling |
| AllowList.ReliableIff | internal/api/service/app.go:157-171 | whatever entry comes last, what is accepted is what was asked for, iff entries for the same chain ask for the same contracts in any spelling |
| AllowList.CollidingChainsLoseAList | internal/api/service/app.go:157-165 | two spellings of one chain with different contracts are not kept |
| ContractFilter.Filter.Reload | internal/chain/contract_filter.go:112-136 | the three tables say what the rows say |
| ContractFilter.AcceptsIff | internal/chain/contract_filter.go:69-84 | an event passes iff it has no contract, its chain has no row, or a row names the same contract |
| ContractFilter.Filter.IsAllowed | internal/chain/contract_filter.go:69-84 | decides as the rows last loaded say |
| ContractFilter.Filter.GetSymbol | internal/chain/contract_filter.go:87-97 | the symbol the rows last loaded give, or none |
| ContractFilter.Filter.GetDecimals | internal/chain/contract_filter.go:100-110 | the decimals they give, or 0 |
| ContractFilter.NotedIff | internal/chain/contract_filter.go:87-110 | symbol and decimals are those of the last row that has them, and only listed contracts have any |
| Worker.HandleRawEvent | internal/chain/supervisor.go:146-244 | publishes exactly the events that pass filter and matcher and for which the database answers, in order |
| Worker.QueuedCounts | internal/chain/supervisor.go:171-215 | a hit is queued once to three times per occurrence, anything else not at all |
| Worker.QueuedIff | internal/chain/supervisor.go:201-215 | whatever the broker does, an event is queued iff a publication of one of its hits left a copy |
| Worker.HitIsQuery | internal/chain/supervisor.go:190-199 | with the table covered, a hit is an accepted event for which the plain query finds a subscription |
| Expander.Expander.GetWatchedAddresses | internal/dispatcher/expander.go:171-191 | the cached rows, else those of the lower-case query, which are then cached unless empty |
| Expander.Expander.ExpandOne | internal/dispatcher/expander.go:73-166 | a row and its task, both with the callback of the application, iff the pair has no row and the subscription passes; otherwise nothing changes |
| Expander.Expander.Handle | internal/dispatcher/expander.go:54-169 | the message is acknowledged in any case; a body that cannot be read changes nothing else; otherwise every pair gains exactly the row it is due, each new row names the callback of a subscriber's application, each task says what its row says, and rows and queues together move by creations of the retry machine |
| Expander.NeverTwice | internal/dispatcher/expander.go:75-82 | with one consumer, however often a message comes and whatever fails, no pair gets a second row |
| Consumers.CanDoubleIff | internal/dispatcher/expander.go:75-137 | some interleaving of checks and insertions gives a pair two rows iff there are two consumers |
| Consumers.ExpandOneIsCheckInsert | internal/dispatcher/expander.go:75-137 | what the expander's method does with one subscription is such a check, followed by an insertion iff no row was found and the subscription passes |
| Expander.FaultlessIsExact | internal/dispatcher/expander.go:73-145 | without faults the subscriptions that accept the event have exactly one row each |
| Expander.LostWhenUnpublished | internal/dispatcher/expander.go:137-158 | a created task is lost iff no attempt left a copy; its row stays pending |
| Expander.StoredListsAreUpper | internal/api/service/app.go:157-171 | the lists the expander relies on are stored under upper-case chains |
| Expander.LowerLookupSame | internal/dispatcher/expander.go:171-182 | looking up in lower case is harmless where the database compares without case |
| Expander.LowerLookupIff | internal/dispatcher/expander.go:171-182 | under a binary collation it finds the subscriptions of the address iff that has no capital letter or nobody watches either spelling |
| Pipeline.ExactlyOnce | internal/dispatcher/expander.go:73-145 | with one expander, over any run of polls, faults, safe crashes, restarts and redeliveries: once channel and queue are empty, exactly one row for every hit of every covered block and every address due |
| Pipeline.AtMostOneRow | internal/dispatcher/expander.go:73-145 | with one expander, over any run at all, whatever is in flight at a crash, lost by a worker or acknowledged too early, no pair gets a second row |
| RequestBound.OneRowEver | internal/dispatcher/expander.go:54-169 | the same of the log table, with sender and dead-letter handler at work on it |
| Pipeline.RunKeepsInv | internal/chain/poller.go:93-114 | nothing of a covered block is ever lost between channel, queue and log table |
| Pipeline.CrashKeepsInv | internal/chain/tracker.go:36-61 | a crash loses nothing of a covered block if what is in flight belongs to the last `confirmations` blocks |
| Pipeline.OnlyDueRows | internal/chain/supervisor.go:171-215 | every row was due to a hit of an event that was handed over |
| CrashLoss.ResentIff | internal/chain/tracker.go:36-61 | an unsettled event in flight at a crash is in hand in every run of the restarted listener that completes its block iff the block is one of the last `confirmations` |
| CrashLoss.RowWrittenIff | internal/chain/tracker.go:36-61 | its row can be written before the next restart iff that holds |
| CrashLoss.StartedWritesIff | internal/chain/tracker.go:36-74 | wherever a listener was started from, iff the block is above that position |
| CrashLoss.LostForever | internal/chain/poller.go:93-114 | an event in nobody's hands whose block the listener is past has no row in any run until it is started again |
| EndToEnd.ExpandIsStep | internal/dispatcher/expander.go:54-169 | what the expander's method does with a message, the database answering, is the expansion step of the pipeline for exactly the addresses whose applications accept the event |
| EndToEnd.WorkIsStep | internal/chain/supervisor.go:146-244 | what the worker's method does with a raw event is the working step of the pipeline for the hits among the events parsed from it |
| EndToEnd.EveryConcernedOnce | internal/chain/supervisor.go:146-244 | over any run, once channel and queue are empty, every event parsed from a covered block has exactly one row for each enabled subscription of its address whose application accepts it |
| Parsers.EventsDiffer | internal/chain/supervisor.go:154-161 | no parser yields the same event twice, even where ids clash |
| RequestBound.PairBounded | internal/dispatcher/sender.go:75-122 | with expander, sender and dead-letter handler on one table, an event causes at most 363 requests for an address, and at most 5 when no publication leaves a second copy |
| Destinations.CreatedForSubscribers | internal/dispatcher/expander.go:84-145 | every row gained and every task created for an event is for a subscription whose application accepts the event, and names the callback of that application |
| Destinations.RequestsAddressed | internal/dispatcher/sender.go:42-75 | over any history of expansions, retries and faults, a message the sender is to send for a row goes to the callback of an application with a subscription for that address, which was to hear of that event |
| Base58.DecodeEncode | pkg/addrcodec/codec.go:60-76 | decoding an encoding gives the bytes back, leading zeros included |
| Base58.EncodeDecode | pkg/addrcodec/codec.go:60-65 | encoding a decoding gives the characters back |
| Base58.Alphabet | pkg/addrcodec/codec.go:60-76 | the 58 symbols are the ASCII digits and letters without 0, O, I and l, in ascending order |
| Base58.TronForm | pkg/addrcodec/codec.go:53-77 | 25 bytes that begin with 0x41 are written with 34 characters, the first of them T |
| AddrCodec.CanonicalForm | pkg/addrcodec/codec.go:53-77 | so is every canonical account |
| AddrCodec.CanonicalInjective | pkg/addrcodec/codec.go:60-76 | different accounts have different canonical forms, for any checksum |
| AddrCodec.TronConverges | pkg/addrcodec/codec.go:53-77 | the canonical form, the digits with 41 in any case and with or without 0x, and the log topic all normalise to one string |
| AddrCodec.NormalizeMeets | pkg/addrcodec/codec.go:53-77 | the complete set of spellings that normalise to a given account; a wrong checksum is corrected silently |
| Hex.Alphabet | pkg/addrcodec/codec.go:72-76 | hexadecimal digits are written in lower case and read in either |
| AddrCodec.BareHexMeets | pkg/addrcodec/codec.go:67-76 | the bare forty digits do iff they do not begin with 41 |
| AddrCodec.TopicMeets | internal/parser/tron.go:186-193 | the last forty digits of a topic decide, whatever is in front |
| AddrCodec.TronIdempotent | pkg/addrcodec/codec.go:53-77 | normalising again changes nothing unless a Base58 spelling with another version byte was given |
| TronVersions.SettlesIff | pkg/addrcodec/codec.go:53-77 | a Base58 spelling settles in one pass iff the 25-byte number it is written again from lies in one of five ranges, the last with no capital letter among its digits |
| TronVersions.VersionDecides | pkg/addrcodec/codec.go:59-65 | version bytes 0x41, 0x42, 0x7F and 0x80 always settle, all others but seven never |
| AddrCodec.NotSettled | pkg/addrcodec/codec.go:59-65 | a concrete spelling that needs two passes, for every checksum |
| AddrCodec.EvmIdempotent | pkg/addrcodec/codec.go:37-43 | normalising an EVM address again changes nothing |
| AddrCodec.EvmMeets | pkg/addrcodec/codec.go:37-43 | an EVM address normalises to given digits iff it spells them in some case, with or without 0x |
| AddrCodec.SolIdempotent | pkg/addrcodec/codec.go:88-90 | normalising a Solana address again changes nothing |
| Events.KeyInjective | internal/parser/schema.go:56-59 | the hashed key determines chain, transaction and index when the chains have no colon |
| Events.KeyClash | internal/parser/schema.go:56-59 | and not in general |
| EvmParser.LogsClashIff | internal/parser/evm.go:132-213 | two logs of a transaction share an id iff one is a transfer i and the other, of another kind, is number 10i or 10i+1 |
| EvmParser.OwnKeysDistinct | internal/parser/evm.go:98-127 | native and log events never share one, nor do the two sides of a transfer |
| EvmParser.WatchedIsCanonical | internal/parser/evm.go:168-213 | the address of a log event is found by a subscription iff that spells the same digits |
| EvmParser.TransferSides | internal/parser/evm.go:168-213 | a transfer log whose topics are the accounts a and b yields one event telling a that the amount in the data went out to b, and one telling b that it came in from a; in minus out is zero |
| EvmParser.NativeSides | internal/parser/evm.go:71-129 | so does a native transfer of a positive value, and any other none |
| EvmParser.UserSide | internal/parser/evm.go:230-279 | a deposit or withdrawal log yields one event about the user of its topic, to or from the contract, with the first word of the data |
| EvmParser.ContractSide | internal/parser/evm.go:150-228 | a swap log yields one event about the contract, a log that is not understood one about nobody |
| TronParser.ParseLogs | internal/parser/tron.go:119-176 | two events for each transfer log with its topics, none for the others, in order |
| TronParser.EventOfLog | internal/parser/tron.go:121-173 | numbers 10i and 10i+1 belong to log i, which has them iff it is a transfer |
| TronParser.KeysDistinct | internal/parser/tron.go:75-176 | no two events of a transaction share an id |
| TronParser.WatchedIsCanonical | internal/parser/tron.go:75-193 | however the chain spells an account, events name it as subscriptions are stored |
| TronParser.TransferSides | internal/parser/tron.go:119-173 | a transfer log from a to b, its contract spelled in any way, tells a that the amount went out to b and b that it came in from a |
| TronParser.NativeSides | internal/parser/tron.go:75-117 | so does a native transfer |
| SolParser.ParseNativeTransfers | internal/parser/sol.go:51-113 | the loop yields the events of the changes computed in int64 |
| SolParser.OneEventEach | internal/parser/sol.go:67-112 | one event for each net change that is not zero, none else, in account order, about the account that changed, with the size and direction of the change |
| SolParser.Conserved | internal/parser/sol.go:66-112 | when every change fits into an int64, total in minus total out is the sum of the changes plus the fee |
| SolParser.SmallConserved | internal/parser/sol.go:66-112 | balances below 2^63 and a fee that could be paid are enough |
| SolParser.ConservedModulo | internal/parser/sol.go:66-112 | for any balances this holds modulo 2^64 |
| SolParser.ExactIff | internal/parser/sol.go:72-91 | for any balances and fee a change is computed exactly iff it fits into an int64 |
| SolParser.DirectionIff | internal/parser/sol.go:72-91 | and it is reported with its own direction iff it does |
| SolParser.ParseTokenTransfers | internal/parser/sol.go:115-185 | one event for each token balance that differs from the last one known before |
| SolParser.TokenEventEach | internal/parser/sol.go:115-185 | balance i has an event, its number 10000 + i, iff it differs, and that is about the owner and the mint of the balance, with the size and direction of the difference |
| SolParser.LastForIs | internal/parser/sol.go:120-131 | the balance known before is that of the last entry for the account |
| SolParser.TokensConserved | internal/parser/sol.go:115-185 | their sum is the balances after less those before of the same accounts |
| SolParser.Uint64OfDecimal | internal/parser/sol.go:191-199 | a 64-bit number written in decimal is read back |
| SolParser.KeysDistinct | internal/parser/sol.go:94-165 | up to 10000 accounts no two events of a transaction share an id |
| SolParser.KeyClash | internal/parser/sol.go:94-165 | native event i and token event j share one iff i = 10000 + j |
| AddressService.Service.Create | internal/api/service/address.go:38-60 | a row of the upper-case chain with the canonical form of exactly the TRON accounts the text spells, the Solana text itself, or 0x and the digits spelled in any case; hot set, list and event for it, those only with Redis; nothing when it is taken |
| AddressService.Service.CleanUp | internal/api/service/address.go:65-78 | the entries in stored form without empty and repeated ones: an account is kept iff some entry spells it |
| AddressService.DistinctIs | internal/api/service/address.go:65-78 | none twice, none empty, none missing |
| AddressService.EntryIsStored | internal/api/service/address.go:69 | entry i of an import is stored as it would be alone |
| AddressService.Service.BatchCreate | internal/api/service/address.go:62-157 | response, table, hot set, list and event of an import, chunk by chunk; an account is among the rows gained or the failures iff some entry spells it |
| AddressService.ImportPartitions | internal/api/service/address.go:84-156 | success and failure are disjoint, without repetition, in order, and together the cleaned-up list; the table gains exactly the successes |
| AddressService.BatchEventCovers | internal/matcher/subscriber.go:84-100 | with nothing pushed in between, the subscriber of the batch event reads exactly the successful addresses, or the newest 50000 of them |
| AddressService.BlankIsKeptIff | internal/api/service/address.go:69-72 | a blank entry survives the emptiness check iff the chain has the EVM codec, as "0x" |
| Spellings.TronLogIsHeard | internal/parser/tron.go:119-173 | the two events of a TRON transfer log from a to b are about exactly the subscriptions whose text spells a, and b |
| Spellings.TronTransferIsHeard | internal/parser/tron.go:75-117 | so are those of a native transfer |
| Spellings.EvmLogIsHeard | internal/parser/evm.go:168-213 | and those of an ERC-20 transfer log, on any other chain but Solana, whatever the letter case of chains and digits |
| Spellings.EvmTransferIsHeard | internal/parser/evm.go:71-129 | and those of a native transfer there |
| Spellings.SolIsHeard | internal/parser/sol.go:94-112 | a native event on Solana is about a subscription iff that was registered with the lower-case letters of the account |
| RateLimiter.Limiter.Allow | internal/api/middleware/ratelimit.go:26-48 | one call on the stamps of its key, other keys untouched although all are compacted in place |
| RateLimiter.Limiter.Compact | internal/api/middleware/ratelimit.go:33-40 | the front of the shared array holds exactly the unexpired stamps, in order |
| RateLimiter.GrantedIff | internal/api/middleware/ratelimit.go:42-47 | a call is refused iff the limit was accepted within the window that ends with it |
| RateLimiter.NeverMoreThanLimit | internal/api/middleware/ratelimit.go:26-48 | over any calls on a clock that does not run back, no window anywhere holds more accepted calls of a key than the limit |
| DistLock.Lock.Acquire | pkg/distlock/lock.go:46-57 | takes the key iff nobody has it; the handle remembers it iff that was reported |
| DistLock.Lock.Renew | pkg/distlock/lock.go:72-85 | extends the key by whole seconds iff it holds the handle's value |
| DistLock.Lock.Unlock | pkg/distlock/lock.go:60-69 | deletes the key iff it holds the handle's value |
| DistLock.Lock.RenewLoop | pkg/distlock/lock.go:88-101 | the loop performs one renewal per tick until one is not reported as successful or the context ends |
| DistLock.RenewalsHold | pkg/distlock/lock.go:88-101 | on a store nobody else uses, a lease that lasts to the first tick is renewed at every tick up to the first lost reply and stays held |
| DistLock.MutualExclusion | pkg/distlock/lock.go:46-85 | over any interleaving with lost replies, each call with its own time to live, two handles never believe in one key, and who believes in one has it |
| DistLock.RunKeepsInv | pkg/distlock/lock.go:46-85 | a claim that has not run out is backed by the store, in every reachable state |
| DistLock.OthersUntouched | pkg/distlock/lock.go:15-32 | renewing and unlocking alter no lease but the caller's own |
| DistLock.SecondKeyForgetsFirst | pkg/distlock/lock.go:52-55 | after a second acquisition the first key can be neither renewed nor released |
| DistLock.RenewalIsBackedIff | pkg/distlock/lock.go:72-79 | a renewal keeps its promise iff the time to live is a whole number of seconds |
| Supervisor.RunKeepsInv | internal/chain/supervisor.go:103-119 | a listener whose renewals are on time and lose no reply keeps its lease and its chain to itself over any run of all instances, unless its own instance takes up another chain |
| Supervisor.BeginsKept | internal/chain/supervisor.go:103-112 | a listener started on a chain nobody polls begins that way |
| Supervisor.RenewedOnTime | internal/chain/supervisor.go:106-111 | a lease lasts 15 seconds from its acquisition and from each renewal, and is renewed 5 seconds after |
| Supervisor.JoinIff | internal/chain/supervisor.go:103-119 | while it stays on time, another instance can come to poll the chain as well iff its own instance has taken up another chain since |
| Supervisor.BeginIff | internal/chain/supervisor.go:103-108 | whatever happened before, an instance starts to poll iff the lease is not alive and the reply arrives |
| BatchWriter.Writer.Run | internal/chain/supervisor.go:246-289 | for each chain, the buffer and the batches that the inputs and the final flush make |
| BatchWriter.Writer.FlushAll | internal/chain/supervisor.go:283-286 | every chain is flushed once, in whatever order |
| BatchWriter.Conserved | internal/chain/supervisor.go:270-288 | at every moment what was received is what was flushed and then what is buffered; batches have 1 to 100 items, buffers fewer than 100 |
| BatchWriter.CancelledIsComplete | internal/chain/supervisor.go:272-277 | after cancellation the buffers are empty and everything received was flushed |
| BatchWriter.TickIsComplete | internal/chain/supervisor.go:283-286 | right after a tick no buffer holds anything and everything received was handed over |
| BatchWriter.SinceTheTick | internal/chain/supervisor.go:278-282 | from a tick to the next, every 100 items of a chain are one batch, and the rest is buffered |
| BatchWriter.StoredUnlessFailing | internal/chain/supervisor.go:255-268 | batches are stored while inserts go through and dropped while they fail |
| BatchWriter.StoredOrDropped | internal/chain/supervisor.go:255-268 | what was flushed is stored or dropped with a failed insert, and all stored when none failed |

## Left out

- HTTP handlers, DTOs, routing, logging, authentication, e-mail, signatures, configuration and start-up: plumbing around libraries.
- RPC fetchers and the Solana websocket listener: their results are parameters; the Solana listener moves the cursor out of order and is outside the block-progress claims.
- `uint64ToString` in `internal/parser/sol.go`, a declared placeholder that keeps the last digit: amounts are stated before they are written out.
- False-positive rate of the filters: hash positions are arbitrary, only the absence of false negatives is stated.
- SHA-256, JSON and UUIDs: an event id is represented by its key, encodings are faithful, lock values are drawn fresh.
- The double SHA-256 of Base58Check is an arbitrary function to four bytes; the Base58 library's loops are modelled by the conversions they compute.
- Letter case and white space outside ASCII.
- Matcher.Matcher.SnapshotBF: as one call it does not interleave with a sync; the interleavings are steps of the machine in `WatchIndex`.
- Matcher.Matcher.SyncIncremental: the program never starts the job that calls it; what it would do is stated all the same.
- BlockProgress.GapFree: heights stay `confirmations` below 2^64, where the poll loop would not end; reorganised blocks keep their content.
- Delivery.RunKeepsInv: a redelivery of a message whose handler crashed before acknowledging is not a step; nor is a failing write of a log row.
- AttemptBound.AttemptsBounded: counts acknowledged deliveries; a handler that crashes after its request may repeat it.
- Dispatcher.Sender.Handle: the header is a non-negative count below 2^31 - 1; with a negative one the code indexes its routes out of range.
- Pipeline.ExactlyOnce: one expander, fixed subscriptions, and database calls and, in the end, publications that succeed; a listener that lost both cursors does not start from a tip within `confirmations` of unfinished blocks.
- EndToEnd.EveryConcernedOnce: filters and tables stay as they are during the run; the order in which wall-clock events interleave with changes of subscriptions is that of `WatchIndex`.
- Matcher.Matcher.LoadFromDB: the table does not change between the page queries.
- CrashLoss.RowWrittenIff: says that the row can be written, not that a listener which is cut short again writes it.
- Supervisor.JoinIff: ticks are those of a receiver that keeps up; instances draw fresh lock values and try each chain once.
- RequestBound.PairBounded: one expander; it counts acknowledged deliveries of rows, not manual resends, which carry no row.
- Worker.HandleRawEvent: filling in symbol and decimals, the last-active time and the copy to the raw-event channel are left out.
- Expander.Expander.GetWatchedAddresses: the cache's time to live and its invalidation, whose keys differ in letter case between writer and deleter.
- AllowList.GetAppInfo: the ten minutes the cache lives; ownership is checked by the caller.
- AddressService.Service.BatchCreate: a Redis pipeline takes effect as a whole or not at all.
- Deleting a subscription through the API beyond the row: the hot set and event handling are those of the matcher.
- BatchWriter.Writer.Run: items still in the channel at shutdown, of which the code makes no promise.
- DistLock.MutualExclusion: renewals ask for whole seconds, as the supervisor does (`DistLock.RenewalIsBackedIff` says why); handles and store read one clock.
- RateLimiter.Limiter.Allow: the mutex, which makes calls atomic, and the growth policy of slices.
- Topology.DeclareTopology: durability flags, which no property depends on.
