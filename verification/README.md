# NeoNect relay: a verified model

NeoNect is a store-and-forward relay: clients leave encrypted messages in per-device mailboxes, and the
server pushes them over web sockets until they are acknowledged or expire. Its guarantees rest on small
protocols made of atomic SQL statements and in-memory maps. This project models them in Dafny and proves
what they keep over every run and every interleaving.

The repository's stateful objects are classes that change their fields in place. Each method is proved
against a specification function on values (`Now()`, `Table()`, `Model`), and the whole-run theorems are
lemmas about those functions. `dafny verify dfyconfig.toml` checks everything.

| part | modules |
|---|---|
| sliding-window rate limiter | `RateWindows`, `WindowRuns`, `TimeWindowLimiters`, `LimiterRuns`, `LimiterShards` |
| delivery queue | `DeliveryQueue`, `QueueRuns`, `QueueOrder`, `EnvelopeSends`, `DeliveryQueueRepositories`, `RelayService`, `SendEffects` |
| retry worker and claim lease | `DeliveryWorkers`, `DeliveryProtocol`, `DeliveryBudget` |
| prekeys | `PrekeyStore`, `PrekeyRuns`, `PrekeyEffects`, `PrekeyRepositories` |
| socket registry | `SocketRegistry`, `SocketSafety`, `SocketRuns`, `SocketDeliveries`, `SocketManagers` |
| friend requests | `FriendshipStore`, `FriendService`, `FriendshipRepositories` |
| session cache | `SessionStore`, `SessionRepositories` |

## How the model reads the program

- A table is a map. A SQL statement is one atomic step; a transaction is one step that commits its new
  tables or keeps the old ones. Where a call consists of several statements, arbitrary statements of other
  callers run between them (`others`, `between`, `env`).
- Clocks, the network, push results, upgrades and the order of map iteration are inputs or arbitrary
  choices. Hashes and fingerprints are opaque names.
- In the socket machine every lock acquisition, every close and every change of the registry is a separate
  step; only the last action under a lock and its release are one step. A session is known by the thread that
  handles it. Deadlock freedom is proved for the stricter reading of the read-write lock, in which a waiting
  writer holds back new readers; safety for the more liberal one.

Assumptions, each needed and stated in the lemmas that use it:

- Limiter: clock readings do not decrease in the order in which calls take the lock of one shard; different
  shards are not ordered. The program reads the clock before it takes the lock; `StaleReadingBreaksTheBound`
  shows what a late reading does.
- Delivery lease: a worker that has read the clock at `now` is finished before `now + 120`, strictly.
  `OverrunLetsAnotherIn` shows that an overrun by a live holder is enough to let a second worker in, and
  `OverrunIsReachable` that such runs exist from any start with a due row. The bound
  on attempts assumes also that state updates succeed; exclusivity does not.
- Sequence numbers: an envelope send reads the last sequence and inserts in separate statements, so order is
  proved for runs in which no other insert for the device falls in between. `docs/PROTOCOL.md:13` promises
  strict, sequence-bound delivery for version 2; the code does not keep that for racing sends
  (`RacingSendsCollide`, `RacingSendsExist`), and `InsertKeepsOrderIff` says exactly which inserts keep the order.
- Deduplication of message ids lasts as long as the row is queued.
- A fan-out names each device once: `device_id` is UNIQUE in the devices table. `RepeatedDeviceIsCheckedOnce`
  says what a repetition would do to the quota.
- Sessions: calls are taken one at a time. A lookup interrupted by other calls is the exception, and
  `InterruptedLookupAgreesIff` and `InterruptedLookupFollowsHistoryIff` say which calls in between spoil it; they
  assume that its token is not issued again meanwhile (tokens are 32 random bytes). A cleanup reads the clock twice, once for the cache and once for the table;
  `LookupFollowsHistory` allows for that, given that no token is issued twice.
- Transactions on the prekey tables are serial, so an idempotency record is seen complete or not at all, and
  the answer "request in progress" is left for a user row that does not exist.
- `GetDueItems` does not look at expiry, and neither does the model: expired rows may still be pushed until a
  cleanup removes them.

## Model

| member | source | states |
|---|---|---|
| RateWindows.SaturationIsHarmless | internal/api/rate_limiter.go:22 | a 64-bit saturated age gives the same verdict as the exact one, except for the smallest possible window |
| RateWindows.ActiveSuffixIsExact | internal/api/rate_limiter.go:17-28 | pruning removes exactly the longest prefix of expired timestamps |
| RateWindows.PruneStep | internal/api/rate_limiter.go:20-27 | one turn of the loop, with its wrap-around of the head, advances the queue that the ring stands for |
| RateWindows.RingAppend | internal/api/rate_limiter.go:58-59 | writing at the wrapped tail index appends to the queue, leaving the older elements as they read |
| RateWindows.RingAtFront | internal/api/rate_limiter.go:46-55 | elements copied to the front of a larger buffer read as before |
| RateWindows.SlotOf | internal/api/rate_limiter.go:25 | the remainder of an index that passes the end at most once is the wrapped index |
| RateWindows.RateWindow.Prune | internal/api/rate_limiter.go:19-28 | in place: the contents become the active suffix, storage and totals accounted for |
| RateWindows.RateWindow.EnsureRoom | internal/api/rate_limiter.go:37-56 | in place: there is a free slot, capacity follows the growth rule, contents are unchanged |
| RateWindows.RateWindow.Record | internal/api/rate_limiter.go:32-61 | in place: accepted iff fewer than the limit are held, and then appended; otherwise nothing changes |
| WindowRuns.BufferIsAQueue | internal/api/rate_limiter.go:19-61 | over any sequence of calls with changing limits the buffer is the accepted timestamps minus the oldest ones pruned, each once |
| WindowRuns.CapacityNeverExceedsLargestLimit | internal/api/rate_limiter.go:37-56 | over any run capacity stays within the largest limit used |
| WindowRuns.GrowthCopiesLessThanTwiceTheLimit | internal/api/rate_limiter.go:45-56 | with a fixed limit all growth together copies fewer than twice the limit elements |
| WindowRuns.StorageFollowsUse | internal/api/rate_limiter.go:37-56 | over any run there is no storage before the first acceptance, and then never more than four slots or twice what was held at once |
| TimeWindowLimiters.SweepOneMore | internal/api/rate_limiter.go:105-110 | visiting the keys one by one, in whatever order, adds up to the order-free sweep |
| TimeWindowLimiters.WindowShard.SweepExpired | internal/api/rate_limiter.go:104-110 | the loop that deletes while iterating leaves exactly the entries with an active timestamp, pruned |
| TimeWindowLimiters.WindowShard.MakeRoomFor | internal/api/rate_limiter.go:103-114 | a full shard is swept, another is left alone, and the result says whether there is still no room |
| TimeWindowLimiters.WindowShard.Allow | internal/api/rate_limiter.go:100-122 | in place: the shard's windows and the decision are those of the value-level call; windows share no storage |
| TimeWindowLimiters.TimeWindowLimiter.constructor | internal/api/rate_limiter.go:77-90 | the shards are empty and share nothing |
| TimeWindowLimiters.TimeWindowLimiter.Allow | internal/api/rate_limiter.go:92-123 | in place: only the key's shard changes, as the value-level call says |
| LimiterRuns.PruneTwice | internal/api/rate_limiter.go:19-28 | pruning early and again later is pruning later |
| LimiterRuns.PruningCountsActive | internal/api/rate_limiter.go:19-35 | in a sorted log the count after pruning is the number of active timestamps |
| LimiterRuns.OwnCallTracks | internal/api/rate_limiter.go:92-123 | one call decides as the naive log does, unless there is no room for a new key, and the entry keeps track of that log |
| LimiterRuns.OtherCallTracks | internal/api/rate_limiter.go:104-110 | calls on other keys, with their sweeps, never lose an active timestamp of a key; on other shards at any clock reading |
| LimiterRuns.SlidingWindowBound | internal/api/rate_limiter.go:92-123 | over any run on any keys, ordered only within the key's shard, with entries deleted and recreated by sweeps, every interval (t - window, t] holds at most `limit` admitted calls of a key |
| LimiterRuns.StaleReadingBreaksTheBound | internal/api/rate_limiter.go:92-123 | with a clock reading used late, a third call gets into a window for two |
| LimiterRuns.DecisionsAreNaive | internal/api/rate_limiter.go:92-123 | after any run a call is admitted iff fewer than `limit` of all timestamps ever admitted for the key are active and the key has or finds room |
| LimiterRuns.NoRoomMeansOthersActive | internal/api/rate_limiter.go:101-114 | a refusal for lack of room means that the shard holds `maxKeys` other keys, each with an active timestamp |
| LimiterRuns.ShardsStayBounded | internal/api/rate_limiter.go:103-117 | no run makes a shard larger than `maxKeys` |
| LimiterShards.KeysStayHome | internal/api/rate_limiter.go:93-95 | after every run each key is in the shard of its hash modulo the number of shards |
| LimiterShards.RefusalIsAtHome | internal/api/rate_limiter.go:92-123 | a call the naive limiter admits is refused iff `maxKeys` other keys with the same remainder, each with an active timestamp, fill its shard |
| LimiterShards.OtherRemaindersDoNotMatter | internal/api/rate_limiter.go:93-98 | a decision is the same as if no key with another remainder had ever been used |
| LimiterShards.CallOnShard | internal/api/rate_limiter.go:100-122 | only a new key at a full shard causes a sweep, which removes exactly the keys with nothing active, even before a refusal; other keys are left alone, the key itself is pruned and charged iff admitted |
| QueueRuns.FanOutIsALoop | internal/infrastructure/persistence/delivery_queue_manager.go:158-189 | for distinct devices the single UNION ALL insert, evaluated on the old table, leaves the table of enqueueing one device at a time |
| QueueRuns.RepeatedDeviceIsCheckedOnce | internal/infrastructure/persistence/delivery_queue_manager.go:169-175 | a device named twice gets two rows on one check, and breaks its message or its byte quota exactly when there was room for one |
| QueueRuns.NoRowsMeansNoRoom | internal/infrastructure/persistence/delivery_queue_manager.go:181-187 | a fan-out adds no row exactly when no device has room |
| QueueRuns.RunKeepsInvariant | internal/infrastructure/persistence/delivery_queue_manager.go:48-60 | over every run of sends, fan-outs, claims, updates, acknowledgements and cleanups each mailbox is within both quotas and each message id has at most one live row |
| QueueRuns.RowLivesUntilRemoved | internal/infrastructure/persistence/manager.go:74-80 | after any run a row is gone iff its own device acknowledged its id or a cleanup came after its expiry; until then it carries the same message |
| QueueRuns.NothingIsResurrected | internal/infrastructure/persistence/manager.go:75-80 | an id once used and gone never comes back, whatever late steps name it |
| QueueRuns.AcceptedMessageIsPolled | internal/infrastructure/persistence/delivery_queue_manager.go:94-112 | until acknowledged or expired an accepted row is in every poll of its device, payload unchanged |
| QueueOrder.NextSequencesAgree | internal/infrastructure/persistence/delivery_queue_manager.go:173 | in an ordered mailbox the newest row's sequence plus one, used by fan-outs, is the greatest plus one, used by envelope sends |
| QueueOrder.NextSequenceIsBeyond | internal/infrastructure/persistence/delivery_queue_manager.go:23-27 | the sequence an envelope send asks for is beyond every live one of the mailbox |
| QueueOrder.InsertKeepsOrderIff | internal/infrastructure/persistence/delivery_queue_manager.go:48-54 | an insert keeps sequences increasing with ids iff its sequence is beyond every one in the mailbox |
| QueueOrder.RunKeepsOrder | internal/service/relay_service.go:186-192 | in runs where no insert for the device falls between a send's read and its insert, sequences increase strictly with ids in every mailbox |
| QueueOrder.PollIsFifo | internal/infrastructure/persistence/manager.go:74 | in an ordered mailbox a poll by sequence is first in, first out |
| QueueOrder.RacingSendsCollide | internal/service/relay_service.go:186-192 | two sends that both read before either inserts are both stored iff there is room for the two and their ids are free and different; they then get the same sequence, and order is lost |
| QueueOrder.RacingSendsExist | internal/service/relay_service.go:186-192 | two such sends, to an empty mailbox that holds two |
| EnvelopeSends.FindMessageIsExact | internal/infrastructure/persistence/delivery_queue_manager.go:72 | looking a message id up finds the one queued row that has it, if there is one |
| EnvelopeSends.VerdictIsHonest | internal/infrastructure/persistence/delivery_queue_manager.go:39-92 | with anything in between: success iff the message was stored now or seen queued with the same sender, recipient and payload; conflict iff another message was seen under its id; a quota refusal needs no room or an id in the way |
| EnvelopeSends.UndisturbedSend | internal/infrastructure/persistence/delivery_queue_manager.go:39-92 | with nothing in between the table decides the verdict exactly, and a refused or repeated send changes nothing |
| EnvelopeSends.RetryChangesNothing | internal/infrastructure/persistence/delivery_queue_manager.go:69-91 | after any run, repeating an accepted envelope while its row is queued succeeds and changes nothing, even in a full mailbox |
| SendEffects.RepeatIsExact | internal/infrastructure/persistence/delivery_queue_manager.go:69-91 | sending under a queued id, undisturbed, changes nothing and succeeds iff sender, recipient and payload are those of the row |
| DeliveryQueueRepositories.OrderBy | internal/infrastructure/persistence/manager.go:74-79 | ORDER BY with LIMIT: sorted, without repetition, and nothing better left out |
| DeliveryQueueRepositories.DeliveryQueueRepository.EnqueueEnvelope | internal/infrastructure/persistence/delivery_queue_manager.go:39-92 | in place: table and result are those of the two-statement send |
| DeliveryQueueRepositories.DeliveryQueueRepository.FanOutMessage | internal/infrastructure/persistence/delivery_queue_manager.go:158-189 | in place: the fan-out, and quota exceeded exactly when there were devices and none had room |
| DeliveryQueueRepositories.DeliveryQueueRepository.ClaimItem | internal/infrastructure/persistence/delivery_queue_manager.go:119-126 | in place: claims iff the row is there and no later than the time compared with |
| DeliveryQueueRepositories.DeliveryQueueRepository.UpdateState | internal/infrastructure/persistence/delivery_queue_manager.go:114-117 | in place: rewrites the retry state of the row, if it is there |
| DeliveryQueueRepositories.DeliveryQueueRepository.Acknowledge | internal/infrastructure/persistence/delivery_queue_manager.go:128-131 | in place: removes the row only for the device it belongs to |
| DeliveryQueueRepositories.DeliveryQueueRepository.Cleanup | internal/infrastructure/persistence/delivery_queue_manager.go:133-137 | in place: removes exactly the expired rows |
| DeliveryQueueRepositories.DeliveryQueueRepository.GetQueue | internal/infrastructure/persistence/delivery_queue_manager.go:94-112 | returns exactly the device's unexpired rows, each once, by sequence |
| DeliveryQueueRepositories.DeliveryQueueRepository.GetDueItems | internal/infrastructure/persistence/delivery_queue_manager.go:139-156 | returns due rows, most overdue first, none left out unless the batch is full of rows at least as overdue |
| RelayService.SendEnvelopeIsSound | internal/service/relay_service.go:151-207 | an accepted envelope was complete, its sender the owner or a friend, its device active, and it was stored or seen queued; a refused one leaves what others did |
| RelayService.UndisturbedSendComesLast | internal/service/relay_service.go:186-192 | a stored send between whose read and insert its mailbox gets no row keeps that mailbox in order and is last in every poll made then; inserts for other devices may come between |
| RelayService.QuietSendKeepsOrder | internal/service/relay_service.go:186-192 | if only acknowledgements, cleanups, claims and updates come between, all mailboxes stay in order |
| RelayService.FanOutReachesExactly | internal/service/relay_service.go:100-149 | a fan-out adds one row, with the payload, to each listed device with room, and nothing anywhere else |
| SendEffects.StoredEnvelopeIsTheRequest | internal/infrastructure/persistence/delivery_queue_manager.go:45-60 | a stored envelope is one row under a new id with the columns of the request, the sequence after the greatest of the mailbox, no retries, due at once; nothing else changes |
| SendEffects.StoredEnvelopeIsPolledUntilExpiry | internal/infrastructure/persistence/delivery_queue_manager.go:45-46 | until somebody removes it, its device polls it exactly before sending time plus time to live |
| SendEffects.StoredEnvelopeIsDueAtOnce | internal/infrastructure/persistence/delivery_queue_manager.go:139-156 | from its storage on, a dispatch takes it or is full of rows at least as overdue |
| SendEffects.SendVerdictIsExact | internal/service/relay_service.go:151-207 | which refusal a send gets, told from the request and the directories it looked at |
| SendEffects.FannedOutRowsAreTheRequest | internal/infrastructure/persistence/delivery_queue_manager.go:166-174 | each row a fan-out adds has the columns of the request and the sequence after the newest row of its mailbox, and is due at once |
| SendEffects.RoomIsExact | internal/infrastructure/persistence/delivery_queue_manager.go:51-52 | there is room exactly while the mailbox has fewer rows than allowed and its bytes and the new ones fit |
| RelayService.RelayManager.Send | internal/service/relay_service.go:100-149 | which error for which reason; a refused send changes nothing, an accepted one fans out to all active devices of the recipient, who is the sender or a friend |
| RelayService.RelayManager.SendEnvelope | internal/service/relay_service.go:151-207 | table and result are those of the checks, the sequence read, the statements of others and the enqueue, in this order |
| DeliveryWorkers.BackoffInRange | internal/service/relay_service.go:351-354 | for retry counts 1 to 21 the 64-bit shift and product do not overflow and the delay is the doubling one, between 60 and 3600 s |
| DeliveryWorkers.BackoffOverflows | internal/service/relay_service.go:351-354 | at count 59 the delay would be negative, so the bound on the count matters |
| DeliveryWorkers.AttemptMovesForward | internal/service/relay_service.go:327-358 | an attempt keeps the retry state in range, moves it strictly forward unless the row is parked, and schedules the next at least 60 s on |
| DeliveryWorkers.AttemptFollowsSchedule | internal/service/relay_service.go:327-364 | the exact schedule: a push waits 60 s for its acknowledgement, a failed one adds a retry and waits 30 s doubled by the new count, at most an hour, and more than 20 retries park the row for an hour; the first failed push is announced |
| DeliveryWorkers.AttemptOnTable | internal/service/relay_service.go:318-358 | after a claimed attempt the row follows the schedule if it is still there; undisturbed, no other row changes and the message is the same |
| DeliveryWorkers.DeliveryWorker.Process | internal/service/relay_service.go:318-365 | in place: claims iff the row is due as of the snapshot; then, after others' statements, the row follows the schedule exactly if it is still there; undisturbed nothing else changes; a notice goes out iff the push of a row with no retries failed |
| DeliveryProtocol.StepKeepsSafe | internal/service/relay_service.go:241-255 | each step of the dispatcher, the workers and everyone else, within the lease, keeps the protocol's invariant |
| DeliveryProtocol.RunKeepsSafe | internal/service/relay_service.go:318-365 | so does every run, with lost write-backs too |
| DeliveryProtocol.NoTwoWorkersHoldOneRow | internal/service/relay_service.go:321-325 | within the lease no two workers are ever between claim and write-back of the same row |
| DeliveryProtocol.ClaimsOfARowAreApart | internal/service/relay_service.go:321-358 | successive claims of a row are of ever later snapshots, none twice, and at least 60 s apart |
| DeliveryProtocol.SuccessfulClaimIsOfTheSnapshot | internal/infrastructure/persistence/manager.go:77 | a claim that succeeds finds retry count, acknowledgement deadline and next retry as in the snapshot, though the statement only compares times by `<=` |
| DeliveryProtocol.OverrunLetsAnotherIn | internal/service/relay_service.go:321-325 | once a holder of a live row has overrun the lease, a second worker can be dispatched and claim it |
| DeliveryProtocol.OverrunIsReachable | internal/service/relay_service.go:318-325 | from any start with a due row, a run in which the first worker takes 120 seconds ends with two holders |
| DeliveryProtocol.UndisturbedAttempt | internal/service/relay_service.go:318-365 | from every state with a due row a whole undisturbed attempt is possible, tries the socket unless retries are used up, reschedules the row exactly, announces the first failure, and leaves all other rows alone |
| DeliveryProtocol.ClaimHoldsForTwoMinutes | internal/service/relay_service.go:321-322 | a claim puts the row off to 120 s after the reading, and the lease is less than that |
| DeliveryBudget.RunKeepsBudget | internal/service/relay_service.go:327-364 | every run within the lease, its write-backs succeeding, keeps the attempts, pushes and notices of each row covered by its progress |
| DeliveryBudget.RedeliveryIsBounded | internal/service/relay_service.go:327-364 | a row sees at most 41 attempts, 21 successful pushes and one notification, and its retry count stays in 0..21 |
| DeliveryBudget.ParkedForGood | internal/service/relay_service.go:332-337 | a parked row stays parked and is never offered to a socket again |
| DeliveryBudget.LastRetryIsParked | internal/service/relay_service.go:332-337 | a retry count of 21 in the table alone means parked, snapshots in work included |
| PrekeyStore.LeastFromIsLeast | internal/infrastructure/persistence/prekey_manager.go:112-117 | the subquery finds the least available id, or there is none |
| PrekeyRepositories.PrekeyRepository.InsertBatch | internal/infrastructure/persistence/prekey_manager.go:77-93 | in place: the loop is the batch insert that `InsertsAddAll` describes |
| PrekeyRepositories.PrekeyRepository.UploadPrekeys | internal/infrastructure/persistence/prekey_manager.go:17-96 | in place: commits the whole upload, or rolls back on a limit or an unknown device |
| PrekeyRepositories.PrekeyRepository.ClaimPrekeys | internal/infrastructure/persistence/prekey_manager.go:98-187 | in place: commits one bundle, or rolls both updates back for an inactive device |
| PrekeyRepositories.PrekeyRepository.ClaimPrekeysIdempotent | internal/infrastructure/persistence/prekey_manager.go:189-330 | in place: replays a record, or writes record and claim together, or leaves everything as it was |
| PrekeyRepositories.LockingIsInvisible | internal/infrastructure/persistence/prekey_manager.go:222-229 | the empty record inserted first does not affect what is claimed |
| PrekeyRuns.StepKeepsKeys | internal/infrastructure/persistence/prekey_manager.go:77-84 | no operation removes or alters a one-time key or makes a consumed one available again; a repeated upload does not either |
| PrekeyRuns.RunKeepsKeys | internal/infrastructure/persistence/prekey_manager.go:77-147 | the same over every run |
| PrekeyRuns.HandoutIsLeastAvailable | internal/infrastructure/persistence/prekey_manager.go:107-147 | a committed claim hands out the least available key of each kind and consumes exactly that |
| PrekeyRuns.EmptyHandoutMeansNoneAvailable | internal/infrastructure/persistence/prekey_manager.go:120-126 | a kind is left out only when no key of it is available |
| PrekeyRuns.NoKeyIsHandedOutTwice | internal/infrastructure/persistence/prekey_manager.go:107-147 | over any run of uploads and both kinds of claim no two hand-outs are of the same key |
| PrekeyRuns.KeysAreConserved | internal/infrastructure/persistence/prekey_manager.go:77-147 | over any run, rows uploaded equal available rows plus keys handed out |
| PrekeyRuns.LimitHolds | internal/infrastructure/persistence/prekey_manager.go:31-49 | over any run no device has more than 10000 keys of a kind |
| PrekeyRuns.RunKeepsRecords | internal/infrastructure/persistence/prekey_manager.go:315-327 | committed idempotency records are complete and never change |
| PrekeyRuns.ClaimHappensOnce | internal/infrastructure/persistence/prekey_manager.go:203-229 | after any run, a claim under a used key returns the first response for the same fingerprint and fails for another; either way nothing changes and nothing is handed out |
| PrekeyRuns.FailureChangesNothing | internal/infrastructure/persistence/prekey_manager.go:149-156 | every failing branch leaves every table as it was |
| PrekeyEffects.InsertsAddAll | internal/infrastructure/persistence/prekey_manager.go:77-93 | a batch adds exactly its new ids, each available under the key first offered for it, and changes no other key |
| PrekeyEffects.UploadVerdictIsExact | internal/infrastructure/persistence/prekey_manager.go:31-49 | an upload is accepted iff neither kind would exceed 10000 keys and the device is known or nothing is written; a refused one changes nothing |
| PrekeyEffects.UploadStoresTheRequest | internal/infrastructure/persistence/prekey_manager.go:51-95 | an accepted upload adds exactly the new ids of each batch, replaces exactly the signed keys it brings, and touches no other device or table |
| PrekeyEffects.ClaimIsExact | internal/infrastructure/persistence/prekey_manager.go:98-187 | a claim succeeds iff the device is active; the bundle has its identity key, its signed key of each kind and the least available one-time key of each kind, and exactly those are used up |
| PrekeyEffects.FirstClaimIsExact | internal/infrastructure/persistence/prekey_manager.go:222-329 | the first response is built from the very bundle whose keys are used up and is recorded with the fingerprint; it fails iff user, device or builder refuse, each with its own error |
| PrekeyEffects.ClaimsDrain | internal/infrastructure/persistence/prekey_manager.go:107-147 | `n` claims hand out the `n` least available keys of each kind in increasing order, or all if there are fewer |
| PrekeyEffects.UploadedKeysAreClaimed | internal/infrastructure/persistence/prekey_manager.go:77-147 | end to end, after an upload enough claims hand out exactly the uploaded new ids, each once, in order, with the public keys first offered |
| PrekeyEffects.UploadedSignedKeyIsClaimed | internal/infrastructure/persistence/prekey_manager.go:51-180 | a signed key uploaded is the one that claims return |
| SocketManagers.SocketConnectionManager.Accept | internal/service/websocket_manager.go:71-90 | a session comes with exactly one token; a refusal or failed upgrade leaves the count as it was |
| SocketManagers.SocketConnectionManager.Register | internal/service/websocket_manager.go:92-97 | the new session takes the place, the replaced one is closed, no other is touched |
| SocketManagers.SocketConnectionManager.Unregister | internal/service/websocket_manager.go:122-132 | closes its session, removes the entry only if it is its own, returns one token |
| SocketManagers.SocketConnectionManager.FinishDelivery | internal/service/websocket_manager.go:174-187 | true iff written; after a failed write the session is closed and only its own entry removed |
| SocketManagers.SocketConnectionManager.DisconnectDevice | internal/service/websocket_manager.go:190-198 | closes and removes the device's session and touches no other |
| SocketManagers.SocketConnectionManager.Collect | internal/service/websocket_manager.go:201-207 | empties the registry; the list holds exactly the sessions that were there |
| SocketManagers.SocketConnectionManager.Shutdown | internal/service/websocket_manager.go:200-217 | empties the registry and closes every session that was in it |
| SocketSafety.ThreadMoves | internal/service/websocket_manager.go:71-217 | a step takes only free locks and releases only its own, and changes no other thread |
| SocketSafety.ThreadTouches | internal/service/websocket_manager.go:71-217 | the registry changes only under its write lock, sessions leave it only for an allowed cause and closed or collected, tokens follow handlers |
| SocketSafety.StepKeepsSafe | internal/service/websocket_manager.go:71-217 | every step of any thread keeps locks, tokens, registration and the account of live sessions |
| SocketSafety.RunKeepsSafe | internal/service/websocket_manager.go:71-217 | under every interleaving from the start: tokens are the live handler frames and within the cap, registered sessions are those of live handlers of their device, and every live joined session is registered, closed or pending in a shutdown |
| SocketRuns.RegistryWithinCap | internal/service/websocket_manager.go:71-97 | distinct devices have distinct sessions, and registry size is at most tokens, at most the cap |
| SocketRuns.EvictionHasACause | internal/service/websocket_manager.go:122-132 | a session leaves the registry only by its own cleanup, its own failed write, a newer connection, a disconnection or a shutdown, and is then closed or about to be |
| SocketRuns.OtherSessionsCannotEvict | internal/service/websocket_manager.go:178-182 | another session's cleanup or failed write never evicts a session |
| SocketRuns.SessionKeepsItsPlace | internal/service/websocket_manager.go:71-217 | over a whole run a session keeps its place until a step that may take it |
| SocketRuns.LeftForGood | internal/service/websocket_manager.go:92-97 | a session that has left the registry never comes back |
| SocketRuns.ShutdownClosesAll | internal/service/websocket_manager.go:200-217 | with the registry empty and no shutdown in progress, every live session that had joined is closed |
| SocketRuns.LockOrder | internal/service/websocket_manager.go:147-182 | no thread waits for anything while holding the registry lock, or for a session mutex while holding one |
| SocketRuns.ReadyCanStep | internal/service/websocket_manager.go:71-217 | a ready thread has a next step whatever the network answers |
| SocketRuns.TokenReleaseNeverBlocks | internal/service/websocket_manager.go:131 | a handler that gives its token back finds one in the channel |
| SocketRuns.DeadlockFree | internal/service/websocket_manager.go:71-217 | whenever a thread waits for a lock, it or a holder of a lock or a waiting writer is ready to step |
| SocketRuns.RegistrationAlone | internal/service/websocket_manager.go:92-97 | the machine's registration steps, undisturbed, are the single update that the object makes |
| SocketRuns.CleanupAlone | internal/service/websocket_manager.go:123-130 | likewise for a handler's cleanup |
| SocketRuns.FailedWriteAlone | internal/service/websocket_manager.go:175-182 | likewise for a failed write |
| SocketRuns.DisconnectionAlone | internal/service/websocket_manager.go:190-198 | likewise for a disconnection |
| SocketDeliveries.CarriedSessionWasRegistered | internal/service/websocket_manager.go:148-150 | over every interleaving the session a delivery carries was the one registered for its device at an earlier moment of that delivery |
| SocketDeliveries.MessagesStayWithTheirDevice | internal/service/websocket_manager.go:147-188 | over every interleaving a delivery writes only to sessions of its own device |
| SocketDeliveries.LookupLeadsToTheWrite | internal/service/websocket_manager.go:148-158 | a lookup that finds a session goes on to write to that session, one that finds none ends |
| SocketDeliveries.WriteSucceeds | internal/service/websocket_manager.go:175-187 | a successful write ends the delivery and changes nothing |
| SocketDeliveries.WriteFails | internal/service/websocket_manager.go:175-185 | a failed write closes its session, removes it if it is still registered, and ends the delivery |
| SocketDeliveries.HeartbeatsTendTheirSession | internal/service/websocket_manager.go:102-120 | a ping that works changes nothing, one that fails closes its own session, and a stopped heartbeat can end |
| SocketDeliveries.ConnectionIsRegistered | internal/service/websocket_manager.go:71-120 | below the cap a connection gets a token, replaces and closes what the device had, and starts a heartbeat |
| SocketDeliveries.ConnectionIsRefused | internal/service/websocket_manager.go:72-84 | at the cap nothing changes, and a failed upgrade gives its token back |
| SocketDeliveries.HandlerCleansUp | internal/service/websocket_manager.go:122-144 | when its read fails a handler closes its session, stops its heartbeat, leaves the registry if still there and returns its token |
| SocketDeliveries.ShutdownEnds | internal/service/websocket_manager.go:200-217 | an undisturbed shutdown ends with the registry empty and exactly its sessions closed |
| FriendshipStore.RunKeepsConsistent | internal/infrastructure/persistence/friendship_manager.go:75-95 | after any run a request and a friendship of a pair never coexist, and an accept meets neither the duplicate nor a constraint branch |
| FriendshipStore.Transitions | internal/infrastructure/persistence/manager.go:82-88 | the only changes of a pair, each with the user who may make it |
| FriendshipStore.StatementsAreExact | internal/infrastructure/persistence/friendship_manager.go:67-232 | exactly when each statement takes effect, what it makes of its pair and what it reports otherwise; other pairs stay as they are |
| FriendshipStore.PairIsUnordered | internal/infrastructure/persistence/friendship_manager.go:76-79 | a pair is the same in either order and holds no other users |
| FriendshipStore.FriendshipNeedsConsent | internal/infrastructure/persistence/friendship_manager.go:160-194 | under any interleaving every friendship was asked for by one user and accepted by the other while that very request was live |
| FriendService.VerdictsAreHonest | internal/service/friend_service.go:66-107 | every specific verdict of an add was true of the pair at a moment within the call |
| FriendService.FailureMeansInterference | internal/service/friend_service.go:76-106 | the generic failure means that others changed the pair during each of the three attempts |
| FriendService.UndisturbedAddIsExact | internal/service/friend_service.go:66-107 | if others leave the pair alone after its insert, the first attempt gives the exact verdict for the relation found, strangers included, and leaves the caller's request or what was there |
| FriendService.WhatUndisturbedMeans | internal/service/friend_service.go:76-102 | a call that finds strangers is never disturbed, nor is one whose pair others leave alone between its statements |
| FriendService.AnswersAreHonest | internal/service/friend_service.go:143-222 | accept, decline and cancel complete iff the right sender's request was there at the check and at the statement, change that pair only, and never meet a storage error |
| FriendService.EarlyRefusals | internal/service/friend_service.go:66-74 | an unknown target and oneself are refused, each with its own verdict, before any statement |
| FriendService.StorageFailureMeansUnknownUser | internal/service/friend_service.go:101-104 | an add fails in storage only if one of the two is not a user |
| FriendService.CallsAreRuns | internal/service/friend_service.go:66-222 | a service call, interleaved with anything, is a run of statements whose own ones are all the one request or answer it is for |
| FriendService.CallsNeedConsent | internal/service/friend_service.go:66-222 | strangers that are friends after a call were asked for and accepted while the request was live, and unless the call is an accept somebody else accepted |
| FriendshipRepositories.FriendshipRepository.CreateFriendRequest | internal/infrastructure/persistence/friendship_manager.go:75-95 | in place: the insert under its guard and constraints, and its outcome |
| FriendshipRepositories.FriendshipRepository.GetFriendRequestSender | internal/infrastructure/persistence/friendship_manager.go:97-110 | the sender of the pair's request, in either order of the pair |
| FriendshipRepositories.FriendshipRepository.AcceptFriendRequest | internal/infrastructure/persistence/friendship_manager.go:160-194 | in place: both statements or neither |
| FriendshipRepositories.FriendshipRepository.DeclineFriendRequest | internal/infrastructure/persistence/friendship_manager.go:196-213 | in place: removes the request only if it is that sender's |
| FriendshipRepositories.FriendshipRepository.CancelFriendRequest | internal/infrastructure/persistence/friendship_manager.go:215-232 | in place: removes the request only if it is that sender's |
| FriendshipRepositories.FriendshipRepository.RemoveFriendship | internal/infrastructure/persistence/friendship_manager.go:67-73 | in place: removes the pair's friendship, in either order of the pair |
| FriendshipRepositories.FriendServiceImpl.AddFriend | internal/service/friend_service.go:66-107 | the retry loop, with others' statements before each of its own, ends as the three attempts do |
| FriendshipRepositories.FriendServiceImpl.AcceptRequest | internal/service/friend_service.go:143-168 | table and verdict are those of check, others' statements, accept |
| FriendshipRepositories.FriendServiceImpl.DeclineRequest | internal/service/friend_service.go:170-195 | likewise for decline |
| FriendshipRepositories.FriendServiceImpl.CancelRequest | internal/service/friend_service.go:197-222 | likewise for cancel, which only the sender may do |
| SessionStore.LookupAgreesWithTable | internal/infrastructure/persistence/session_manager.go:104-131 | over every run with one clock reading a call, a lookup answers, errors included, exactly what the table alone would |
| SessionStore.LookupFollowsHistory | internal/infrastructure/persistence/session_manager.go:67-143 | with a non-decreasing clock and tokens issued once, a lookup returns a user iff that user logged in with the token at most a day ago and has not logged out |
| SessionStore.ReusedTokenIsHidden | internal/infrastructure/persistence/session_manager.go:67-84 | with a cleanup across a clock tick, a token issued again is refused although its row is valid |
| SessionStore.InterruptedLookupAgreesIff | internal/infrastructure/persistence/session_manager.go:115-130 | a lookup interrupted between its query and its store leaves the cache in agreement iff in between there was no logout of the token, no cleanup after its expiry and no lookup after its expiry that missed the cache |
| SessionStore.RowStaysIff | internal/infrastructure/persistence/session_manager.go:67-143 | over any run the row of a session stays iff no such call takes it, and whether it is cached is told by the calls alone |
| SessionStore.LogoutDuringLookup | internal/infrastructure/persistence/session_manager.go:115-143 | with a logout in between, the table knows no session and the lookup still answers |
| SessionStore.InterruptedLookupFollowsHistoryIff | internal/infrastructure/persistence/session_manager.go:115-130 | after an interrupted lookup the answers follow the login history iff there was no logout in between or the session has expired |
| SessionRepositories.SessionRepository.CreateSession | internal/infrastructure/persistence/session_manager.go:93-102 | in place: a row for a known user and an unused hash, and nothing otherwise |
| SessionRepositories.SessionRepository.GetUserIdBySession | internal/infrastructure/persistence/session_manager.go:104-131 | in place: cache, table and answer; an agreeing cache stays so and answers as the table |
| SessionRepositories.SessionRepository.DeleteSessionByHash | internal/infrastructure/persistence/session_manager.go:133-138 | in place: neither cache nor table knows the session afterwards |
| SessionRepositories.SessionRepository.CleanupExpiredSessions | internal/infrastructure/persistence/session_manager.go:67-84 | in place: the sweep in any order leaves exactly the unexpired entries, the statement the unexpired rows |

## Left out

- HTTP handlers, JSON and base64, routing, headers, logging, configuration and start-up: plumbing.
- Encryption, password hashing and token generation; `vault` reveals and username lookups by hash appear as the results of lookups.
- SQLite itself, its pragmas and migrations: statements are atomic, transactions serial, and database errors other than failed constraints and lost state updates do not occur. In particular the sequence number 1 that `SendEnvelope` falls back to when its sequence read fails is not modelled.
- `Enqueue` (internal/infrastructure/persistence/delivery_queue_manager.go:29-34), which ignores quotas and which no service calls.
- `created_at` of queue rows and prekeys, and integer widths of ids, sequences and times other than the retry shift, the limiter's durations and prekey ids.
- Context cancellation, and the waiting and time limits of `RelayManager.Shutdown`.
- Sockets beyond open and closed; a write may succeed or fail but ends. Ping and pong timing, read limits and message encoding are not modelled, and neither is the read loop's fairness.
- SocketManagers.SocketConnectionManager.Shutdown: is the undisturbed call; its interleaving with others is in the machine of `SocketRegistry`.
- DeliveryProtocol.RunKeepsSafe: takes the dispatcher's batch as any due rows, since no property depends on which are picked; `GetDueItems` has its own contract.
- DeliveryBudget.RedeliveryIsBounded: takes the push adapter to be configured; without it there are no notifications at all.
- Friend lists, request lists, presence, profiles, device registration, health checks and `GaugeLimiter`: each would add members that one body already tells.
- Deletion of users, with its cascades: no service issues it.
