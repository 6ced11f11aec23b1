# Verification models for aHand's messaging and coordination layers

aHand connects a cloud hub to daemons that run on devices behind NAT. This project models the parts of it
whose guarantees depend on interleavings, cuts and reconnects, and proves what they keep over whole runs.
`dafny verify dfyconfig.toml` checks everything.

| file | what it models |
|---|---|
| `Numbered.dfy` | numbered logs: trimming, filtering, keeping the newest |
| `Outbox.dfy` | the in-process outbox of the daemon and of the hub core: stamp, capped replay buffer, cumulative acknowledgement |
| `Link.dfy` | the delivery protocol between two outbox ends over a link that can be cut at any moment, in both directions |
| `Loss.dfy` | what a push out of order costs in that protocol |
| `Endpoint.dfy` | the sender of that protocol is the daemon's outbox in one direction and the hub's Redis stream in the other |
| `LocalStore.dfy` | the hub's process-local outbox store, against the Redis scripts |
| `HubStore.dfy` | the hub's durable outbox: lease lock, counter and stream, changed by atomic Redis scripts of several hub sessions |
| `OutputStream.dfy` | a job's resumable output stream: one recorder, one subscriber, a trimmed history and a bounded broadcast ring |
| `PendingRequests.dfy` | the in-flight file-request table: an atomic counter beside a concurrent map, any number of threads |
| `DeviceOwnership.dfy` | racing pre-registrations of one device as Postgres transactions, against the in-memory store |
| `Webhook.dfy` | the webhook delivery queue, in memory and in Postgres |
| `Bootstrap.dfy` | bootstrap tokens and reservations, in memory and as Redis scripts |
| `HelloClock.dfy` | the compare-exchange clock for Hello timestamps, and the hub's replay check |
| `HelloPayload.dfy` | the bytes a Hello signature covers, with a decoder |
| `ControlJobs.dfy` | the control-job tracker and its correlation key |
| `AppTools.dfy` | one application-tool call id: duplicates, approval, timeout, idempotency registry |
| `AuditWriter.dfy` | the buffered audit store: queue, batches, store, fallback file |

Code that updates an object in place is a `class` whose methods are proved against functions on values.
Where the guarantee is about interleaving, the same functions (or finer steps) are the transitions of a
state machine; a run is a sequence of events, an event that is not possible in a state changes nothing, and
the theorems quantify over all runs. Atomics are sequentially consistent, the link is a FIFO queue that
is emptied when it is cut, and a Redis script or a lock's critical section is one step.

## What turned out false of the code

Each has a run that shows it and the exact condition under which the code does keep the property.

- Frames can be lost. `send` of the daemon releases the outbox lock before it pushes into the connection, and
  receivers acknowledge by the largest number seen. A push is harmless exactly when every buffered frame below
  it has entered the connection (`Loss.PushIsSafeExactlyWhenInOrder`); overtaking threads and handles that
  outlived their connection break that.
- The daemon does not validate acknowledgements. Its buffer agrees with the history all along a run exactly when
  every acknowledgement names something issued (`Outbox.DaemonAgreesExactlyOnValidAcks`).
- The hub accepts an acknowledgement of a number that is reserved but not appended yet, and the frame then enters
  the stream below it (`HubStore.AckIsSafeExactly`, `HubStore.AcksAreSafeExactly`).
- An application-tool handler can run twice: `mark_completed` leaves the running set under one lock and records
  the outcome under another, and a duplicate that looks in between finds the call unknown. The handler can
  start again exactly when the task in between had run it (`AppTools.HandlerStartsOnceExactlyOutsideTheGap`), and a
  second outcome can be recorded exactly when some task is in between (`AppTools.CheckIsSafeExactlyOutsideTheGap`).
- `find_by_correlation` can miss a live job: it, and `finalize`, remove an index entry that names a job that is
  live or just being registered (`ControlJobs.IndexIsRightExactlyAfterSafeDrops`).
- The process-local outbox store does not mirror the Redis scripts when two sends overtake each other between
  reserving and appending: it appends where Redis refuses (`LocalStore.AppendMirrorsRedis`), and its trim loop
  then keeps acknowledged frames (`LocalStore.TrimIsRightExactly`).
- A resync does not always mean a loss. A subscriber whose ring was overrun while it replayed the history is sent
  one although it has everything (`OutputStream.ResyncWithoutLoss`); it has lost an item exactly when the next
  one it needs has left the ring (`OutputStream.LagResyncIsNeededExactly`).
- The two webhook stores differ at the exact expiry instant of a lease (`Webhook.StoresOfferTheSame`).

Two comments of the source do not describe its code, and the model follows the code: the reconcile script does
not refresh key retention in its normal branch, and the insert of a pre-registration carries
a conflict clause, so that losing the first-insert race is decided by its guard rather than by a duplicate-key
error (the model allows that error too, and the retry).

## Model

| member | source | states |
|---|---|---|
| Outbox.Outbox.constructor | crates/ahandd/src/outbox.rs:20-28 | a new outbox numbers from 1, has acknowledged nothing and buffers nothing |
| Outbox.Outbox.ReserveSeq | crates/ahand-hub-core/src/outbox.rs:23-27 | hands out the next number and advances by one |
| Outbox.Outbox.Stamp | crates/ahandd/src/outbox.rs:32-38 | the envelope carries the next number, the receive watermark as its acknowledgement, and the payload |
| Outbox.Outbox.Store | crates/ahandd/src/outbox.rs:41-47 | the eviction loop leaves exactly the newest `maxBuffer` frames, the new one last |
| Outbox.Outbox.PrepareOutbound | crates/ahandd/src/outbox.rs:88-93 | stamp and store under one lock: the stored frame is the returned one, with the next number, the receive watermark and the payload |
| Outbox.Outbox.OnRecv | crates/ahandd/src/outbox.rs:50-54 | the receive watermark becomes the larger of itself and the number received, and nothing else changes |
| Outbox.Outbox.OnPeerAck | crates/ahandd/src/outbox.rs:57-68 | the watermark is the maximum and the loop pops the whole acknowledged front |
| Outbox.Outbox.TryOnPeerAck | crates/ahand-hub-core/src/outbox.rs:57-63 | refuses, changing nothing, exactly the acknowledgements above the last issued number |
| Outbox.Outbox.DrainUnacked | crates/ahandd/src/outbox.rs:71-73 | returns the buffered frames in order and keeps them |
| Outbox.Outbox.ReplayFrom | crates/ahand-hub-core/src/outbox.rs:65-71 | returns the buffered frames above the acknowledgement, in order |
| Outbox.SendAcknowledgesLargestReceived | crates/ahandd/src/outbox.rs:32-54 | after any run of sends, receives and acknowledgements, in both forms, the next frame stored is numbered one above the frames sent, acknowledges the largest number received in that run, and carries its payload |
| Outbox.BufferAgreesWithHistory | crates/ahandd/src/outbox.rs:32-73 | after every run with valid acknowledgements the buffer is the newest `maxBuffer` frames of the whole history above the watermark |
| Outbox.ValidatedBufferAgreesWithHistory | crates/ahand-hub-core/src/outbox.rs:29-63 | the validating form needs no hypothesis about acknowledgements |
| Outbox.UnvalidatedAckExact | crates/ahandd/src/outbox.rs:57-68 | after one acknowledgement and one send, buffer and history agree if and only if the acknowledgement named something issued |
| Outbox.DaemonAgreesExactlyOnValidAcks | crates/ahandd/src/ahand_client.rs:617-626 | all along a run, buffer and history agree if and only if every acknowledgement of the run is valid |
| Outbox.OverAckDropsNextFrame | crates/ahandd/src/outbox.rs:57-68 | after an acknowledgement from the future, the next frame sent is dropped by an acknowledgement that says nothing |
| Outbox.ReplayAgreesWithHistory | crates/ahand-hub-core/src/outbox.rs:65-71 | replay is the newest `maxBuffer` of the full history above both acknowledgements |
| Link.InOrderRunsLoseNothing | crates/ahandd/src/ahand_client.rs:389-401 | over every run with in-order pushes, in both directions, cuts, replays, superseded receive loops, stale acknowledgements and evictions included: a frame at or below the sender's watermark was handled by the receiver or evicted by the cap, and no stored frame is lost |
| Link.HubHandlesAscending | crates/ahand-hub/src/ws/device_gateway.rs:804-806 | in every run, lossy or not, the hub handles a frame only above everything handled since the device connected, superseded loops included, so none twice in a connection |
| Link.DeviceAnnouncesLargest | crates/ahandd/src/ahand_client.rs:354 | in every run the watermark the device acknowledges and announces is the largest number it ever handled |
| Link.ReconnectReplaysBuffer | crates/ahandd/src/ahand_client.rs:389-401 | after any run a reconnect puts the whole buffer on the wire, and draining it makes the receiver handle exactly those frames, in order |
| Link.ReconnectEmptiesBuffer | crates/ahand-hub/src/ws/device_gateway.rs:804-818 | after any run a reconnect, draining the wire and taking the acknowledgements leave the daemon nothing to replay |
| Link.ReconnectDelivers | crates/ahandd/src/ahand_client.rs:389-401 | frames arrive: with the link down after any in-order run, one reconnect and draining the wire leave every stored frame handled by the receiver or evicted by the cap |
| Loss.PushIsSafeExactlyWhenInOrder | crates/ahandd/src/ahand_client.rs:109-118 | the next push loses nothing in any in-order continuation if and only if every buffered frame below it has entered the connection |
| Loss.OutOfOrderPushLoses | crates/ahand-hub/src/ws/device_gateway.rs:384-397 | from any state, an out-of-order push has a continuation without further pushes after which an older frame is gone in every future |
| Loss.GoneForever | crates/ahandd/src/outbox.rs:57-73 | a frame that is neither handled, buffered, on the wire nor in live hands stays undelivered whatever happens |
| Loss.OvertakingThreadsLoseAFrame | crates/ahandd/src/ahand_client.rs:109-118 | two threads on one connection: a run from the initial state that loses frame 1 for good |
| Loss.StaleHandleLosesAFrame | crates/ahandd/src/ahand_client.rs:109-118 | a sender handle of an old connection: a run from the initial state that loses frame 1 for good |
| Endpoint.PrepareIsStamp | crates/ahandd/src/outbox.rs:88-93 | stamp-and-store of the outbox is the protocol's stamp, plus one eviction when the buffer was full |
| Endpoint.AckIsAck | crates/ahandd/src/ahand_client.rs:617-626 | the outbox's acknowledgement is the protocol sender's |
| Endpoint.ReconnectReplaysBuffer | crates/ahandd/src/ahand_client.rs:389-401 | a reconnect puts exactly the outbox buffer on the wire, in order |
| Endpoint.ReconcileIsConnect | crates/ahand-hub-store/src/outbox_lua.rs:43-68 | reconciling at Hello is the hub sender's part of a reconnect, and the remaining stream is what is replayed |
| Endpoint.ObserveIsAck | crates/ahand-hub-store/src/outbox_lua.rs:100-117 | the observe script is the hub sender's acknowledgement |
| Endpoint.AppendIsStamp | crates/ahand-hub/src/ws/device_gateway.rs:225-278 | an append of any reserved number, with others outstanding and any drop by the cap, is the skips before it, one stamp and the evictions |
| Endpoint.OutboxRunsLoseNothing | crates/ahandd/src/outbox.rs:32-73 | every run of the daemon's outbox is a run of the link; pushed in order, every stored frame was handled by the hub, is in the buffer or fell to the cap, and every acknowledged one was handled or fell to the cap |
| Endpoint.HubRunsLoseNothing | crates/ahand-hub-store/src/outbox_lua.rs:15-117 | every run of the scripts, with any sessions and reservations, is a run of the link; pushed in order, every appended frame was handled by the device, is in the stream or fell to the cap |
| HubStore.RedisOutbox.TryAcquireLock | crates/ahand-hub-store/src/outbox_lua.rs:15-21 | takes the lease exactly when nobody holds it; on success the caller owns it, otherwise the holder stays |
| HubStore.RedisOutbox.RenewLock | crates/ahand-hub-store/src/outbox_lua.rs:23-32 | succeeds exactly for the holder |
| HubStore.RedisOutbox.ReleaseLock | crates/ahand-hub-store/src/outbox_lua.rs:34-41 | frees the lease only for its holder |
| HubStore.RedisOutbox.ReconcileOnHello | crates/ahand-hub-store/src/outbox_lua.rs:43-68 | both branches: a device that knows more starts the store over above it, otherwise the stream is trimmed at the acknowledgement; strangers change nothing |
| HubStore.RedisOutbox.FencedIncrSeq | crates/ahand-hub-store/src/outbox_lua.rs:70-81 | only the holder reserves a number |
| HubStore.RedisOutbox.FencedXadd | crates/ahand-hub-store/src/outbox_lua.rs:83-98 | only the holder appends, only above the last id, and the cap drops only a front beyond the maximum length |
| HubStore.RedisOutbox.BoundedObserveAck | crates/ahand-hub-store/src/outbox_lua.rs:100-117 | an acknowledgement above the counter changes nothing, any other trims |
| HubStore.RedisOutbox.UnackedFrames | crates/ahand-hub-store/src/outbox_store.rs:192-213 | returns exactly the frames above the acknowledgement, in order, all of them for zero |
| HubStore.HolderKeepsLease | crates/ahand-hub-store/src/outbox_lua.rs:15-41 | over every continuation without an expiry and without the holder's own release, whatever other sessions acquire, renew or release, the holder keeps the lease and nobody else has it |
| HubStore.FirstComerHoldsLease | crates/ahand-hub-store/src/outbox_lua.rs:15-21 | a free lease goes to the first session that asks, and stays with it in every such continuation |
| HubStore.IssuedNumbersIncrease | crates/ahand-hub-store/src/outbox_lua.rs:43-81 | over every interleaving of sessions the numbers handed out strictly increase, and the counter is the last one handed out or the last bootstrap floor, so none is skipped |
| HubStore.StreamIsUnackedSuffix | crates/ahand-hub-store/src/outbox_lua.rs:43-117 | in every reachable state the stream ascends, lies between the bootstrap floor and the counter, and is a suffix of all appends that misses nothing above acknowledgement and cap; an unacknowledged frame is missing only with 10,000 newer ones behind it |
| HubStore.StaleReservationNeverAppended | crates/ahand-hub-store/src/outbox_lua.rs:15-98 | a number reserved by a session that has lost the lease, or overtaken by a later append, never becomes an entry |
| HubStore.ReplayAfterReconcileIsExact | crates/ahand-hub-store/src/outbox_store.rs:161-213 | after a reconcile, replay is exactly the appended frames above the acknowledgement and the cap, on every run whose acknowledgements are safe |
| HubStore.AckIsSafeExactly | crates/ahand-hub-store/src/outbox_lua.rs:100-117 | no continuation with safe acknowledgements ever has an acknowledged frame in the stream if and only if every number the lease holder has yet to append is above this acknowledgement |
| HubStore.AcksAreSafeExactly | crates/ahand-hub-store/src/outbox_lua.rs:83-117 | the acknowledgements of a run are all safe if and only if at no moment of it the next append can put an acknowledged frame into the stream |
| HubStore.PrematureAckLeavesAckedFrame | crates/ahand-hub-store/src/outbox_lua.rs:100-117 | a run that leaves an acknowledged frame in the stream |
| LocalStore.InMemoryOutbox.PopFront | crates/ahand-hub/src/ws/in_memory_outbox.rs:128-134 | the trim loop pops the acknowledged front and nothing behind the first frame above it |
| LocalStore.InMemoryOutbox.ReconcileOnHello | crates/ahand-hub/src/ws/in_memory_outbox.rs:101-136 | both branches and the ownership check, trimming at the front |
| LocalStore.InMemoryOutbox.XaddFrame | crates/ahand-hub/src/ws/in_memory_outbox.rs:161-178 | appends for the holder whatever the number, and the cap loop leaves the newest 10000 |
| LocalStore.InMemoryOutbox.ObserveAck | crates/ahand-hub/src/ws/in_memory_outbox.rs:180-197 | ignores an acknowledgement above the counter, otherwise trims at the front |
| LocalStore.AppendMirrorsRedis | crates/ahand-hub/src/ws/in_memory_outbox.rs:161-178 | the process-local append equals the Redis append with an exact cap if and only if the number is above the last id |
| LocalStore.TrimIsRightExactly | crates/ahand-hub/src/ws/in_memory_outbox.rs:180-197 | throughout a run of the process-local store, popping the front equals trimming by id for every acknowledgement if and only if every append of the run was above what was still buffered |
| LocalStore.OvertakingAppendsDiffer | crates/ahand-hub/src/ws/in_memory_outbox.rs:161-197 | two overtaking sends: the buffer becomes 2, 1 and an acknowledgement of 1 leaves frame 1, while Redis refuses the second append |
| LocalStore.RunsMirrorRedis | crates/ahand-hub/src/ws/in_memory_outbox.rs:33-197 | under an exact cap the process-local store equals the Redis store all along a run if and only if the owners append their numbers in order |
| OutputStream.JobOutput.Record | crates/ahand-hub/src/output_stream.rs:243-269 | the item gets the next number, the history grows by it up to `maxHistory` and then drops exactly its oldest items, a terminal item sets the flag for good |
| OutputStream.RecordIsFourSteps | crates/ahand-hub/src/output_stream.rs:243-269 | an uninterrupted recorder's four steps have the method's effect |
| OutputStream.ReplayHistory | crates/ahand-hub/src/output_stream.rs:148-174 | the replay loop computes the replay function: skip what was seen, stop at the terminal item, end if the job had finished |
| OutputStream.ReplayLoopIsSteps | crates/ahand-hub/src/output_stream.rs:159-174 | that function is a run of the subscriber's replay steps |
| OutputStream.SubscriberSeesNoSilentGap | crates/ahand-hub/src/output_stream.rs:137-196 | for every interleaving and any ring lag: events are recorded items, every jump past the previous id (the resumed id included) is directly preceded by a resync, and nothing follows the terminal event |
| OutputStream.IdsStrictlyIncrease | crates/ahand-hub/src/output_stream.rs:137-196 | event ids strictly increase, across resyncs, and lie above the id resumed from |
| OutputStream.TerminalIsNeverMissed | crates/ahand-hub/src/output_stream.rs:143-194 | once the newest item is terminal and sent, a live subscriber that resumed below it has something to receive, and finitely many receives, any lag included, end it with a terminal event |
| OutputStream.FinishedSubscriberGotTheTerminal | crates/ahand-hub/src/output_stream.rs:143-176 | a subscriber that found the job finished, and has ended, was given the terminal item if that is the newest one and lies above the id resumed from |
| OutputStream.HistoryIsFull | crates/ahand-hub/src/output_stream.rs:250-257 | in every reachable state the history is exactly the last `maxHistory` items pushed, or all of them |
| OutputStream.SnapshotResyncsExactly | crates/ahand-hub/src/output_stream.rs:148-157 | the snapshot announces a gap if and only if the item after the id resumed from has left the history |
| OutputStream.NoResyncMeansNothingMissed | crates/ahand-hub/src/output_stream.rs:137-196 | a subscriber that resumes and was sent no resync got exactly the items after its id, in order, in every run |
| OutputStream.CloseSubscriberMissesNothing | crates/ahand-hub/src/output_stream.rs:148-174 | a subscriber at most `maxHistory` items behind gets from the snapshot every item after its id, up to the last one pushed or the terminal one, without a resync |
| OutputStream.NearSubscriberGetsEverything | crates/ahand-hub/src/output_stream.rs:137-196 | a subscriber that resumes at most `maxHistory` behind the newest item, with at most 64 items sent from its subscription on, never gets a resync and gets exactly the items after its id |
| OutputStream.LagResyncIsNeededExactly | crates/ahand-hub/src/output_stream.rs:189-191 | a lagging subscriber is sent a resync; the next item it needs never comes, in any continuation, if and only if that item has left the ring |
| OutputStream.ResyncWithoutLoss | crates/ahand-hub/src/output_stream.rs:189-191 | runs in which a subscriber has been given every item and is still sent a resync |
| OutputStream.FinishedExactlyWithTerminal | crates/ahand-hub/src/output_stream.rs:258-259 | between two records the flag is set if and only if a terminal item was recorded |
| PendingRequests.PendingFileRequests.Register | crates/ahand-hub/src/pending_file_requests.rs:66-95 | refuses exactly at capacity or on a taken key, otherwise adds the slot; counter and slots stay equal |
| PendingRequests.PendingFileRequests.TakeSlot | crates/ahand-hub/src/pending_file_requests.rs:97-115 | removes the slot if it is there and gives the counter back once |
| PendingRequests.UninterruptedRegister | crates/ahand-hub/src/pending_file_requests.rs:66-95 | a thread's uninterrupted register steps have the method's effect |
| PendingRequests.UninterruptedTake | crates/ahand-hub/src/pending_file_requests.rs:97-115 | a thread's uninterrupted resolve or cancel steps have the method's effect |
| PendingRequests.CounterIsExact | crates/ahand-hub/src/pending_file_requests.rs:66-115 | under any interleaving the counter is the slots plus the calls between their two steps; it never underflows and slots never exceed the capacity |
| PendingRequests.EveryRegistrationGivenBackOnce | crates/ahand-hub/src/pending_file_requests.rs:97-115 | a successful registration is live if and only if nobody took it, and at most one call did |
| PendingRequests.ExactlyCapacitySucceed | crates/ahand-hub/src/pending_file_requests.rs:71-94 | n concurrent registrations of distinct keys: exactly min(capacity, n) succeed in every interleaving |
| DeviceOwnership.MemoryDeviceStore.PreRegister | crates/ahand-hub/src/state.rs:605-650 | succeeds exactly on an absent, unclaimed or own device, which then has the new owner and key and keeps its host name; otherwise names the owner and changes nothing; other devices stay |
| DeviceOwnership.OwnershipNeverMoves | crates/ahand-hub-store/src/device_store.rs:195-221 | no interleaving of claims, retries, errors and Hello upserts moves an owned device to another user before a delete |
| DeviceOwnership.ExactlyOneWins | crates/ahand-hub-store/src/device_store.rs:287-399 | of racing claimants with different users on a fresh device exactly one wins, and every other is told the winner's name |
| DeviceOwnership.RowCarriesWinnersKey | crates/ahand-hub-store/src/device_store.rs:287-399 | in every run between Hellos an owned device carries the key of a claimant that won it for its owner |
| DeviceOwnership.DeletedDeviceCanBeClaimed | crates/ahand-hub-store/src/device_store.rs:287-399 | after a delete an uninterrupted claim wins the device, whoever owned it |
| DeviceOwnership.CallIsRetriedOnce | crates/ahand-hub-store/src/device_store.rs:195-221 | in every run at most two duplicate-key errors reach one call |
| DeviceOwnership.TransactionsRefineMemory | crates/ahand-hub-store/src/device_store.rs:287-399 | a verdict is what the in-memory single step gives at that moment, the winner's user and key and the standing host name spelled out, and no other statement changes the row |
| DeviceOwnership.TransactionsAreSerial | crates/ahand-hub/src/state.rs:599-650 | after every interleaving the row is what the in-memory store has after the same calls one by one, in the order of their verdicts |
| Webhook.MemoryStore.Enqueue | crates/ahand-hub-store/src/webhook_delivery_store.rs:284-294 | replaces the row and ends any lease |
| Webhook.MemoryStore.Delete | crates/ahand-hub-store/src/webhook_delivery_store.rs:365-368 | removes the row |
| Webhook.MemoryStore.MarkFailed | crates/ahand-hub-store/src/webhook_delivery_store.rs:370-385 | sets attempts, error and retry time and ends the lease, if the row exists |
| Webhook.MemoryStore.Scan | crates/ahand-hub-store/src/webhook_delivery_store.rs:314-336 | collects exactly the due rows, sorted by retry time, in any iteration order |
| Webhook.MemoryStore.ClaimAll | crates/ahand-hub-store/src/webhook_delivery_store.rs:338-361 | uninterrupted, the claim loop leases exactly the candidates |
| Webhook.MemoryStore.LeaseDue | crates/ahand-hub-store/src/webhook_delivery_store.rs:296-363 | claims due rows only, oldest first, up to the limit, none left out below it, and leases exactly those |
| Webhook.MemoryStore.EarliestNextRetry | crates/ahand-hub-store/src/webhook_delivery_store.rs:387-408 | the minimum over rows without a standing lease; at or before now exactly when something is due |
| Webhook.ClaimsAreALeaseApart | crates/ahand-hub-store/src/webhook_delivery_store.rs:296-385 | for every interleaving of scans and claims, two claims of an event without an enqueue, delete or failure of it between them are more than the expiry apart |
| Webhook.RowHoldsWhatWasWritten | crates/ahand-hub-store/src/webhook_delivery_store.rs:284-385 | over every interleaving a row is there, and holds the delivery and retry time, exactly as the writes to it say; claims change neither |
| Webhook.WakeUpMeansWork | crates/ahand-hub-store/src/webhook_delivery_store.rs:387-408 | the earliest retry is at or before now if and only if some row is due |
| Webhook.DueTogether | crates/ahand-hub-store/src/webhook_delivery_store.rs:136-180 | matching rows of the two stores are due together if and only if it is not the exact expiry instant of the lease |
| Webhook.StoresOfferTheSame | crates/ahand-hub-store/src/webhook_delivery_store.rs:136-213 | after every run off the expiry instants the stores offer the same events at an instant if and only if no lease ends exactly then |
| Webhook.LeasesFindTheSameExactly | crates/ahand-hub-store/src/webhook_delivery_store.rs:136-213 | through a whole run from empty stores every lease finds the same events in both if and only if no lease of the run is taken at the instant another ends |
| Webhook.ExpiryInstantDiffers | crates/ahand-hub-store/src/webhook_delivery_store.rs:136-180 | a run after which Postgres offers an event at the instant its lease ends and the in-memory store only later |
| Bootstrap.Credentials.Issue | crates/ahand-hub/src/bootstrap.rs:53-83 | forgets the device's old token, then binds the first of four draws that is free, or none |
| Bootstrap.Credentials.Reserve | crates/ahand-hub/src/bootstrap.rs:85-113 | reserves exactly an unreserved token of that device |
| Bootstrap.Credentials.Release | crates/ahand-hub/src/bootstrap.rs:115-130 | frees the token only for the reservation that holds it |
| Bootstrap.Credentials.Consume | crates/ahand-hub/src/bootstrap.rs:132-155 | removes token and device entry only for the reservation that holds them |
| Bootstrap.Credentials.DeleteDevice | crates/ahand-hub/src/bootstrap.rs:157-168 | removes the device's token and entry |
| Bootstrap.TokensAndDevicesCorrespond | crates/ahand-hub/src/bootstrap.rs:53-168 | in every reachable state tokens and devices correspond one to one |
| Bootstrap.ConsumedAtMostOnce | crates/ahand-hub/src/bootstrap.rs:132-155 | no reservation is effectively consumed twice, and consuming removes the token |
| Bootstrap.HolderKeepsReservation | crates/ahand-hub/src/bootstrap.rs:53-168 | a reservation is exclusive: in every continuation that does not release or consume it, nor re-issue or delete its device, whatever others reserve, its holder can still consume it |
| Bootstrap.TokenConsumedAtMostOnce | crates/ahand-hub/src/bootstrap.rs:53-155 | while no used-up token is drawn again, no token is effectively consumed twice by any reservations |
| Bootstrap.EndedReservationStaysInert | crates/ahand-hub/src/bootstrap.rs:53-168 | after consume, release, re-issue or delete the reservation does nothing in every continuation |
| Bootstrap.RedisMatchesMemory | crates/ahand-hub-store/src/bootstrap_store.rs:161-215 | each script matches the in-memory call, stale device keys included |
| Bootstrap.FormsAgree | crates/ahand-hub-store/src/bootstrap_store.rs:31-142 | from empty stores both forms keep the same tokens, owners and reservations through every run that draws no used-up token again |
| Bootstrap.HandedOutIsGenuine | crates/ahand-hub/src/bootstrap.rs:85-113 | in every reachable state a reservation that was handed out and still holds its token names the device of that token |
| Bootstrap.ConsumeAgreesExactly | crates/ahand-hub-store/src/bootstrap_store.rs:116-127 | why that matters: the consume script checks the lock alone, and for a held reservation the forms agree if and only if it names the device of its token |
| HelloClock.Identity.CompareExchange | crates/ahandd/src/device_identity.rs:112-117 | exchanges exactly on the expected value and reports what was there |
| HelloClock.Identity.NextHelloSignedAtMs | crates/ahandd/src/device_identity.rs:107-122 | however often other threads make the exchange fail, the result is the later of the clock and one above the value it replaced |
| HelloClock.StampsStrictlyIncrease | crates/ahandd/src/device_identity.rs:107-122 | for any number of racing threads, an earlier timestamp is below a later one if and only if it is below the largest representable |
| HelloClock.NextStampIsClockOrNext | crates/ahandd/src/device_identity.rs:107-122 | after any race of any number of threads, the next timestamp drawn is the drawing thread's clock or one above the last drawn, whichever is later |
| HelloClock.MemoryDevices.AcceptVerifiedHello | crates/ahand-hub/src/state.rs:374-400 | accepts exactly a newer timestamp with a fitting key (none stored for a registration, the stored one otherwise), and then binds key and timestamp; the key of a first registration is stored first |
| HelloClock.MemoryDevices.InsertDevice | crates/ahand-hub/src/state.rs:522-543 | creates the device with timestamp zero unless it exists |
| HelloClock.MemoryDevices.DeleteDevice | crates/ahand-hub/src/state.rs:568-574 | forgets the device and its timestamp |
| HelloClock.AcceptedExactlyWhenNewer | crates/ahand-hub/src/state.rs:362-402 | in every reachable state accepted timestamps strictly increase, and a Hello is accepted if and only if it is newer than all accepted since creation and either registers a device without a key or has the stored key |
| HelloClock.AcceptedHelloCannotBeReplayed | crates/ahand-hub/src/state.rs:387-389 | no Hello at or below an accepted timestamp is accepted later, short of a delete |
| HelloClock.BoundKeyIsTheOnlyOne | crates/ahand-hub/src/state.rs:374-400 | once an accepted Hello, a pre-registration or the creation with a key has bound a device, in every continuation without a delete or pre-registration of it a Hello is accepted if and only if it is no registration, has that key and is newer than everything accepted |
| HelloClock.AgeAccepted | crates/ahand-hub/src/auth.rs:200-213 | with saturating arithmetic the check still accepts exactly the timestamps within the maximum age on either side of the clock |
| HelloClock.RefusedHelloChangesNothingExactlyWhen | crates/ahand-hub/src/state.rs:377-389 | in every reachable state a refused Hello leaves the device unchanged if and only if it is not a first registration with timestamp zero |
| HelloClock.CheckedHelloChangesNothingWhenRefused | crates/ahand-hub/src/auth.rs:200-213 | the age check before it excludes that case: with the clock past the maximum age, a refused Hello changes nothing |
| HelloPayload.PushField | crates/ahand-protocol/src/lib.rs:35-42 | appends the length in four little-endian bytes and the bytes, or fails on 2^32 bytes and more |
| HelloPayload.PushFields | crates/ahand-protocol/src/lib.rs:26-28 | the capability loop appends every field in order, or fails |
| HelloPayload.BuildHelloAuthPayload | crates/ahand-protocol/src/lib.rs:9-33 | builds the specified bytes exactly for Hellos whose lengths fit |
| HelloPayload.PayloadBeginsWithDomain | crates/ahand-protocol/src/lib.rs:16 | the signed bytes begin with the ASCII bytes of the domain |
| HelloPayload.DecodeUndoesEncode | crates/ahand-protocol/src/lib.rs:9-42 | decoding the signed bytes returns every field |
| HelloPayload.EncodeIsInjective | crates/ahand-protocol/src/lib.rs:9-42 | equal signed bytes mean equal Hellos |
| HelloPayload.EncodeUndoesDecode | crates/ahand-protocol/src/lib.rs:9-42 | whatever decodes was the encoding of the result |
| ControlJobs.CorrelationKeyInjective | crates/ahand-hub/src/control_jobs.rs:275-282 | no two pairs of user and correlation id share a key |
| ControlJobs.FindAnswersOwnJobs | crates/ahand-hub/src/control_jobs.rs:204-220 | over every interleaving a lookup answers only with a job of that user and correlation id that was live when the answer was formed |
| ControlJobs.LiveAndCompletedAreDisjoint | crates/ahand-hub/src/control_jobs.rs:158-263 | live and completed ids are disjoint and both name the registered device and user |
| ControlJobs.TerminalEventIsLastAndOnly | crates/ahand-hub/src/control_jobs.rs:223-263 | a job emits at most one terminal event, as its last; a completed job emitted one, a live job none |
| ControlJobs.EmittedIsWhatWasPublished | crates/ahand-hub/src/control_jobs.rs:158-263 | over every interleaving of any jobs, lookups and prunes a job emits what its own calls say: all that was published while it was live, in order, then its terminal event |
| ControlJobs.FinishedJobIsRemembered | crates/ahand-hub/src/control_jobs.rs:183-200 | device and user of a finished job stay known in every continuation that does not prune it |
| ControlJobs.UninterruptedFinalizeKeepsOthers | crates/ahand-hub/src/control_jobs.rs:251-262 | without interruption, finalize removes the index entry that names its own job and no other |
| ControlJobs.IndexIsRightExactlyAfterSafeDrops | crates/ahand-hub/src/control_jobs.rs:204-263 | all along a run the index names every job that is live or being registered, if it was registered last under its key, if and only if no lookup or finalize of the run removes an entry that names such a job |
| ControlJobs.WrongIndexMissesALiveJob | crates/ahand-hub/src/control_jobs.rs:204-220 | when the index is wrong there is a job that is live once registered, and every lookup for its user and correlation id answers with nothing |
| ControlJobs.LookupAnswersByIndex | crates/ahand-hub/src/control_jobs.rs:204-220 | for the job registered last under a pair: a lookup that begins with the key in the index and checks while the job is live answers with it, whatever happens in between; one that begins without the key answers with nothing |
| ControlJobs.LookupDuringRegisterForgetsTheJob | crates/ahand-hub/src/control_jobs.rs:174-179 | a run in which a lookup between the two insertions of a registration makes a live job unfindable |
| ControlJobs.FinalizeDuringRegisterForgetsTheJob | crates/ahand-hub/src/control_jobs.rs:251-262 | from any state with a completed job still indexed: a registration between the check and the removal of finalize makes the new live job unfindable |
| ControlJobs.FinishedJobIsStillIndexed | crates/ahand-hub/src/control_jobs.rs:232-250 | such a state is reached by registering and finalizing one job |
| AppTools.HandlerStartsAtMostOnce | crates/ahandd/src/ahand_client.rs:1901-2489 | over all gap-free sequences of duplicates, approvals, denials, late approvals and timeouts the handler starts at most once, one outcome is recorded and says whether it ran, and every reply repeats it |
| AppTools.DuplicatesAreAnswered | crates/ahandd/src/ahand_client.rs:1928-1952 | once an outcome is recorded, any number of duplicates are each answered with it and change nothing else |
| AppTools.RefusedRequestLeavesNoTrace | crates/ahandd/src/ahand_client.rs:1956-2020 | a request refused by lookup or session gate is answered and leaves nothing recorded |
| AppTools.HandlerStartsOnlyWithPermission | crates/ahandd/src/ahand_client.rs:2097-2103 | in every run, gap or not, a handler starts only if an approving response or the session gate allowed the call, and its arguments and permit checked out |
| AppTools.NoPermissionNoStart | crates/ahandd/src/ahand_client.rs:2097-2180 | in every run without either nothing starts and no recorded outcome says it ran |
| AppTools.AnsweredWaiterEnds | crates/ahandd/src/ahand_client.rs:2100-2157 | from any state, the waiting task that a response reaches starts the handler and records its result if the response approves and the check passes, and otherwise records the denial, the bad arguments or the concurrency limit and starts nothing |
| AppTools.ExpiredWaiterEnds | crates/ahandd/src/ahand_client.rs:2158-2179 | a waiting task whose wait expires records the timeout and starts nothing |
| AppTools.OutcomeIsFinal | crates/ahandd/src/app_tool_registry/mod.rs:224-263 | once recorded, the outcome stays and nothing starts in any continuation |
| AppTools.LateApprovalStartsNothing | crates/ahandd/src/approval.rs:68-125 | a task whose wait expired never starts a handler, whatever arrives later, in every run |
| AppTools.CheckIsSafeExactlyOutsideTheGap | crates/ahandd/src/app_tool_registry/mod.rs:224-263 | a duplicate's look at the completed list keeps one outcome per call in every gap-free continuation if and only if no task is between the two locks |
| AppTools.HandlerStartsOnceExactlyOutsideTheGap | crates/ahandd/src/app_tool_registry/mod.rs:224-263 | that look keeps the handler to one start in every gap-free continuation if and only if no task whose handler ran is between the two locks |
| AppTools.CheckInGapRecordsTwice | crates/ahandd/src/app_tool_registry/mod.rs:253-263 | from any reachable state in the gap there is a continuation that records two outcomes |
| AppTools.CheckInGapStartsTwice | crates/ahandd/src/app_tool_registry/mod.rs:253-263 | from any reachable state in the gap of a call whose handler ran there is a continuation that starts it again |
| AppTools.HandlerCanStartTwice | crates/ahandd/src/app_tool_registry/mod.rs:253-263 | a run from the initial state in which the handler starts twice |
| AuditWriter.FlushBatch | crates/ahand-hub/src/audit_writer.rs:201-225 | the flush is the run of the writer's store and file steps under the same answers, and the returned place is where that run leaves the whole batch; an empty batch takes no step |
| AuditWriter.Collect | crates/ahand-hub/src/audit_writer.rs:157-182 | takes the front of the queue, in order, and stops exactly when the batch is full, the timer fires or the queue is empty |
| AuditWriter.RunAuditWriter | crates/ahand-hub/src/audit_writer.rs:149-199 | on a closed queue the loop is a run of the writer's receive, flush and exit steps that ends with the writer gone; whatever the timers and the environment do, its batches are the queue, in order, each full or cut by its timer except the last |
| AuditWriter.AllOfferedAreQueuedExactly | crates/ahand-hub/src/audit_writer.rs:98-137 | everything callers hand over goes through the queue, in order, if and only if the queue had room each time |
| AuditWriter.OpenStoreIsFedByTheQueue | crates/ahand-hub/src/audit_writer.rs:98-107 | in every run before shutdown nothing gets into the store past the queue |
| AuditWriter.SpillNeedsTwoFailures | crates/ahand-hub/src/audit_writer.rs:201-225 | in every run a batch is tried at most twice at the store, and batches that went elsewhere have had two failures each |
| AuditWriter.EveryEntryIsSomewhere | crates/ahand-hub/src/audit_writer.rs:60-138 | at every moment the accepted entries are, as a multiset, exactly store, queue, buffer, fallback file, writes under way and losses; nothing is lost while fallback writes succeed |
| AuditWriter.QueuedEntriesReachTheStoreInOrder | crates/ahand-hub/src/audit_writer.rs:149-225 | batches are at most 100 and partition what was sent, in order; the store receives its batches in that order |
| AuditWriter.ShutdownDrains | crates/ahand-hub/src/audit_writer.rs:60-76 | when the writer has gone, queue and buffer are empty, nobody holds a sender, and everything sent was flushed |

## Left out

- Transport: WebSocket, TLS, keepalive, ping watchdog and named pipes appear only as a FIFO that may be cut.
- Frames sent outside the outbox (number 0): direct frames are not replayed by design.
- Retention: expiry of the stream and counter keys, of finished jobs and of completed-access entries other than as a prune step, and the lifetime of a bootstrap reservation lock are absent.
- Number formatting in Lua: numbers are mathematical integers, as they are in Redis below 10^14.
- HubStore.ReplayAfterReconcileIsExact: needs safe acknowledgements, because the scripts accept any up to the counter; AcksAreSafeExactly says which runs those are.
- HubStore sessions: a session id is fresh, acquires once and reconciles before it reserves, as the gateway does; a renewal is a step without effect and expiry may come at any moment.
- Link.InOrderRunsLoseNothing: needs in-order pushes, because the code acknowledges by maximum; PushIsSafeExactlyWhenInOrder gives the exact condition.
- Link bootstrap branch: a device that knows more than the store is a case of `HubStore` only; the link starts with both ends agreeing.
- Endpoint.HubRunsLoseNothing: acknowledgements and Hellos come from the device of the link, so the bootstrap branch and acknowledgements that no device sent are outside; `HubStore` covers both.
- OutputStream: records of one job are taken to be serialized; overlapping calls take their numbers outside the history lock and could reach the history out of order.
- OutputStream persistent form: the Redis-backed stream and its own resync test are not part of this model.
- HelloClock persistent form: only the in-memory acceptance of Hellos is modelled.
- Shared tables as values: the live loops of `OutputStream`, and `ControlJobs`, `AppTools` and the Postgres side of `DeviceOwnership`, are state machines on values, since their guarantees are about single map and lock operations of several tasks; update in place and aliasing are not captured there.
- DeviceOwnership columns: operating system, capabilities, version and creation time are not modelled; rows of different devices do not interact.
- AppTools.HandlerStartsAtMostOnce: needs runs that stay out of the gap; HandlerStartsOnceExactlyOutsideTheGap gives the exact condition. The completed list is taken not to evict, and the concurrency permit is an outcome of validation.
- AppTools approvals: remembered refusals and the fan-out of approval requests to surfaces are not modelled.
- Webhook dueness under interleaving: the claim step looks only at the lease, so dueness is stated for uninterrupted calls; HTTP delivery and backoff are absent.
- Webhook.StoresOfferTheSame: both stores use the same lease length and a limit that does not cut the result.
- Bootstrap.FormsAgree: token draws are not tokens that were used up; the three kinds of Redis keys are separate maps. Issuing and deleting a device are several Redis commands under a mutex of one process, taken here as one step each, so the interleaving of two hub replicas inside them is not modelled.
- AuditWriter store appends: all or nothing, and whether an append or file write succeeds is up to the environment.
- Cryptography, database and Redis clients, process execution, browser automation, updater, configuration, command line, administration pages and dashboards.
- Job status rules, time-to-live clamps, domain matching and catalog revisions: each is decided by one branch, with no state across calls.
