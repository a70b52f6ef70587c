# FireFly Ethconnect: a verified model

Ethconnect accepts Ethereum transactions over Kafka and REST, assigns nonces, sends them, tracks their receipts, and streams
contract events to applications. This project models the parts of it whose correctness spans many calls, and proves
what those parts keep over whole runs.

| file | what it is about |
|---|---|
| Nonces.dfy, NonceRuns.dfy | nonce choice, roll-back and gap fill for one address; whole runs against a node |
| Lifecycle.dfy, NonceHistories.dfy | every delivery of every message from admission to reply, interleaved in any order; what that does to the nonces of each address |
| TxnProcessor.dfy | the transaction processor object: the in-flight table, the send retry loop, and the handling of a message from `OnMessage` to its reply |
| KafkaOffsets.dfy, KafkaBridge.dfy | the Kafka in-flight table and offset marking; the table object |
| KafkaProcessing.dfy | the Kafka bridge and the transaction processor together |
| Confirmations.dfy, ConfirmationManager.dfy, ConfirmationRuns.dfy | block confirmations of events: block arrivals, re-organisations and chain walks; the manager object; whole runs |
| SharedConfirmations.dfy | the array that a pending event shares with what was dispatched |
| EventBatches.dfy, HighWaterMarks.dfy, Subscriptions.dfy, SubscriptionPoller.dfy | batching, checkpoints and catch-up paging of event streams; the stream, log processor and subscription objects |
| SubscriptionRestarts.dfy | the checkpoint of one subscription across losses of its filter |
| EventPipeline.dfy | one subscription from polling through batching to acknowledgement |
| Numerals.dfy, AbiMapping.dfy, AbiMeanings.dfy | ABI values to JSON and back; what each JSON value denotes and each ABI value shows |
| ReceiptIndex.dfy, Lexicographic.dfy | the key space of the LevelDB receipt store against a plain list and map |
| ReceiptListings.dfy, ReceiptQueries.dfy, ReceiptExamples.dfy, LevelDBReceipts.dfy | its listing, its queries by address, stores for which they fail, and the store object |
| Reservations.dfy | message-ID reservation on the REST side |
| DelayTracker.dfy | the moving average that paces receipt polling |
| Sorting.dfy, Rounding.dfy, Traces.dfy, Options.dfy | shared helpers |

Objects the source updates in place are classes here, and their methods are proved against the value model (`Admit`,
`Cancel`, `Confirmed`, `BlockProcessed`, `Poll`, `AfterArrival`, `Reported`, ...). The theorems about runs are lemmas about
those steps. A run is a sequence of steps; `Possible` says when a step may happen and `After` gives the state it leads to.
Where several goroutines share an object, its methods let everything else move on between any two lock-protected regions
or external calls (`Interfere`), following a schedule about which nothing is assumed, and keep a history that is proved to
be a run of the model. The history also lists the steps of the call itself, with the states in which it was decided, so that
a contract can say exactly what the call did and why.
The node, the Kafka broker, the receipt store and the clock are parameters. What a theorem assumes of them is in its
`requires` clause, and an answer that nothing is assumed about may be an error.

Some properties turned out to hold only under a condition. In each case there is an if-and-only-if:

- Nonce safety with SendConcurrency 1 needs completions in nonce order. In general a failed send is safe exactly when
  nothing else is in flight or the latest accepted transaction still is (`RollbackSafeIsExact`,
  `OutOfOrderCompletionReusesANonce`).
- Managed nonces are distinct among themselves. All nonces of an address are distinct exactly as long as every admission
  names a free one (`NoncesDistinctIffAlwaysFree`, `SuppliedNonceCollides`, `SuppliedNonceRepeatsAManagedOne`).
- A managed nonce that fails while others remain is rolled back below or filled, never both, and neither exactly when
  another entry shares it and none is higher (`FailedNonceDichotomy`, `SharedNonceIsLeftAlone`).
- After a roll-back nothing above the failed nonce is allocated before it is reused, exactly as long as no request brings
  a higher nonce along or has the node asked for one (`FailedNonceIsFilledOrReused`). A supplied nonce that fails can
  even raise the mark (`CancelRaisesTheMarkIff`, `SuppliedRollbackRaisesTheMark`).
- A managed nonce need not build on the node's count: after a supplied nonce on an idle address it is 1
  (`ManagedIsAnchoredIff`).
- A walk that uses the block cache believes a stale sibling header with the right parent
  (`CachedWalkAgreesIffNoConflict`).
- An event dispatched by a walk stays pending and is dispatched again by a later block
  (`WalkedEventIsDispatchedAgain`, `WalkThenBlockDispatchesTwice`). Until then blocks and walks write into the list it was
  dispatched with (`ShownStaysIff`, `SiblingBreaksDispatchedList`).
- The Kafka table can be emptied exactly as long as none of its messages was skipped by the processor
  (`TableCanBeEmptiedIff`, `RedeliveryGetsStuck`).
- A batch that splits a block moves the checkpoint past events of that block that were never delivered
  (`AcknowledgeIsSafeIffNotSplit`, `SplitBlockLosesAnEvent`). Nothing else does, even across losses of the filter
  (`CheckpointSurvivesFilterLoss`).
- Fixed-length arrays are accepted as inputs but rejected as outputs (`RoundTrip`).
- JSON numbers are cut to whole ones, numbers that fit 64 bits wrap in narrower native types, and types of other widths
  have no range of their own (`NumberIsKeptIff`, `ChangedOrUnchecked`).
- A receipt query by address with a limit can return older matches in place of the newest, although the comment on
  `GetReceipts` speaks of recent receipts (`QueryListsNewestIff`, `OneResultIsTheOldest`).
- A receipt is stored under its ID without harm to others exactly when neither collides with a key that is there for
  another reason (`PutIsRecordIff`, `IndexEntryIsTakenForAnId`).
- A query by address finds exactly what was indexed under it, for every limit, exactly when nothing else lies under its
  prefix: no address that goes on with a colon, and no request ID that reads as an index entry (`ScanIsExactIff`,
  `EveryQueryIsExactIff`, `ExtendedAddressIsFound`, `ShapedIdIsFound`).
- The unfiltered listing of receipts is the skip and limit slice for every skip and limit exactly when every request ID
  sorts below the oldest sequence key (`ListingIsExactIff`, `AboveZIsNotListed`, `SkippedIsListed`).
- A message ID nobody holds can be sent, now or later, exactly when it has no record, so a release after a send that
  left none allows a second send (`FreeIdCanBeSentIff`, `ReleaseAllowsDuplicateIff`, `FailedWriteLeavesTheIdFree`).

Check everything with `dafny verify dfyconfig.toml` (Dafny 4.11).

## Model

| member | source | states |
|---|---|---|
| `Nonces.HighestOf` | internal/tx/txnprocessor.go:466-471 | the largest nonce of a list, or -1: an upper bound that is attained |
| `Nonces.WithoutDropsOne` | internal/tx/txnprocessor.go:452-459 | dropping an entry removes exactly that entry and keeps all others in their order |
| `Nonces.ManagedNoncesSafe` | internal/tx/txnprocessor.go:387-480 | under any interleaving of admissions, send failures and completions, at any concurrency and with other nonce schemes mixed in, managed nonces are pairwise distinct and never above the high mark |
| `Nonces.OutsiderKeepsTheMark` | internal/tx/txnprocessor.go:387-440 | an admitted request with a supplied, private or node-assigned nonce takes the nonce that was named and leaves the mark of a busy address alone |
| `Nonces.ManagedNoncesAreConsecutive` | internal/tx/txnprocessor.go:387-440 | in every run of admissions on a busy address with mark m, with other schemes mixed in anywhere, the managed requests get exactly m + 1, m + 2, ... in the order of their admission, and nothing else moves the mark |
| `Nonces.OutsidersLeaveManagedAlone` | internal/tx/txnprocessor.go:387-440 | leaving the admitted requests of other schemes out of a run leaves every managed entry, its nonce and the mark as they were, unless a later redelivery check asks for one of them |
| `Nonces.AdmissionOutcomes` | internal/tx/txnprocessor.go:352-440 | exactly when a message is in flight already, dispatched already, admitted, or rejected with each error; without admission nothing changes |
| `Nonces.SuppliedNonceCollides` | internal/tx/txnprocessor.go:387-440 | a concrete run in which a supplied and a managed nonce are equal |
| `Nonces.SuppliedNonceRepeatsAManagedOne` | internal/tx/txnprocessor.go:387-440 | a concrete run in which a supplied nonce repeats a managed one |
| `Nonces.AdmissionKeepsNoncesDistinctIff` | internal/tx/txnprocessor.go:387-440 | for every kind of request, the nonces of an address stay distinct if and only if the one named by the request, the mark or the node is free; a request that follows the mark can only meet an entry outside the managed scheme |
| `Nonces.NoncesDistinctIffAlwaysFree` | internal/tx/txnprocessor.go:387-480 | over every run, all nonces of an address are distinct in every state if and only if every admission named a free one |
| `Nonces.ManagedIsAnchoredIff` | internal/tx/txnprocessor.go:387-433 | a managed nonce is the node's pending count or follows a managed entry in flight if and only if the address is idle, its mark belongs to a managed entry, or the mark is one below the count |
| `Nonces.UnmanagedOpensAtZero` | internal/tx/txnprocessor.go:364-440 | an address taken out of idleness by a supplied, private or node-assigned nonce has the mark 0 |
| `Nonces.FailedNonceDichotomy` | internal/tx/txnprocessor.go:447-493 | cancelling an unsubmitted managed nonce while others remain, managed or not, never both rolls the mark back below it and selects it for gap fill, and does one of the two if and only if no other entry shares the nonce as the highest; otherwise the mark stays |
| `Nonces.CancelSetsTheMark` | internal/tx/txnprocessor.go:447-480 | dropping one of several entries keeps all others; the mark changes only for an unsubmitted entry whose nonce no other has reached, to the largest nonce left; a gap is to be filled exactly when an unsubmitted entry that was not left to the node has another above it |
| `Nonces.SharedNonceIsLeftAlone` | internal/tx/txnprocessor.go:447-493 | any managed nonce that a supplied one repeats, for which neither happens |
| `Nonces.NoNonceAboveARolledBackOne` | internal/tx/txnprocessor.go:352-480 | from a state whose mark and nonces are below n, whatever their schemes, a run with any requests that neither allocates n nor lets the address go idle allocates nothing above n if and only if no request brings a higher nonce along or has the node asked for one |
| `Nonces.FailedNonceIsFilledOrReused` | internal/tx/txnprocessor.go:447-493 | a failed managed nonce beside entries of any scheme is selected for gap fill or shared, with the mark left alone, or rolled back below; after a roll-back a run of any requests allocates nothing above it before it is allocated again or the address goes idle, if and only if no request brings a higher nonce along or has the node asked for one |
| `Nonces.OnlySuppliedAndPrivateAreNamed` | internal/tx/txnprocessor.go:387-433 | as long as no nonce is negative, the nonces brought along or asked for are the supplied and the private ones |
| `Nonces.CancelRaisesTheMarkIff` | internal/tx/txnprocessor.go:465-480 | dropping an unsubmitted entry raises the mark if and only if the highest nonce left is above the mark and below its own, which never happens to a managed entry |
| `Nonces.SuppliedRollbackRaisesTheMark` | internal/tx/txnprocessor.go:465-480 | a list in which a failed supplied nonce hands the mark from 5 to another supplied one, 100 |
| `NonceRuns.SafeRollbacksGiveContiguousNonces` | internal/tx/txnprocessor.go:387-493 | for any completion order, if every roll-back is safe the accepted nonces are base, base+1, ... and no gap fill is called for |
| `NonceRuns.InOrderRollsBackSafely` | internal/tx/txnprocessor.go:447-493 | completions in nonce order make every roll-back of the run safe |
| `NonceRuns.InOrderCompletionsGiveContiguousNonces` | internal/tx/txnprocessor.go:689-731 | with completions in nonce order, every run from an idle address, through failures, outages and idle periods, gets exactly base, base+1, base+2, ... accepted |
| `NonceRuns.RollbackSafeIsExact` | internal/tx/txnprocessor.go:465-480 | after a failed send the next nonce is the right one if and only if the roll-back was safe; otherwise it repeats an accepted nonce |
| `NonceRuns.FailedSendLeavesAGapIff` | internal/tx/txnprocessor.go:465-493 | a failed send calls for a gap fill if and only if a higher nonce is in flight |
| `NonceRuns.OutOfOrderCompletionReusesANonce` | internal/tx/txnprocessor.go:465-480 | a concrete run from an idle address that hands out an accepted nonce a second time |
| `TxnProcessors.TxnProcessor.AddInflight` | internal/tx/txnprocessor.go:352-445 | the locked region takes exactly the `Admit` step for its address, whose outcomes and nonces the lemmas above pin down, leaves all other addresses alone and keeps every address consistent |
| `TxnProcessors.TxnProcessor.CancelInFlight` | internal/tx/txnprocessor.go:447-493 | takes exactly the `Cancel` step for its address, leaves all others alone, and fills a gap exactly when one is left, the RPC client is known and gap fill is on |
| `TxnProcessors.DropEntry` | internal/tx/txnprocessor.go:451-480 | removal, high-nonce scan and roll-back decision for one address agree with the value model |
| `TxnProcessors.FindMessage` | internal/tx/txnprocessor.go:255-265 | finds a message exactly when it is listed |
| `TxnProcessors.SendWithRetry` | internal/tx/txnprocessor.go:733-771 | the retry loop stops at the first acceptance, at the first error it does not retry, or at the limit; no attempt is made after an accepted one |
| `TxnProcessors.SendOutcomeIsUnique` | internal/tx/txnprocessor.go:733-771 | the number of attempts and the result are determined by what the node does |
| `TxnProcessors.AttemptsInFigures` | internal/tx/txnprocessor.go:733-771 | with forced retries the attempts end with an acceptance or at the limit; otherwise a nonce left to the node gives one attempt, and any other ends as well with an error about the nonce or a known transaction; every attempt before the last failed with another error |
| `TxnProcessors.TxnProcessor.OnMessage` | internal/tx/txnprocessor.go:200-227 | whatever the outside world answers and whatever else happens in between: a message of unknown type or that cannot be read gets 400 and nothing else; any other takes exactly the steps its preparation, the outcome of its admission in the state of its admission, its build and its send call for, and gets exactly the reply that belongs to them; the delivery ends, with one reply unless it was skipped, its entry cancelled exactly once, and all that happened is a run of the life cycle model |
| `TxnProcessors.TxnProcessor.HandleMessage` | internal/tx/txnprocessor.go:200-227 | admission is attempted if and only if the type is known and the message can be read and prepared; an admitted message that is built and taken by the node is in the list of accepted ones, and its reply is that of the wait, with the name to register for a deployment and none for a transaction; a redelivery gets the stored hash |
| `TxnProcessors.TxnProcessor.OnTransactionMessage` | internal/tx/txnprocessor.go:642-687 | the steps and the reply, case by case, for one of the two message types, from the admission on |
| `TxnProcessors.TxnProcessor.AddInflightWrapper` | internal/tx/txnprocessor.go:310-445 | an error still to be replied to, an entry, or neither, in which case the notification is sent unless the message is in flight |
| `TxnProcessors.TxnProcessor.FailUnsent` | internal/tx/txnprocessor.go:495-515 | one cancellation and one error reply, which reports a gap fill as done if and only if the cancelled entry left a gap, filling is on, the client is known and the node took the transaction, and carries its hash if one was built |
| `TxnProcessors.TxnProcessor.SendAndTrackMining` | internal/tx/txnprocessor.go:706-731 | one reply and one cancellation: with the gap-fill error if and only if the client lookup or the retry loop fails, and then what it says about the gap fill is true of the state at the cancellation; otherwise the send, the record of the hash, the answer and the end, with the outcome of the wait |
| `TxnProcessors.TxnProcessor.WaitForCompletion` | internal/tx/txnprocessor.go:517-629 | the hash is recorded before the reply and the reply sent before the entry goes; the reply belongs to the look that ends the wait |
| `TxnProcessors.TxnProcessor.ReplyToWait` | internal/tx/txnprocessor.go:559-624 | 408 or 500 after the maximum wait, even if that look found the receipt; otherwise the receipt |
| `TxnProcessors.TxnProcessor.UpdateSubmitted` | internal/tx/txnprocessor.go:291-303 | the hash is recorded exactly when the check is on, the store answers and there is a record |
| `TxnProcessors.AwaitReceipt` | internal/tx/txnprocessor.go:530-551 | the loop ends with the first look that finds the receipt or is past the maximum wait |
| `TxnProcessors.TraceIsRun` | internal/tx/txnprocessor.go:200-227 | the events logged while messages are handled form a possible run of the life cycle model that ends in the current state |
| `Lifecycle.ExactlyOneReply` | internal/tx/txnprocessor.go:200-227 | in every run of the life cycle model, of which the handling of each message is one, a finished delivery has replied exactly once and lost its entry as often as it got one, which is at most once; a skipped redelivery neither replied nor got an entry |
| `Lifecycle.SkippedIffTwinInFlight` | internal/tx/txnprocessor.go:255-286 | in every state of every run, a delivery is skipped if and only if it asks for the redelivery check and another delivery of its message is in flight for its address |
| `Lifecycle.OwnStepsMakeProgress` | internal/tx/txnprocessor.go:517-731 | a delivery moves only by its own steps and each brings it closer to its end |
| `Lifecycle.EveryDeliveryCanFinish` | internal/tx/txnprocessor.go:517-731 | from every state a delivery can finish by its own steps alone, in at most as many as its stage has left |
| `Lifecycle.OwnedThroughout` | internal/tx/txnprocessor.go:310-480 | in every run the table holds exactly one entry for each delivery in flight and nothing else |
| `Lifecycle.NothingLeaks` | internal/tx/txnprocessor.go:447-480 | once every delivery has finished, no address has an entry left |
| `Lifecycle.AtMostOneAcceptedSend` | internal/tx/txnprocessor.go:255-303 | with the redelivery check, an accepted record and a store nobody erases, every interleaving of redeliveries, sends and completions gets a message accepted at most once |
| `NonceHistories.AddressesRunTheNonceModel` | internal/tx/txnprocessor.go:310-480 | in every run of the life cycle model the table of each address has gone through a feasible run of the nonce model, with an entry submitted exactly if its send succeeded |
| `NonceHistories.ManagedNoncesSafeForEveryAddress` | internal/tx/txnprocessor.go:310-480 | so at every moment, whatever messages, redeliveries, failures and completions are interleaved, the managed nonces of an address are pairwise distinct and not above its mark |
| `NonceHistories.CompletionKeepsTheMark` | internal/tx/txnprocessor.go:447-480 | the end of a transaction that was sent leaves the mark and every other entry of its address alone |
| `NonceHistories.NumbersAreUsedOnce` | internal/tx/txnprocessor.go:352-362 | every attempt at an admission uses up one entry number, and nothing else does |
| `KafkaOffsets.ConfirmFindsItsEntry` | internal/kafka/kafkabridge.go:397-417 | a confirmation always finds the entry of its own delivery, not that of a redelivery |
| `KafkaOffsets.InvThroughout` | internal/kafka/kafkabridge.go:127-238 | every run keeps the table invariant: entries belong to their deliveries, none is forgotten, nothing complete is left at the head of a partition |
| `KafkaOffsets.TableIsWellKept` | internal/kafka/kafkabridge.go:345-417 | in every reachable state the lowest entry of each partition is incomplete, the table is within its limit and the unknown-confirmation panic has not happened |
| `KafkaOffsets.ConfirmingEverythingEmptiesTheTable` | internal/kafka/kafkabridge.go:200-238 | once all replies are confirmed the table is empty |
| `KafkaOffsets.EveryMarkIsSafe` | internal/kafka/kafkabridge.go:200-238 | whenever an offset is marked, every delivered message of the partition at or below it has its reply confirmed, for any completion order and any redelivery |
| `KafkaOffsets.ConfirmMarksTheHighest` | internal/kafka/kafkabridge.go:200-238 | a confirmation marks if and only if some message in the table has everything delivered at or below it confirmed, then it marks the highest such message, and exactly those leave the table |
| `KafkaOffsets.WhatLeavesIsMarked` | internal/kafka/kafkabridge.go:200-238 | over every run, with any redelivery, what has left the table is at or below a mark, and only delivered offsets are marked |
| `KafkaOffsets.HighestDeliveredIsMarked` | internal/kafka/kafkabridge.go:200-238 | over every run, once everything delivered from a partition is confirmed its highest delivered offset is marked |
| `KafkaOffsets.LastMarkIsHighestDelivered` | internal/kafka/kafkabridge.go:200-238 | without redelivery and with in-order delivery that offset is the last mark of the partition |
| `KafkaOffsets.MarksStrictlyIncrease` | internal/kafka/kafkabridge.go:200-238 | without redelivery and with in-order delivery the marks of each partition strictly increase |
| `KafkaProcessing.TableCanBeEmptiedIff` | internal/kafka/kafkabridge.go:345-418 | in every state of every joint run of bridge and processor, the in-flight table can still be emptied if and only if none of its messages is there for a delivery that the processor skipped |
| `KafkaProcessing.StuckBlocksItsPartition` | internal/kafka/kafkabridge.go:200-238 | such a message stays in the table in every continuation, and no later mark in its partition reaches it |
| `KafkaProcessing.UnstuckCanBeEmptied` | internal/kafka/kafkabridge.go:398-418 | without one, replies and confirmations alone empty the table |
| `KafkaProcessing.LinkedThroughout` | internal/kafka/kafkabridge.go:345-418 | over every joint run both sides know the same deliveries and agree on which have replied, and both keep their invariants |
| `KafkaProcessing.RedeliveryGetsStuck` | internal/tx/txnprocessor.go:255-265 | any managed message with the redelivery check on gets stuck when its offset comes again after its reply was confirmed and before its entry left the processor's table |
| `KafkaBridges.KafkaBridge.constructor` | internal/kafka/kafkabridge.go:78-80 | an empty table, with a limit of 10 in place of one that is not positive |
| `KafkaBridges.KafkaBridge.AddInflightMsg` | internal/kafka/kafkabridge.go:127-148 | a redelivery of an entry in the table changes nothing; anything else is added incomplete |
| `KafkaBridges.KafkaBridge.SetInFlightComplete` | internal/kafka/kafkabridge.go:200-238 | table and mark after the sort and prefix loop are those of the set-based specification, whose mark is the highest completed offset with nothing incomplete below |
| `KafkaBridges.DropReady` | internal/kafka/kafkabridge.go:205-235 | drops exactly the entries with nothing incomplete at or below them and yields their highest offset |
| `KafkaBridges.ReadyIsPrefix` | internal/kafka/kafkabridge.go:211-228 | the complete prefix of the offset-sorted partition is exactly the set of ready entries |
| `Confirmations.PlaceKeepsLinked` | internal/events/block_confirmations.go:412-439 | an arriving block truncates and extends a confirmation list so that it stays linked |
| `Confirmations.FollowConvergesToTheChain` | internal/events/block_confirmations.go:412-447 | feeding the current chain from the fork point onto any side branch leaves exactly the chain's prefix, and dispatch happens with exactly the required blocks |
| `Confirmations.WalkIsLinkedAndBounded` | internal/events/block_confirmations.go:483-519 | a walk yields a linked list, stops within the required count, and reports the threshold exactly when it has that many |
| `Confirmations.WalkReadsTheChain` | internal/events/block_confirmations.go:483-519 | without a conflicting cache entry a walk collects exactly the chain's prefix, limited by the required count and the highest block seen |
| `Confirmations.WalkBelievesAConflict` | internal/events/block_confirmations.go:241-268 | at the first conflicting cache entry the walk takes the cached header |
| `Confirmations.CachedWalkAgreesIffNoConflict` | internal/events/block_confirmations.go:241-268 | a cached walk agrees with the node's chain if and only if no header it looks at conflicts with that chain |
| `Confirmations.IncrementalAgreesWithWalk` | internal/events/block_confirmations.go:412-519 | while an event is pending, the block-by-block list equals what a full walk collects, and both dispatch at the same point |
| `ConfirmationManagers.BlockConfirmationManager.AddToCache` | internal/events/block_confirmations.go:213-216 | both indexes get the block and stay consistent |
| `ConfirmationManagers.BlockConfirmationManager.GetBlockByHash` | internal/events/block_confirmations.go:218-239 | the cached block of that hash or the answer of the node, whatever the cache lost; a block returned has the hash asked for |
| `ConfirmationManagers.BlockConfirmationManager.GetBlockByNumber` | internal/events/block_confirmations.go:241-268 | a cached header counts only if its parent matches; a header the node had to be asked for replaces the cached one of that number, and nothing else in the index changes |
| `ConfirmationManagers.BlockConfirmationManager.ProcessBlock` | internal/events/block_confirmations.go:412-447 | every pending event gets the block placed; those due leave the table, each exactly once, and go out in block, transaction and log order, all confirmed |
| `ConfirmationManagers.BlockConfirmationManager.ProcessBlockHashes` | internal/events/block_confirmations.go:389-410 | for each hash in order, the block the node has or the cache had is processed as `ProcessBlock` states, a hash that cannot be fetched changes nothing, and the highest block seen is the maximum over the fetched blocks |
| `ConfirmationManagers.BlockConfirmationManager.AddEvent` | internal/events/block_confirmations.go:367-381 | the event is pending with no confirmations; every pending event that differs in transaction, block or position in them stays as it was |
| `ConfirmationManagers.BlockConfirmationManager.RemoveEvent` | internal/events/block_confirmations.go:384-387 | the event is no longer pending, and every event that is another log stays as it was |
| `ConfirmationManagers.BlockConfirmationManager.StreamStopped` | internal/events/block_confirmations.go:357-364 | exactly the stream's events leave the table |
| `ConfirmationManagers.BlockConfirmationManager.WalkChainForEvent` | internal/events/block_confirmations.go:483-519 | the event keeps what the walk collected and is dispatched exactly when the threshold is reached; it stays pending |
| `ConfirmationManagers.BlockConfirmationManager.CollectConfirmations` | internal/events/block_confirmations.go:487-516 | the loop, filling the cache as it goes, computes the walk of the value model over the cache it started with |
| `ConfirmationManagers.BlockConfirmationManager.ProcessNotifications` | internal/events/block_confirmations.go:336-354 | in order, each new log is added and walked at once and each removed log leaves the table, up to and including the first walk with an RPC error |
| `ConfirmationManagers.BlockConfirmationManager.WalkChain` | internal/events/block_confirmations.go:463-481 | every pending event is walked once, in event order, up to and including the first walk with an RPC error; everything dispatched is confirmed |
| `ConfirmationManagers.PlaceBlock` | internal/events/block_confirmations.go:416-436 | the scan over list positions finds the one position the block number allows |
| `ConfirmationManagers.SettleAll` | internal/events/block_confirmations.go:413-442 | in any map order, the due events are listed once each and the others kept |
| `ConfirmationManagers.SortedKeys` | internal/events/block_confirmations.go:463-471 | the keys of the table, each once, in block, transaction and log order |
| `ConfirmationManagers.KeyTellsLogs` | internal/events/block_confirmations.go:367-387 | two events share a key if and only if they agree in transaction hash, block number, block hash, transaction index and log index |
| `ConfirmationManagers.SortedIsChainOrder` | internal/events/block_confirmations.go:440-447 | what is sorted for dispatch goes by block, then transaction, then log |
| `ConfirmationManagers.CacheRemembers` | internal/events/block_confirmations.go:241-268 | a fetched header is cached under its number, and no other number changes |
| `ConfirmationManagers.HighestSeenIsMaximum` | internal/events/block_confirmations.go:389-410 | the highest block seen is the maximum of the earlier one and the blocks fetched |
| `ConfirmationManagers.WalkedEventIsDispatchedAgain` | internal/events/block_confirmations.go:412-519 | an event at its threshold is due again at the next block if and only if that block does not cut its list below the threshold |
| `ConfirmationRuns.EveryDispatchIsConfirmed` | internal/events/block_confirmations.go:336-519 | in every run of blocks, walks, additions, removals and stops, every event dispatched on either path was added and has the required, linked confirmations |
| `ConfirmationRuns.BlocksDispatchAnAdditionOnce` | internal/events/block_confirmations.go:412-458 | in every run arriving blocks dispatch each addition of an event at most once |
| `ConfirmationRuns.NothingAddedIsLost` | internal/events/block_confirmations.go:336-458 | in every run a pending event stays pending until a block dispatches it, unless its log is removed or added again or its stream stops |
| `ConfirmationRuns.AddedIsPendingOrDispatched` | internal/events/block_confirmations.go:336-458 | from its addition on, an event is pending or has been dispatched by a block |
| `ConfirmationRuns.BlockIsAStep` | internal/events/block_confirmations.go:412-458 | what `ProcessBlock` does is one step of the runs |
| `ConfirmationRuns.WalkIsAStep` | internal/events/block_confirmations.go:483-519 | so is what a walk does |
| `ConfirmationRuns.NotificationIsSteps` | internal/events/block_confirmations.go:336-354 | a new log is an addition and a walk, a removed one a removal |
| `ConfirmationRuns.WalkThenBlockDispatchesTwice` | internal/events/block_confirmations.go:412-519 | for any two linked blocks, a run in which one addition is dispatched by a walk and then by a block |
| `SharedConfirmations.ShownStaysIff` | internal/events/block_confirmations.go:412-519 | over every run after an event was handed out, a reader finds the same confirmations in every state if and only if no block or walk writes another block into the shared list or dispatches the event again with another one |
| `SharedConfirmations.BlockChangesShownIff` | internal/events/block_confirmations.go:412-438 | a block that does not dispatch the event again changes the list handed out if and only if it is placed inside that list, in the same array, and differs |
| `SharedConfirmations.WalkChangesShownIff` | internal/events/block_confirmations.go:480-519 | a walk that falls short lays what it collected over the list handed out, and changes it if and only if a block differs |
| `SharedConfirmations.GrownListIsApart` | internal/events/block_confirmations.go:412-438 | a list that outgrows its array leaves what was handed out alone, and so does every write after that |
| `SharedConfirmations.BlockIsPlaced` | internal/events/block_confirmations.go:412-438 | written in place or not, the list of a pending event after a block is that of the value model |
| `SharedConfirmations.ReplacedIsLinkedIff` | internal/events/block_confirmations.go:412-438 | a linked list with one block replaced by a sibling is linked if and only if it was the last block or has the same hash |
| `SharedConfirmations.SiblingBreaksDispatchedList` | internal/events/block_confirmations.go:412-519 | any list a walk dispatched is no longer linked once a sibling of one of its blocks but the last arrives |
| `Numerals.ParseOfFormat` | internal/eth/txn.go:476-516 | parsing the decimal text of an integer gives it back: with the unbounded parser always, with the two 64-bit parsers within their ranges |
| `Numerals.FromHexOfEncode` | internal/eth/txn.go:631-668 | decoding the hex text of bytes gives the bytes back |
| `Numerals.AddressOfEncode` | internal/eth/txn.go:623-630 | the hex text of a 20-byte address is recognised and decodes to the address |
| `Numerals.ReadersAreExact` | internal/eth/txn.go:476-516 | the readers accept exactly the texts that spell a number in their range, and give the positional value of the digits |
| `Numerals.FormatIsCanonical` | internal/eth/txn.go:233-300 | numbers are written with digits alone and without leading zeros |
| `Numerals.DecodesLeadingPairs` | internal/eth/txn.go:631-668 | hex text is decoded pair by pair up to the first pair that is none |
| `Numerals.PrefixIsOptional` | internal/eth/txn.go:623-668 | only a leading 0x or 0X is taken off a hex text |
| `Numerals.OddDigits` | internal/eth/txn.go:631-668 | of an odd number of digits the first one is a byte by itself |
| `Numerals.AddressIsItsDigits` | internal/eth/txn.go:623-630 | a text is taken for an address only with exactly 40 hex digits, and gives their 20 bytes |
| `AbiMapping.RoundTrip` | internal/eth/txn.go:233-680 | for every type with distinct field names and every value, output mapping succeeds if and only if no fixed-length array occurs in the value, and then argument generation gives the value back |
| `AbiMapping.ItemsRoundTrip` | internal/eth/txn.go:518-541 | the same for the elements of a slice |
| `AbiMapping.FieldsRoundTrip` | internal/eth/txn.go:302-320 | the same for the fields of a tuple |
| `AbiMapping.IntegerRoundTrip` | internal/eth/txn.go:476-516 | integers of every width survive the way through decimal text |
| `AbiMapping.BytesRoundTrip` | internal/eth/txn.go:631-668 | byte slices and fixed bytes survive the way through hex text |
| `AbiMapping.NumberIsKeptIff` | internal/eth/txn.go:476-610 | for every width and every JSON value: which numbers are accepted, and an accepted number is kept if and only if it is whole and in range for a native width, and for other widths whenever it is text or a whole number within an int64 |
| `AbiMapping.ChangedOrUnchecked` | internal/eth/txn.go:575-610 | concrete numbers that are cut off or wrap, and a 24-bit type that accepts numbers outside its range |
| `AbiMeanings.GenerateIsDenotation` | internal/eth/txn.go:518-680 | for every type and every JSON value: argument generation gives a value if and only if the JSON value denotes it, which is said of each type by itself: elements at their places, missing ones of an array zero, fields by name with the others zero, texts as numbers, booleans, addresses and bytes |
| `AbiMeanings.MapOutputIsShowing` | internal/eth/txn.go:233-320 | for every type and every value, well typed or not: output mapping gives a JSON value if and only if it shows the value |
| `AbiMeanings.EachFailsLikeTheFirst` | internal/eth/txn.go:518-541 | the first element that cannot be stored decides whether an array or slice fails with its error or panics |
| `AbiMeanings.FieldsFailLikeTheFirst` | internal/eth/txn.go:543-567 | the first field that cannot be assigned decides likewise for a tuple |
| `AbiMeanings.ScalarErrors` | internal/eth/txn.go:569-680 | which error each mismatch of type and JSON value, and each unreadable text, is refused with |
| `AbiMeanings.ByteErrors` | internal/eth/txn.go:631-668 | the first number that is no byte decides about the error of a number array |
| `AbiMeanings.NumbersAreBytes` | internal/eth/txn.go:631-668 | a number array gives bytes if and only if every element is a number that is one, each byte at its place |
| `AbiMeanings.IntegerIsRead` | internal/eth/txn.go:575-610 | which integer, of which Go type, a JSON value gives for each width |
| `AbiMeanings.LowerTrue` | internal/eth/txn.go:612-622 | a text is the boolean true if and only if it spells "true" in any case |
| `EventBatches.NormalBatchSize` | internal/events/eventstream.go:140-144 | a configured size from 1 to 1000 is kept, a larger one becomes 1000, and the result is never outside that range |
| `EventBatches.NothingIsLostOrReordered` | internal/events/eventstream.go:570-733 | in every run the in-flight count is what is current, queued and in process, batches have 1 to batch size events, and processed, in-process, queued and current events concatenate to what was received |
| `EventBatches.CounterNeverUnderflows` | internal/events/eventstream.go:716-724 | finishing a batch lowers the unsigned counter and never below zero |
| `EventBatches.TimeoutFlushes` | internal/events/eventstream.go:617-634 | after a timeout everything that was waiting is in batches that can be taken, in order |
| `EventBatches.OnlyTimeoutsCutBatchesShort` | internal/events/eventstream.go:570-635 | in every run without timeouts every queued batch is full |
| `EventBatches.StreamCanBeDrained` | internal/events/eventstream.go:570-733 | from every state, without further arrivals, everything in the stream can be delivered and acknowledged in order, within as many steps as are left |
| `EventBatches.MarksNeverMoveBack` | internal/events/logprocessor.go:90-100 | acknowledging a batch never lowers any mark |
| `EventBatches.AcknowledgeIsSafeIffNotSplit` | internal/events/eventstream.go:682-733 | acknowledging a batch keeps every undelivered event at or above its mark if and only if no block of the batch continues in a later event |
| `EventBatches.CheckpointStaysSafe` | internal/events/eventstream.go:570-733 | in every run with whole blocks per batch, unacknowledged events stay at or above their marks |
| `EventBatches.SplitBlockLosesAnEvent` | internal/events/eventstream.go:570-733 | a run from an empty stream after which the checkpoint is safe and acknowledging the batch in process puts the mark past an undelivered event |
| `EventBatches.EventStream.Dispatch` | internal/events/eventstream.go:570-635 | a received event takes exactly the arrival step and keeps the conservation invariant |
| `EventBatches.EventStream.DispatchOnTimeout` | internal/events/eventstream.go:617-634 | a timed-out batch is queued whole |
| `EventBatches.EventStream.NextBatch` | internal/events/eventstream.go:645-677 | the oldest queued batch becomes the one in process |
| `EventBatches.EventStream.ProcessBatch` | internal/events/eventstream.go:682-733 | a batch settles on the first success, or with skip on the first attempt; until then nothing changes |
| `EventBatches.EventStream.IsBlocked` | internal/events/eventstream.go:462-473 | polling stops exactly while a full batch or more is in flight |
| `EventBatches.NewestPerSubscription` | internal/events/eventstream.go:726-732 | the callback table holds the last event of each subscription in the batch |
| `HighWaterMarks.LogProcessor.BatchComplete` | internal/events/logprocessor.go:90-100 | the mark moves past the block and never back |
| `HighWaterMarks.LogProcessor.MarkNoEvents` | internal/events/logprocessor.go:109-116 | an empty page moves the mark only when nothing dispatched is at or above it |
| `HighWaterMarks.LogProcessor.InitBlockHWM` | internal/events/logprocessor.go:118-122 | the mark is set to the checkpoint |
| `HighWaterMarks.LogProcessor.NoteDispatched` | internal/events/logprocessor.go:205-209 | the highest dispatched block is a running maximum |
| `Subscriptions.Normalize` | internal/events/submanager.go:125-134 | positive values are kept and others become 250, except that a block gap below the page size becomes the page size |
| `Subscriptions.CatchUpTiles` | internal/events/subscription.go:206-333 | for any head growth and any RPC errors, the pages read and the start of the filter cover everything from the checkpoint on without gap or overlap, and no page reaches the head it saw |
| `Subscriptions.EveryBlockReadOnce` | internal/events/subscription.go:309-333 | in such a tiling every block before the position is in exactly one page |
| `Subscriptions.CatchUpIsBounded` | internal/events/subscription.go:309-333 | the number of pages is bounded by the distance to the highest head seen, and the position is the start plus the pages |
| `Subscriptions.CatchUpMovesOn` | internal/events/subscription.go:224-250 | every poll without RPC error reads another page or ends catch-up within the block gap |
| `Subscriptions.CatchUpEnds` | internal/events/subscription.go:224-333 | in every run that sees no head above h, once more polls have met no RPC error than there are pages from the checkpoint to h, the filter has started |
| `Subscriptions.RestartDecides` | internal/events/subscription.go:224-250 | exactly when a stale subscription reports an error, catches up or starts a filter, from which block, and what becomes of its flags |
| `Subscriptions.StartsFrom` | internal/events/eventstream.go:509-529 | a usable checkpoint is where it starts; without one the initial block height is, and an error if that cannot be found out |
| `Subscriptions.FirstPollStartsAtInitialHeight` | internal/events/subscription.go:178-250 | without a usable checkpoint the first page, or the filter, starts at the initial height |
| `Subscriptions.SynchronizedBySecondPoll` | internal/events/subscription.go:353-375 | a subscription counts as synchronized from the second poll of its filter on, until the filter is lost |
| `Subscriptions.StaleStartsOver` | internal/events/subscription.go:396-411 | a lost filter ends catch-up and synchronization and leaves the mark |
| `Subscriptions.DecodedInOrder` | internal/events/subscription.go:335-351 | the i-th log that decodes is the i-th that is dispatched |
| `Subscriptions.PageMovesOn` | internal/events/subscription.go:309-333 | a page moves the position by the page size, and the mark to the new position exactly when it is empty and nothing is in flight |
| `Subscriptions.QuietFromTheBeginning` | internal/events/subscription.go:309-333 | in every run that finds no event, with any RPC errors and head growth, mark and stored checkpoint are at every moment the next block to read |
| `Subscriptions.NothingInFlightIff` | internal/events/logprocessor.go:109-116 | the test that guards the empty-page move holds if and only if every dispatched event is acknowledged |
| `Subscriptions.EmptyPageKeepsSafe` | internal/events/logprocessor.go:109-116 | passing an empty page never moves the mark beyond an unacknowledged event |
| `Subscriptions.CheckpointIsSafe` | internal/events/eventstream.go:509-555 | in every run of polls and whole-block acknowledgements, unacknowledged events are at or above mark and stored checkpoint, acknowledged ones below the mark, and the mark never falls |
| `Subscriptions.RestartRereadsUnacknowledged` | internal/events/eventstream.go:509-555 | from the beginning of a run, the stored checkpoint is at or below every unacknowledged event |
| `SubscriptionRestarts.CheckpointSurvivesFilterLoss` | internal/events/subscription.go:353-411 | over every run against a fixed chain, with RPC errors and losses of the filter anywhere, events dispatched again and batches acknowledged between any two locked regions: in every state every event of the chain below the mark or the stored checkpoint has been acknowledged, if and only if no acknowledgement left an event of the block it ended in behind |
| `SubscriptionRestarts.AckIsSafeIff` | internal/events/logprocessor.go:90-100 | the same for one acknowledgement |
| `SubscriptionRestarts.EmptyPageIsSafe` | internal/events/logprocessor.go:109-116 | after any number of restarts and with acknowledgements in the middle of the poll, passing an empty page moves the mark over acknowledged events only |
| `SubscriptionRestarts.PageBegins` | internal/events/subscription.go:309-333 | a page read after a restart leaves no event of the chain out |
| `SubscriptionRestarts.OtherPollBegins` | internal/events/subscription.go:353-411 | nor does a poll of the filter, the creation of one, its loss, or an error |
| `SubscriptionRestarts.PollKeepsSound` | internal/events/eventstream.go:509-542 | every step of a poll, up to the recording of the checkpoint, keeps mark and checkpoint safe |
| `SubscriptionRestarts.UninterruptedPollIsPoll` | internal/events/eventstream.go:509-542 | without interruption the steps of a poll amount to the poll of the subscription as one step |
| `EventPipeline.FinishIsAck` | internal/events/eventstream.go:682-733 | acknowledging a batch of the stream is acknowledging, in the subscription, exactly its events in the batch |
| `EventPipeline.NewestIsLast` | internal/events/eventstream.go:726-732 | the callback that runs for a subscription is that of its last event in the batch |
| `EventPipeline.StreamRunsTheBatchModel` | internal/events/eventstream.go:570-733 | in every run of the pipeline the stream goes through a run of the batch model |
| `EventPipeline.ChannelKeepsOrder` | internal/events/eventstream.go:570-635 | whatever the subscriptions put into the channel, the stream receives all of it in that order |
| `EventPipeline.OutstandingEventsAreReread` | internal/events/eventstream.go:485-733 | end to end, in every interleaving of polls, other subscriptions, batching and delivery without split blocks: acknowledged and outstanding events are what was dispatched, in order, and every outstanding one is at or above mark and stored checkpoint |
| `SubscriptionPollers.Subscription.CreateFilter` | internal/events/subscription.go:206-222 | a new filter ends catch-up; a failure changes nothing |
| `SubscriptionPollers.Subscription.RestartFilter` | internal/events/subscription.go:224-250 | enters or stays in catch-up exactly when the head is further away than the block gap |
| `SubscriptionPollers.Subscription.ProcessLogs` | internal/events/subscription.go:335-351 | the decodable logs are dispatched in order and noted, the others skipped |
| `SubscriptionPollers.Subscription.ProcessCatchupBlocks` | internal/events/subscription.go:309-333 | one page is read and passed; an RPC error leaves the position |
| `SubscriptionPollers.Subscription.ProcessNewEvents` | internal/events/subscription.go:353-375 | a page in catch-up, otherwise a filter poll, with the synchronized flag set from the second one on, and a filter that is not found marked stale |
| `SubscriptionPollers.Subscription.MarkFilterStale` | internal/events/subscription.go:396-411 | a filter that goes stale ends catch-up and synchronisation |
| `SubscriptionPollers.Subscription.SetInitialBlockHeight` | internal/events/subscription.go:178-199 | the mark is set to the initial block if it can be found out |
| `SubscriptionPollers.Subscription.PollOnce` | internal/events/eventstream.go:509-529 | one turn of the poll loop, with or without a usable checkpoint, is exactly the step the run theorems are about |
| `ReceiptIndex.WrittenKeysApart` | internal/receipts/leveldbreceipts.go:81-104 | the sequence key and the three kinds of index keys of a receipt never collide, whatever its addresses |
| `ReceiptIndex.IndexKeyIsInjective` | internal/receipts/leveldbreceipts.go:84-103 | an index key determines its address, whatever text that is, and its sequence key |
| `ReceiptIndex.PrefixSelectsValue` | internal/receipts/leveldbreceipts.go:274-290 | an index key starts with an address prefix if and only if it is for that address or for a text that goes on with a colon after it |
| `ReceiptIndex.PutIsRecord` | internal/receipts/leveldbreceipts.go:59-110 | the writes for a receipt that fits turn a store that represents a ledger into one that represents the ledger with the receipt recorded |
| `ReceiptIndex.PutIsRecordIff` | internal/receipts/leveldbreceipts.go:59-110 | for any request ID and receipt, the store after the writes represents the ledger with the receipt recorded, under some choice of sequence keys, if and only if the receipt fits: the ID is not a key of the store for another reason nor the new sequence key, and neither that key nor an index key to be written is the ID of another receipt |
| `ReceiptIndex.UnshapedFits` | internal/receipts/leveldbreceipts.go:59-110 | as long as no ID reads as an index entry or is a sequence key, everything fits |
| `ReceiptExamples.MissingAddresses` | internal/receipts/leveldbreceipts.go:84-103 | a receipt without sender is indexed under the text Go prints for a missing value, one without recipient or with an empty one under no recipient |
| `Lexicographic.PrefixRunIsContiguous` | internal/receipts/leveldbreceipts.go:306-334 | keys with a common prefix are contiguous in key order |
| `LevelDBReceiptStores.LevelDBReceipts.AddReceipt` | internal/receipts/leveldbreceipts.go:59-110 | for any ID: refused exactly without overwrite for a key of the store, and then nothing changes; otherwise the result represents the recorded receipt, a new ID at the end and a known one in its place, if and only if the receipt fits; if it fits, only a known ID without overwrite is refused |
| `LevelDBReceiptStores.OverwriteKeepsPlaces` | internal/receipts/leveldbreceipts.go:72-79 | overwriting changes the order of no ID and no other receipt |
| `LevelDBReceiptStores.LevelDBReceipts.GetReceipt` | internal/receipts/leveldbreceipts.go:212-236 | for any text: the receipt last stored under an ID, or nothing; an index key leads to its receipt, a sequence key to an error |
| `LevelDBReceiptStores.LevelDBReceipts.GetReceipts` | internal/receipts/leveldbreceipts.go:113-172 | without filters, what the backward scan meets, which is the skip and limit slice of the ledger, newest first, if all request IDs sort below the oldest sequence key |
| `LevelDBReceiptStores.LevelDBReceipts.GetReceiptsByAddress` | internal/receipts/leveldbreceipts.go:113-155 | the receipts of the keys found, in descending order, up to the limit; these are the ones selected by sender, recipient or both, newest first, if nothing else lies under the prefixes of the addresses |
| `ReceiptListings.KeysComeLast` | internal/receipts/leveldbreceipts.go:81-84 | with such IDs the sequence keys come last in key order, in insertion order, and everything before them is a pointer |
| `ReceiptListings.ListingIsSlice` | internal/receipts/leveldbreceipts.go:175-209 | with such IDs the listing is the skip and limit slice of the ledger, newest first |
| `ReceiptListings.SliceInFigures` | internal/receipts/leveldbreceipts.go:175-209 | the slice by index: entry i is the receipt at position n - 1 - skip - i, and there are as many as the limit lets through, all if it is not positive |
| `ReceiptListings.ListingIsExactIff` | internal/receipts/leveldbreceipts.go:175-209 | the listing is that slice for every skip and limit if and only if every stored request ID sorts below the oldest sequence key |
| `ReceiptListings.AboveZEmptiesTheListing` | internal/receipts/leveldbreceipts.go:190-195 | with an ID that starts above "z" the listing without skip is empty, for every limit |
| `ReceiptListings.AboveOldestShiftsTheSkip` | internal/receipts/leveldbreceipts.go:189-206 | with an ID that starts with "z" above the oldest sequence key, a skip of all receipts still lists one |
| `ReceiptExamples.AboveZIsNotListed` | internal/receipts/leveldbreceipts.go:190-195 | a store whose only receipt has the ID "~x" exists, and none such lists anything |
| `ReceiptExamples.SkippedIsListed` | internal/receipts/leveldbreceipts.go:189-206 | a store whose only receipt has the ID "zz" exists, and any such lists it after a skip of one |
| `ReceiptListings.ReceiptsNoFilter` | internal/receipts/leveldbreceipts.go:175-209 | the backward scan returns the documents below the skipped keys, newest first, up to the limit; it passes over pointers without counting them and stops at the first key that does not start with "z" |
| `ReceiptQueries.MatchingIsExact` | internal/receipts/leveldbreceipts.go:306-334 | the matches of an address are exactly the keys ever indexed under it |
| `ReceiptQueries.HitsAreMatches` | internal/receipts/leveldbreceipts.go:306-334 | with nothing else under its prefix, the hits of an address are exactly its matches, in insertion order |
| `ReceiptQueries.ScanIsExactIff` | internal/receipts/leveldbreceipts.go:306-334 | what the scan returns is the matches up to the limit, for every limit, if and only if no indexed text goes on with a colon after the address and no request ID reads as an entry for it |
| `ReceiptQueries.TakenInFigures` | internal/receipts/leveldbreceipts.go:306-334 | of several matches a scan takes the first ones, as many as the limit says but at least one |
| `ReceiptQueries.SenderQueryIsExactIff` | internal/receipts/leveldbreceipts.go:274-304 | a query by sender finds what it selects for every start and limit if and only if nothing else lies under its prefix |
| `ReceiptQueries.RecipientQueryIsExactIff` | internal/receipts/leveldbreceipts.go:274-304 | the same for a query by recipient |
| `ReceiptQueries.EveryQueryIsExactIff` | internal/receipts/leveldbreceipts.go:274-304 | all queries by sender, recipient or both are exact for every start and limit if and only if nothing else lies under the prefix of any address |
| `ReceiptQueries.PlainIsUndisturbed` | internal/receipts/leveldbreceipts.go:274-304 | so it is with addresses without a colon and IDs that do not read as entries |
| `ReceiptExamples.ExtendedAddressIsFound` | internal/receipts/leveldbreceipts.go:274-304 | a store whose only receipt is from "a:b" exists, and in any such store a query for "a", under which nothing was indexed, finds it |
| `ReceiptExamples.ShapedIdIsFound` | internal/receipts/leveldbreceipts.go:274-304 | a store whose only receipt, of another sender, has the ID "from:b:c" exists, and in any such store a query for "b" finds it |
| `ReceiptExamples.IndexEntryIsTakenForAnId` | internal/receipts/leveldbreceipts.go:59-79 | in any store whose only receipt is from "a" under "z1", the ID "from:a:z1" was never stored, yet nothing fits under it |
| `ReceiptQueries.LookupKeysByPrefix` | internal/receipts/leveldbreceipts.go:306-334 | what the first keys with the prefix lead to, up to the limit, and at least one if there is any |
| `ReceiptQueries.LookupKeysByFromAndTo` | internal/receipts/leveldbreceipts.go:274-304 | for any store, addresses, bounds and limit, the scans, their intersection by binary search and the bounds give the keys of the query |
| `ReceiptQueries.QuerySelects` | internal/receipts/leveldbreceipts.go:274-304 | with nothing else under its prefixes these are ascending and exactly the keys scanned for each given address that lie within the bounds |
| `ReceiptQueries.LargeLimitSelectsAll` | internal/receipts/leveldbreceipts.go:274-304 | with a limit no smaller than the number of receipts these are exactly the keys ever indexed under the addresses |
| `ReceiptQueries.QueryListsNewestIff` | internal/receipts/leveldbreceipts.go:274-334 | for queries by sender, recipient or both and every limit: the keys read are the newest matches if and only if there are none or the newest one is within the first matches scanned for every address |
| `ReceiptQueries.NewestBySenderIffAllFit` | internal/receipts/leveldbreceipts.go:274-334 | for a query by sender this holds if and only if the limit covers all matches |
| `ReceiptQueries.SearchStrings` | internal/receipts/leveldbreceipts.go:362-385 | in any sequence the place where binary search ends; in an ascending one the first element not below the key |
| `ReceiptQueries.Intersect` | internal/receipts/leveldbreceipts.go:362-372 | the elements of the one that binary search finds in the other; of ascending sequences exactly the common elements, ascending |
| `ReceiptQueries.ApplyBound` | internal/receipts/leveldbreceipts.go:374-385 | the cuts that binary search finds; of an ascending sequence exactly the elements within the bounds, an empty bound being none |
| `ReceiptQueries.ReceiptsByLookupKey` | internal/receipts/leveldbreceipts.go:336-360 | the receipt of each key up to the limit, in order |
| `ReceiptExamples.OneResultIsTheOldest` | internal/receipts/leveldbreceipts.go:274-334 | two stored receipts of one sender, for which a query with a limit of one reads the older |
| `Reservations.ReservationPreventsDuplicates` | internal/rest/receiptstore.go:86-107 | over all interleavings of requests and replies, with lookups and writes that may fail, at most one send of a message ID succeeds as long as every release after a send finds a record, and none if the ID already had one |
| `Reservations.FreeIdCanBeSentIff` | internal/rest/receiptstore.go:86-107 | an ID nobody holds is sent by some run from here if and only if it has no record |
| `Reservations.ReleaseAllowsDuplicateIff` | internal/rest/webhooks.go:183-209 | after any run that kept its records, the release of an ID that was sent allows a second send if and only if the ID has no record |
| `Reservations.FailedWriteLeavesTheIdFree` | internal/rest/webhooks.go:183-209 | from any state with a free ID, a request whose record cannot be written is sent and leaves the ID as free as before |
| `Reservations.WrittenRecordSpendsTheId` | internal/rest/webhooks.go:183-209 | once the record of a sent request is written and the ID released, no run sends the ID again |
| `Reservations.ReplySpendsTheId` | internal/rest/receiptstore.go:117-189 | nor after a reply for an ID nobody holds |
| `Reservations.ReceiptStore.ReserveID` | internal/rest/receiptstore.go:86-107 | takes exactly the reservation step: it succeeds if and only if the lookup gets through and the ID is neither recorded nor reserved |
| `Reservations.ReceiptStore.ReleaseID` | internal/rest/receiptstore.go:100-105 | takes exactly the release step of its request |
| `Reservations.ReceiptStore.WriteReceipt` | internal/rest/receiptstore.go:191-226 | without overwrite only the first attempt counts and an existing record is an error; with overwrite the write succeeds if any attempt in time does, and panics otherwise |
| `Reservations.ReceiptStore.ProcessMsg` | internal/rest/webhooks.go:183-209 | under any interference: 409 if and only if the ID was not free in the state of its reservation, and then nothing else is done; otherwise the message is sent, the status of a failed send is handed on, and a taken message gives 200 if and only if its record was written, 500 if the store failed or a reply was there first; the ID is released in the end, and what happened is a run of the reservation model with these steps in this order |
| `DelayTrackers.InitialDelay` | internal/tx/txndelaytracker.go:71-86 | between the minimum and the maximum delay |
| `DelayTrackers.RetryDelay` | internal/tx/txndelaytracker.go:89-100 | never above the maximum delay |
| `DelayTrackers.RetryDelayIsMonotone` | internal/tx/txndelaytracker.go:89-100 | never shrinks from one retry to a later one |
| `DelayTrackers.InitialDelayInFigures` | internal/tx/txndelaytracker.go:71-86 | 80% of the average in whole milliseconds, a fifth of that for every 25th transaction, cut off at 100 milliseconds and 10 seconds |
| `DelayTrackers.RetryDelayInFigures` | internal/tx/txndelaytracker.go:89-100 | 15% of the initial delay times 1.3 to the number of the retry, in whole milliseconds, cut off at 10 seconds |
| `DelayTrackers.RecentInFigures` | internal/tx/txndelaytracker.go:121-144 | the average is over the last 100 samples, or all if there are fewer |
| `DelayTrackers.ReportedInFigures` | internal/tx/txndelaytracker.go:103-119 | a sample of at most three tenths of a positive average starts the history over, a larger one is added; while the average is zero only a negative sample starts over |
| `DelayTrackers.RingTakesSample` | internal/tx/txndelaytracker.go:146-157 | writing a slot of the ring appends the sample to the history the ring stands for |
| `DelayTrackers.RingSum` | internal/tx/txndelaytracker.go:121-144 | summing the ring in slot order sums the last 100 samples |
| `DelayTrackers.TxnDelayTracker.Add` | internal/tx/txndelaytracker.go:146-157 | the history since the last reset grows by the sample |
| `DelayTrackers.TxnDelayTracker.Reset` | internal/tx/txndelaytracker.go:159-163 | the history is empty |
| `DelayTrackers.TxnDelayTracker.Avg` | internal/tx/txndelaytracker.go:121-144 | the mean of the last min(n, 100) samples since the last reset, 0 if there are none |
| `DelayTrackers.TxnDelayTracker.ReportSuccess` | internal/tx/txndelaytracker.go:103-119 | the history becomes the one with the sample reported |
| `DelayTrackers.TxnDelayTracker.GetInitialDelay` | internal/tx/txndelaytracker.go:71-86 | a clamped fraction of that mean, with every 25th delay a shorter tracer |
| `DelayTrackers.GetRetryDelay` | internal/tx/txndelaytracker.go:89-100 | the loop with its early exit computes the capped geometric delay |

## Left out

- Machine integers: nonces, block numbers, offsets and counters are unbounded; int64 and uint64 overflow is not modelled except in the ABI mapping.
- Aliasing of big.Int values is not modelled. The confirmation slice is a plain value in the confirmation manager; its sharing with what was dispatched is in SharedConfirmations.
- Eviction in the block cache is an arbitrary loss of entries, not the least recently used one.
- Kafka topics: one topic; `setInFlightComplete` itself compares the partition only.
- Kafka producer errors: they end the process in the source.
- Timing: sleeps, polling intervals and retry delays; the maximum transaction wait is a look for the receipt that comes too late.
- Signing, gas estimation, address book lookups and transaction building are outcomes of a step (a refusal or a failed send).
- The gap-fill transaction itself: only when and for which nonce it is sent.
- Restarts of the bridge: the transaction table starts empty; checkpoints cover the restart of an event stream only.
- Runs of a subscription start from a usable checkpoint and end at a reset; tiling, termination of catch-up and the pipeline are followed up to the loss of the filter only. Suspend, resume, update and stop are not modelled.
- Re-organisations under a subscription without a confirmation manager: SubscriptionRestarts assumes one fixed chain, whose logs the node reports completely and in order.
- A poll is one step in Subscriptions and EventPipeline; only SubscriptionRestarts lets batches be acknowledged in the middle of it.
- Subscriptions.CheckpointIsSafe: assumes acknowledgements of whole blocks and a filter that does not go on with an acknowledged block, because the property is false otherwise; `AcknowledgeIsSafeIffNotSplit` gives the exact condition for batches.
- Checkpoints of streams that use the confirmation manager: dispatch there is delayed, and the two are modelled separately.
- AbiMapping.RoundTrip: tuples with repeated field names are outside its domain; conversions of floats outside 64 bits are those of amd64.
- Receipt queries by request ID, the `start` position of unfiltered listings, the `since` bound, failing store writes, and the Mongo and memory stores.
- LevelDBReceiptStores.LevelDBReceipts.AddReceipt: assumes that each new sequence key is above the earlier ones, as the generator of the keys promises; after a receipt that does not fit, the object is not followed further.
- Reservations.ReservationPreventsDuplicates: the store does not evict, and a crash between the send and the write is not modelled; that a release after a send finds a record is its condition, and `ReleaseAllowsDuplicateIff` says what happens otherwise.
- HTTP routing, Swagger generation, the contract registry, authentication, the circuit breaker, websockets and webhook delivery: plumbing without invariants as hard as those above.
