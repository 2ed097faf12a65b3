# Verification of the Couchbase client's scan, collection and bucket protocols, and of the byte codecs

The project models the parts of the repository that decide something over many steps, and proves
what they keep.

- **Range scans** (`RangeScan*.dfy`). A scan over many vbuckets runs as streams. `RangeScanBalancer`,
  `RangeScanStream` and `RangeScanOrchestrator` are the objects of the client, each method proved
  against a function on values. `RangeScanRuns` puts them together with the servers' answers, the
  posted tasks and the consumer into one state machine; `RangeScanTheorems`, `RangeScanResults` and
  `RangeScanDelivery` prove what every run keeps, `RangeScanOutcomes` which answers end a stream or
  fail the scan, `RangeScanConsumer` what the calls of next() do, and `RangeScanCancel` what becomes
  of calls that wait when the scan is cancelled. `RangeScanRaces` takes the callbacks apart into
  their accesses to shared counters. `RangeScanSnapshot` covers the snapshot requirements, and
  `RangeScanPayload` the parser of the payload with its LEB128 lengths (`Leb128`).
- **Collection ids** (`Collections*.dfy`, `OperationQueue.dfy`). Requests wait in the queue of a cache
  entry while one lookup asks for its id. Dispatch, the answers to lookups and retries are atomic
  steps of `CollectionsRuns`. Nothing is asked of a run; `CollectionsTheorems` proves what every run
  keeps, `CollectionsResults` what follows from it under conditions on the key or request in
  question, `CollectionsFates` where a request goes in terms of its names and the cached id, and
  `CollectionsAsWritten` what the code does otherwise than it says. The field
  `repaired` chooses between the queue's `remove` as it is written and one that works.
- **Bucket** (`Bucket*.dfy`). Which configuration is accepted, how the sessions follow it
  (`BucketSessions`), how they are repaired in place (`BucketRestart`) and which of them survive that
  (`BucketSurvivors`), what updates, removals and restarts come to in any order
  (`BucketSessionRuns`), how a poll finds a session (`BucketProbe`), and where requests go
  (`BucketRequests`, `BucketFates`, `BucketRequestRuns`).
- **Codecs** (`Base36.dfy`, `Base64.dfy`, `ReplaceAll.dfy`). Loops over bytes, each proved against a
  function that says what the result is.

Sequences, maps and objects stand for the client's queues, maps and classes. Integers are unbounded;
where the width matters (16-bit stream counts, the 32-bit accumulator, 64-bit counters and lengths)
the wrap-around is written out. Answers of servers, time-outs, granted retries and the order of a
shuffle are parameters that may take any value.

## Where the code does not do what it says

Each of these is kept as it is in the model, the exact condition is proved, and a run or an input
shows that it happens.

- `operation_queue::remove` compares the queue that a request refers to with null, so it finds nothing
  to remove; the retry that the comment at collections_component.cxx:403-407 announces never happens.
- A lookup puts in default names, but its entry is cached under the names as given. With one empty
  name those who wait leave with the pending sentinel as their id, the entry stays pending, and every
  later request of that collection waits for good.
- A lookup that cannot be sent leaves its request refused and queued at once.
- A fatal stream error cancels the scan before it is read, so a consumer that is not already waiting
  is told that the scan is complete.
- `cancel()` leaves the channel open and a flagged stream that would go on sends no end signal, so a
  call of next() that waits can wait for good.
- `restart_sessions` creates a session at the index of the node instead of its slot, so behind a
  node without a key-value port it overwrites the session of another node and leaves its own slot
  empty.
- The test for changed nodes compares default addresses; on an alternate network a swap goes unseen,
  and the next restart can lose a session.
- A refused retry of a cancelled request, or of a deferred one, is told to nobody.
- A request that backs off while its bucket is closed is deferred, and is told only if someone drains
  the deferred queue once more, which closing it again does not do.
- The documentation of the decoder asks its callers to check the returned buffer; the payload parser
  does not, so a cut length is read as an empty key or value, or beyond the buffer.
- The tail tests of `base64encode` lose the last byte of whole groups and add one to single bytes.
- The 36 characters of the base36-named alphabet are used as five-bit digits; the last four disturb
  their neighbours.
- `and_replace_all` finds an empty query again after each replacement, until the string is too long;
  with both strings empty it does not end.

## Model

| member | source | states |
|---|---|---|
| RangeScanBalancer.RangeScanLoadBalancer.constructor | vendors/couchbase-cxx-client/core/range_scan_load_balancer.cxx:77-90 | every vbucket is queued once, at its own active node, in ascending order, and no stream is active |
| RangeScanBalancer.QueueIsExact | vendors/couchbase-cxx-client/core/range_scan_load_balancer.cxx:82-86 | the queue of a node holds exactly the vbuckets whose active node it is, in ascending order |
| RangeScanBalancer.RangeScanLoadBalancer.SelectVbucket | vendors/couchbase-cxx-client/core/range_scan_load_balancer.cxx:98-130 | whatever the shuffle, the head of a queue of a node with the fewest active streams among those with work is taken, and only that node changes; nothing is taken only if no node is eligible |
| RangeScanStream.RangeScanStream.StartAttempt | vendors/couchbase-cxx-client/core/range_scan_orchestrator.cxx:108-137 | the new state, the notice to the manager and the request that is sent, for a first attempt, a retry in time and a retry too late |
| RangeScanStream.RangeScanStream.OnCreateAnswer | vendors/couchbase-cxx-client/core/range_scan_orchestrator.cxx:137-180 | benign, busy, fatal and good answers to the create request each lead to their own state and notice |
| RangeScanStream.RangeScanStream.ResumeScan | vendors/couchbase-cxx-client/core/range_scan_orchestrator.cxx:267-304 | only a running stream continues, and one that should cancel posts the cancellation instead |
| RangeScanStream.RangeScanStream.OnItem | vendors/couchbase-cxx-client/core/range_scan_orchestrator.cxx:282-291 | an item of a cancelled scan is dropped, any other is the last seen key and reaches the manager |
| RangeScanStream.RangeScanStream.OnBatchEnd | vendors/couchbase-cxx-client/core/range_scan_orchestrator.cxx:292-302 | the end of a batch fails, completes or resumes the stream |
| RangeScanStream.RangeScanStream.Fail | vendors/couchbase-cxx-client/core/range_scan_orchestrator.cxx:194-223 | a failed stream stays as it failed first; otherwise the error and the kind of scan decide whether it is fatal |
| RangeScanOutcomes.StartFailsExactlyWhen | vendors/couchbase-cxx-client/core/range_scan_orchestrator.cxx:108-130 | over every run: a start fails if and only if it is a retry after a busy answer and the time-out has passed, with unambiguous_timeout, which is fatal but in a sampling scan |
| RangeScanOutcomes.CreateFailsExactlyWhen | vendors/couchbase-cxx-client/core/range_scan_orchestrator.cxx:137-173 | an error on create is fatal in every scan but for document_not_found, which ends the stream, and temporary_failure, which is tried again |
| RangeScanOutcomes.BatchFailsExactlyWhen | vendors/couchbase-cxx-client/core/range_scan_orchestrator.cxx:194-223 | over every run: an error on continue is fatal unless the scan is a sampling one and the error one of four, which are named |
| RangeScanOutcomes.BatchLeadsTo | vendors/couchbase-cxx-client/core/range_scan_orchestrator.cxx:292-302 | without an error the batch completes the stream, goes on or cancels, or leaves the stream where it is |
| RangeScanOutcomes.CreateLeadsTo | vendors/couchbase-cxx-client/core/range_scan_orchestrator.cxx:174-180 | a created stream runs, and goes on unless it is to cancel |
| RangeScanOutcomes.EndedWell | vendors/couchbase-cxx-client/core/range_scan_orchestrator.cxx:194-265 | over every uncancelled run of any kind of scan, a vbucket has ended only by one of the answers that are named |
| RangeScanOutcomes.CompletedMeansAllRead | vendors/couchbase-cxx-client/core/range_scan_orchestrator.cxx:485-493 | if the consumer of a range or prefix scan is told that it is complete, every vbucket was read to its end or had no documents, and no continue request was answered with an error |
| RangeScanOutcomes.LastSeenIsLastTaken | vendors/couchbase-cxx-client/core/range_scan_orchestrator.cxx:282-291 | in any run a stream remembers the key of the last item that it took |
| RangeScanOutcomes.StartsBehindLastKey | vendors/couchbase-cxx-client/core/range_scan_orchestrator.cxx:131-133 | only a range scan begins behind the last seen key |
| RangeScanOrchestrator.RangeScanOrchestrator.Scan | vendors/couchbase-cxx-client/core/range_scan_orchestrator.cxx:392-446 | a limit or concurrency of zero is refused, a failed collection lookup ends the scan with its error; otherwise every vbucket gets its stream and as many start as the concurrency and the queues allow, except that with 65536 vbuckets no stream is registered and the first start throws |
| RangeScanOrchestrator.RangeScanOrchestrator.StartStreams | vendors/couchbase-cxx-client/core/range_scan_orchestrator.cxx:522-550 | up to `count` picks of least-loaded nodes, fewer only if nothing is pending, none once cancelled; streams_.at() is always met |
| RangeScanAccounts.StartMoves | vendors/couchbase-cxx-client/core/range_scan_orchestrator.cxx:529-549 | as many streams start as are asked for or are pending, whichever is less |
| RangeScanResults.ScanBeginsEvenly | vendors/couchbase-cxx-client/core/range_scan_load_balancer.cxx:98-130 | a scan begins with as many streams as its concurrency and its vbuckets allow, and no node has two more than a node that still has work |
| RangeScanOrchestrator.RangeScanOrchestrator.StreamReceivedItem | vendors/couchbase-cxx-client/core/range_scan_orchestrator.cxx:552-561 | an item goes to the call that waits, or else to the end of the channel, and is lost only if that is closed |
| RangeScanOrchestrator.RangeScanOrchestrator.StreamHasCompleted | vendors/couchbase-cxx-client/core/range_scan_orchestrator.cxx:584-596 | the attempt is retired, its end signal sent, and one more stream started |
| RangeScanOrchestrator.RangeScanOrchestrator.StreamHasFailed | vendors/couchbase-cxx-client/core/range_scan_orchestrator.cxx:563-582 | a fatal failure retires the attempt, sends the error and cancels; any other is a completion |
| RangeScanOrchestrator.RangeScanOrchestrator.StreamStartFailedAwaitingRetry | vendors/couchbase-cxx-client/core/range_scan_orchestrator.cxx:598-607 | the vbucket goes back to its queue, and a stream is started only if no attempt is left |
| RangeScanOrchestrator.RangeScanOrchestrator.Cancel | vendors/couchbase-cxx-client/core/range_scan_orchestrator.cxx:448-454 | every registered stream is told to cancel |
| RangeScanOrchestrator.RangeScanOrchestrator.NextCallback | vendors/couchbase-cxx-client/core/range_scan_orchestrator.cxx:474-483 | the limit counts down, and a call at limit zero is answered as completed and cancels |
| RangeScanOrchestrator.RangeScanOrchestrator.NextItemCallback | vendors/couchbase-cxx-client/core/range_scan_orchestrator.cxx:485-493 | completed is answered, and the channel closed, if no stream is registered or the scan is cancelled; otherwise the oldest message is taken or waited for |
| RangeScanOrchestrator.RangeScanOrchestrator.OnReceive | vendors/couchbase-cxx-client/core/range_scan_orchestrator.cxx:494-519 | an item or an error answers the call; an end signal deregisters the stream and posts the call again |
| RangeScanPlaces.LaunchKeepsPlaces | vendors/couchbase-cxx-client/core/range_scan_orchestrator.cxx:537-548 | starting a stream moves its vbucket from its queue to an attempt, and all counts follow |
| RangeScanPlaces.EndKeepsPlaces | vendors/couchbase-cxx-client/core/range_scan_orchestrator.cxx:572-573 | retiring an attempt lowers its node's count and the total by one each, without wrap-around |
| RangeScanPlaces.RequeueKeepsPlaces | vendors/couchbase-cxx-client/core/range_scan_orchestrator.cxx:600-603 | a busy answer moves the vbucket back to the queue of its own node |
| RangeScanPlaces.NoUnderflow | vendors/couchbase-cxx-client/core/range_scan_load_balancer.cxx:49-54 | no count is ever zero when a stream is reported as ended |
| RangeScanTheorems.EveryRunKeepsInv | vendors/couchbase-cxx-client/core/range_scan_orchestrator.cxx:349-630 | one invariant over places, counts, streams, channel and consumer holds after every sequence of actions |
| RangeScanOrchestrator.LegalPicksExist | vendors/couchbase-cxx-client/core/range_scan_load_balancer.cxx:98-130 | some choice of the load balancer is always possible, so no step blocks |
| RangeScanResults.EveryScanBegins | vendors/couchbase-cxx-client/core/range_scan_orchestrator.cxx:392-446 | every scan that is accepted has a first state, so the results over runs speak of every scan |
| RangeScanResults.OnePlacePerVbucket | vendors/couchbase-cxx-client/core/range_scan_orchestrator.cxx:522-607 | in every reachable state a vbucket is pending at its own node, held by one attempt, or ended, never two of these; pending ones are registered; the active count is the sum of the node counts and the number of attempts |
| RangeScanResults.ConcurrencyBacksOff | vendors/couchbase-cxx-client/core/range_scan_orchestrator.cxx:598-607 | after k busy answers there are at most max(1, concurrency - k) attempts, callbacks being atomic |
| RangeScanResults.NoStall | vendors/couchbase-cxx-client/core/range_scan_orchestrator.cxx:584-607 | while a vbucket is pending in an uncancelled scan, an attempt is active |
| RangeScanResults.MeasureFalls | vendors/couchbase-cxx-client/core/range_scan_orchestrator.cxx:522-607 | a measure of pending vbuckets, attempts and remaining busy answers falls at every start, end and retry |
| RangeScanResults.AttemptsBounded | vendors/couchbase-cxx-client/core/range_scan_orchestrator.cxx:108-181 | a scan of n vbuckets with b busy answers makes at most n + b attempts |
| RangeScanResults.QuietMeansAllEnded | vendors/couchbase-cxx-client/core/range_scan_orchestrator.cxx:522-607 | an uncancelled scan without attempts has ended every vbucket |
| RangeScanResults.StreamsRetryCleanly | vendors/couchbase-cxx-client/core/range_scan_orchestrator.cxx:131-133 | every attempt but a running one has given exactly one busy or final notice, at most one was final, and a stream that may still be started has seen no key and sent no item, so no retry delivers an item again |
| RangeScanResults.EndedForGood | vendors/couchbase-cxx-client/core/range_scan_orchestrator.cxx:225-265 | a vbucket that has ended stays ended, and its stream's state is never left |
| RangeScanDelivery.DeliveryIsComplete | vendors/couchbase-cxx-client/core/range_scan_orchestrator.cxx:474-520 | uncancelled, the consumer has a prefix of all received items in order; once told that the scan is complete it has all of them, and every stream's end signal was consumed |
| RangeScanDelivery.CompletedExactlyWhenAllEnded | vendors/couchbase-cxx-client/core/range_scan_orchestrator.cxx:485-493 | an uncancelled call below the limit is answered as completed if and only if every end signal was consumed |
| RangeScanDelivery.LimitIsKept | vendors/couchbase-cxx-client/core/range_scan_orchestrator.cxx:474-483 | no run hands out more items than the limit, and each call has one answer or still waits |
| RangeScanConsumer.CallCancelsExactlyBeyondLimit | vendors/couchbase-cxx-client/core/range_scan_orchestrator.cxx:474-483 | over every run: a call is answered as completed and cancels the scan and all its registered streams if and only if as many calls as the limit came before it |
| RangeScanConsumer.ClosedForGood | vendors/couchbase-cxx-client/core/range_scan_orchestrator.cxx:485-493 | a closed channel is never read again and takes nothing more; it holds the first 1024 messages that were not read |
| RangeScanDelivery.FatalErrorReachesOnlyWaitingConsumer | vendors/couchbase-cxx-client/core/range_scan_orchestrator.cxx:563-582 | a fatal error is handed to the consumer, then or ever, if and only if a call already waits when it arrives, and then that call is answered with this error; otherwise cancel() hides it behind a completion |
| RangeScanDelivery.FatalErrorCanBeMissed | vendors/couchbase-cxx-client/core/range_scan_orchestrator.cxx:563-582 | a run in which a stream fails fatally before next() is called, and the first call is told that the scan is complete |
| RangeScanCancel.WaitsExactlyWhile | vendors/couchbase-cxx-client/core/range_scan_orchestrator.cxx:448-454 | calls that wait in a cancelled scan go on waiting exactly as long as no stream ends and next() is neither called below the limit nor continued, over every continuation |
| RangeScanCancel.WokenCallsAreAnswered | vendors/couchbase-cxx-client/core/range_scan_orchestrator.cxx:485-519 | what they are answered: the end of a stream reaches the oldest, a later next() or continuation aborts all |
| RangeScanCancel.WaitsForGoodExactlyWhen | vendors/couchbase-cxx-client/core/range_scan_orchestrator.cxx:267-275 | once no stream has anything outstanding, they wait for good if and only if next() is not called again or the limit is used up |
| RangeScanCancel.CallCanWaitForGood | vendors/couchbase-cxx-client/core/range_scan_orchestrator.cxx:267-275 | a run that comes to that: the one stream is created after the cancellation, and sends no end signal |
| RangeScanRaces.AttemptsStayBounded | vendors/couchbase-cxx-client/core/range_scan_orchestrator.cxx:522-607 | under every interleaving of the callbacks' sub-steps there are at most `concurrency` attempts, and the atomic count is their number |
| RangeScanRaces.NoStallWhenCallbacksAreDone | vendors/couchbase-cxx-client/core/range_scan_orchestrator.cxx:584-607 | whenever no callback is under way and a vbucket is pending, an attempt is active |
| RangeScanRaces.OverlappingBusyAnswersDoNotBackOff | vendors/couchbase-cxx-client/core/range_scan_orchestrator.cxx:598-607 | an interleaving of two busy answers after which the number of attempts has not gone down |
| RangeScanSnapshot.SnapshotRequirements | vendors/couchbase-cxx-client/core/range_scan_orchestrator.cxx:48-65 | every partition of the tokens gets the requirement of its first token with the highest sequence number, and no other partition gets one |
| OperationQueue.OperationQueue.Push | vendors/couchbase-cxx-client/core/mcbp/operation_queue.cxx:66-94 | closed, full, already queued and cancelled are refused in this order and change nothing; otherwise the request is last |
| OperationQueue.OperationQueue.Remove | vendors/couchbase-cxx-client/core/mcbp/operation_queue.cxx:96-116 | as written, never removes anything from a queue whose requests refer to it, because what they refer to is compared with null |
| OperationQueue.OperationQueue.RemoveOwn | vendors/couchbase-cxx-client/core/mcbp/operation_queue.cxx:96-116 | with the comparison that the callers count on: exactly one occurrence is removed, if there is one |
| OperationQueue.OperationQueue.ItemsToDrain | vendors/couchbase-cxx-client/core/mcbp/operation_queue.cxx:146-166 | an open queue gives nothing; a closed one gives all its requests in order and lets go of them |
| Collections.CollectionsComponent.DispatchRequest | vendors/couchbase-cxx-client/core/collections_component.cxx:312-332 | the whole new state of a dispatch: sent directly, sent with the cached id, queued, or refused |
| CollectionsFates.DirectOnlyWithKnownCollection | vendors/couchbase-cxx-client/core/collections_component.cxx:312-319 | over every run: a request goes past the cache only if it brought an id, has no name, or names _default in _default |
| CollectionsFates.DirectExactlyWhenKnown | vendors/couchbase-cxx-client/core/collections_component.cxx:312-319 | and an accepted one of these always does |
| CollectionsFates.DispatchGoes | vendors/couchbase-cxx-client/core/collections_component.cxx:320-385 | every other request goes through the entry of its joined name: the exact queue, id, lookup and error in terms of the cached id and the length of the queue |
| Collections.CollectionsComponent.DispatchThrough | vendors/couchbase-cxx-client/core/collections_component.cxx:343-385 | unknown ids queue the request and ask, pending ids queue it, known ids send it |
| Collections.CollectionsComponent.RefreshCollectionId | vendors/couchbase-cxx-client/core/collections_component.cxx:387-464 | the request is queued before the lookup is sent, and stays queued if it cannot be |
| Collections.CollectionsComponent.ReQueueRequest | vendors/couchbase-cxx-client/core/collections_component.cxx:237-247 | a known id is reset before the request is dispatched again; an error goes to the callback |
| CollectionsFates.RetryGoes | vendors/couchbase-cxx-client/core/collections_component.cxx:237-247 | the same for a retry, whose known id counts as unknown and whose error is called back |
| Collections.CollectionsComponent.GetAndMaybeInsert | vendors/couchbase-cxx-client/core/collections_component.cxx:169-183 | an existing entry is found, otherwise a new one is cached |
| Collections.CollectionsComponent.UpsertId | vendors/couchbase-cxx-client/core/collections_component.cxx:191-208 | the id of the cached entry is set, or a new entry cached with it |
| Collections.CollectionsComponent.OnLookupSuccess | vendors/couchbase-cxx-client/core/collections_component.cxx:438-456 | the id goes to the entry cached under the looked-up names, then all waiters of the asking entry are sent with that entry's id |
| CollectionsFates.SuccessSetsId | vendors/couchbase-cxx-client/core/collections_component.cxx:191-208 | the id is put under the looked-up names and nowhere else, and the next request of these names carries it unless it is one of the two reserved ids |
| CollectionsFates.LookupAsksFor | vendors/couchbase-cxx-client/core/collections_component.cxx:275-277 | the names that are looked up, with _default for an empty one |
| Collections.CollectionsComponent.OnLookupFailure | vendors/couchbase-cxx-client/core/collections_component.cxx:401-436 | a missing collection retries the first request if it can be removed from the queue; any other failure calls all waiters back |
| CollectionsFates.FailureTells | vendors/couchbase-cxx-client/core/collections_component.cxx:401-436 | every waiter is called back with this error in order and the entry leaves the cache, or the asking request is retried; in terms of the queue and the names |
| CollectionsSteps.StepKeepsKey | vendors/couchbase-cxx-client/core/collections_component.cxx:94-131 | every step keeps the laws of every key: pending means looked up, at most one lookup, waiters have something to wait for; each under its own condition on what has happened to that key |
| CollectionsTheorems.StepKeepsBalance | vendors/couchbase-cxx-client/core/collections_component.cxx:237-464 | every step keeps the count of every request's places |
| CollectionsResults.PendingExactlyWhileLookedUp | vendors/couchbase-cxx-client/core/collections_component.cxx:343-385 | in any run, while nothing but its own lookups has set an entry's id, the id is pending if and only if a lookup for the entry is in flight |
| CollectionsResults.OneLookupForTheCachedEntry | vendors/couchbase-cxx-client/core/collections_component.cxx:343-385 | a key never has two lookups in flight, and the one it has is for the cached entry |
| CollectionsResults.EveryRequestCarriesLatestId | vendors/couchbase-cxx-client/core/collections_component.cxx:114-131 | in any run, also if lookups cannot be sent, a request that leaves through an entry carries the id of the latest successful lookup of its collection, and no sentinel that the server did not answer with; the exception is the success of a lookup that lacks a name |
| CollectionsResults.EachRequestInOnePlace | vendors/couchbase-cxx-client/core/collections_component.cxx:343-464 | in any run each accepted request is in exactly one of queue, retry timer, dispatcher, callback, refusal or the dropped ones, plus once for each time its lookup could not be sent, minus once if it was forgotten, which never happens as written |
| CollectionsResults.WaitersHaveSomethingToWaitFor | vendors/couchbase-cxx-client/core/collections_component.cxx:210-247 | a non-empty queue of a key that no other lookup has set belongs to the cached entry, with a lookup in flight or, if remove() works, a retry scheduled; or a lookup of it could not be sent and the next request asks again |
| CollectionsResults.QueuesStayWithinLimit | vendors/couchbase-cxx-client/core/collections_component.cxx:391-393 | no queue grows past the limit, in any run |
| CollectionsResults.SuccessSendsWaitersInOrder | vendors/couchbase-cxx-client/core/collections_component.cxx:438-456 | a successful lookup, in whatever state, sends all waiters that can take an id, in the order in which they came and with the same id, and empties the queue |
| CollectionsConservation.DispatchPlaces | vendors/couchbase-cxx-client/core/collections_component.cxx:387-464 | a dispatch puts its request into one place, and into two exactly if its lookup cannot be sent |
| CollectionsConservation.FailurePlaces | vendors/couchbase-cxx-client/core/collections_component.cxx:401-436 | a failed lookup moves the waiters without loss, except that with a working remove() a request without both names is forgotten |
| CollectionsConservation.EveryWaiterLeaves | vendors/couchbase-cxx-client/core/collections_component.cxx:446-456 | draining after a success sends or drops each waiter exactly once |
| CollectionsAsWritten.NothingIsEverRetried | vendors/couchbase-cxx-client/core/collections_component.cxx:411-415 | as written, no run whatsoever schedules a retry for a missing collection |
| CollectionsAsWritten.NotFoundRetriesExactlyWhen | vendors/couchbase-cxx-client/core/collections_component.cxx:402-435 | the exact condition for the retry, and what happens to the other waiters in both cases |
| CollectionsAsWritten.SuccessSettlesExactlyWhenNamed | vendors/couchbase-cxx-client/core/collections_component.cxx:438-456 | in any component, a successful lookup settles its pending entry, and the waiters carry its answer, if and only if the request that asked has both names; otherwise they carry the pending sentinel and the entry is left pending |
| CollectionsAsWritten.StrandedForGood | vendors/couchbase-cxx-client/core/collections_component.cxx:210-247 | who waits in an entry that is left so is neither sent on nor called back by any run in which no other lookup sets that key |
| CollectionsAsWritten.SecondUnnamedRequestIsStranded | vendors/couchbase-cxx-client/core/collections_component.cxx:315-332 | two requests without the same name, from the empty component: the first leaves with the sentinel, the second waits in such an entry |
| CollectionsAsWritten.RefusedAndQueuedExactlyWhen | vendors/couchbase-cxx-client/core/collections_component.cxx:458-463 | dispatch reports a failure and keeps the request queued if and only if the lookup cannot be sent |
| CollectionsAsWritten.FirstRequestCanBeRefusedAndQueued | vendors/couchbase-cxx-client/core/collections_component.cxx:458-463 | so for the first request of a collection whose lookup the dispatcher does not take |
| CollectionsAsWritten.KeysAreDistinctWithoutDots | vendors/couchbase-cxx-client/core/collections_component.cxx:67-71 | with dot-free scope names two collections share an entry only if they are the same |
| CollectionsAsWritten.KeyIsSharedExactlyWhenDotted | vendors/couchbase-cxx-client/core/collections_component.cxx:67-71 | a collection shares its key with some other one if and only if one of its names has a dot |
| BucketConfig.DiffNodes | vendors/couchbase-cxx-client/core/bucket.cxx:656-678 | exactly the nodes whose endpoint the other list does not have |
| BucketConfig.NodesChanged | vendors/couchbase-cxx-client/core/bucket.cxx:728-744 | a rebuild is due if and only if there was no configuration, the sets of endpoints differ, or the sequences of default addresses do |
| BucketConfig.DefaultNetworkMissesNothing | vendors/couchbase-cxx-client/core/topology/configuration.hxx:65-70 | on the default network unchanged nodes have unchanged endpoints |
| BucketConfig.AlternateNetworkMissesASwap | vendors/couchbase-cxx-client/core/topology/configuration.cxx:85-97 | on an alternate network two nodes can trade endpoints without being seen |
| BucketConfig.OlderIsLexicographic | vendors/couchbase-cxx-client/core/topology/configuration.hxx:112-115 | one configuration is older than another if and only if its epoch and revision come first lexicographically, a missing number before all others |
| BucketConfig.ReplacedExactlyWhen | vendors/couchbase-cxx-client/core/bucket.cxx:686-726 | what the bucket holds is replaced by the next arrival exactly as the partition map, the force flag, the two epochs and then the two revisions say |
| BucketConfig.NewestSinceForcedWins | vendors/couchbase-cxx-client/core/bucket.cxx:686-726 | whatever configurations arrive, forced ones and ones without a partition map included, the bucket ends with the first of those with the lexicographically greatest epoch and revision since the last forced one, and with none if and only if none is usable |
| BucketConfig.SlotsReachNodes | vendors/couchbase-cxx-client/core/topology/configuration.cxx:85-140 | the slots are for exactly the endpoints where some node is reached on the network of the bucket, with TLS or without |
| BucketSessions.Bucket.UpdateConfig | vendors/couchbase-cxx-client/core/bucket.cxx:680-846 | a refused configuration changes nothing; an accepted one is stored, told to the listeners, and rebuilds the sessions exactly if the nodes changed |
| BucketSessionRuns.ConfigIsSettled | vendors/couchbase-cxx-client/core/bucket.cxx:680-726 | in any run of updates, removals and restarts the bucket holds what the contest of the arrivals has come to |
| BucketSessions.Bucket.RebuildSessions | vendors/couchbase-cxx-client/core/bucket.cxx:756-844 | slots are exactly 0 to K-1, slot i has the endpoint of the i-th key-value node, the old sessions split exactly into preserved and stopped ones, and a session is new, with an id of its own and not yet usable, only if none was left for its endpoint |
| BucketSessions.KeptExactlyWhenThere | vendors/couchbase-cxx-client/core/bucket.cxx:769-787 | with distinct endpoints, a slot keeps an old session if and only if there was one for its endpoint |
| BucketSessions.NoRebuildMatchesExactlyWhen | vendors/couchbase-cxx-client/core/bucket.cxx:728-756 | without a rebuild matching sessions still match if and only if the endpoints are the same in the same order, which the default network guarantees |
| BucketSessions.Bucket.RestartSessions | vendors/couchbase-cxx-client/core/bucket.cxx:356-447 | the loop computes the step-by-step repair function |
| BucketSessions.Bucket.RemoveSession | vendors/couchbase-cxx-client/core/bucket.cxx:449-473 | every session with the id goes, the others stay, and a restart follows if there was one |
| BucketSessions.FindIf | vendors/couchbase-cxx-client/core/bucket.cxx:374-378 | the first session of an endpoint in the order of the slots |
| BucketRestart.RestartRepairsExactlyWhen | vendors/couchbase-cxx-client/core/bucket.cxx:356-447 | every session map is repaired if and only if no node without a key-value port precedes one with it and the endpoints are distinct |
| BucketRestart.RestartFills | vendors/couchbase-cxx-client/core/bucket.cxx:363-446 | for such nodes slot i ends with the endpoint of node i |
| BucketRestart.RestartFromEmptyFails | vendors/couchbase-cxx-client/core/bucket.cxx:444-445 | for other nodes some slot stays empty, starting without sessions |
| BucketRestart.RestartRefillsExactlyWhen | vendors/couchbase-cxx-client/core/bucket.cxx:356-447 | sessions that are all where they belong match after the restart if and only if no node without a key-value port comes before that of an empty slot; then none of them moves |
| BucketRestart.RemovalIsRepairedExactlyWhen | vendors/couchbase-cxx-client/core/bucket.cxx:356-473 | a matching map from which any id is removed matches again after the restart, with every other session in its slot, if and only if no node without a key-value port comes before the one whose session was removed |
| BucketRestart.AlignedRestartLosesExactlyWhen | vendors/couchbase-cxx-client/core/bucket.cxx:444-445 | whatever the nodes, the restart loses the session of a slot if and only if the slot is reached from an empty one by going from a slot to the index of its node; the others stay in their slots |
| BucketRestart.RestartCanLoseALiveSession | vendors/couchbase-cxx-client/core/bucket.cxx:444-445 | from the map that a rebuild leaves: behind a node without a key-value port, removing one session makes the restart overwrite the other |
| BucketSurvivors.SurvivesRestartExactlyWhen | vendors/couchbase-cxx-client/core/bucket.cxx:356-447 | whatever the nodes and wherever the sessions are, exactly which of them survive the whole restart, said of the map it starts with |
| BucketSurvivors.LostMeansReached | vendors/couchbase-cxx-client/core/bucket.cxx:356-447 | for sessions that are where they belong that condition is the way from an empty slot |
| BucketSessionRuns.SessionsStayInTheirSlots | vendors/couchbase-cxx-client/core/bucket.cxx:356-473 | on the default network, with repairable nodes, after every sequence of updates, removals and restarts each session is in its slot, each restart fills all slots, and no session is lost but by a removal or an update that drops it |
| BucketSessionRuns.OrderlyRunLosesNothing | vendors/couchbase-cxx-client/core/bucket.cxx:356-473 | the same for any network and nodes, as long as no change of endpoints goes unseen and no restart meets an empty slot behind a node without a key-value port |
| BucketSessionRuns.RestartStaysInSlotsExactlyWhen | vendors/couchbase-cxx-client/core/bucket.cxx:356-447 | that condition on restarts is also necessary |
| BucketSessionRuns.RunIsSound | vendors/couchbase-cxx-client/core/bucket.cxx:356-846 | in any run no two sessions share an id or an endpoint, and the held, the removed and the dropped ones are disjoint |
| BucketSessionRuns.EveryRestartLosesExactlyWhen | vendors/couchbase-cxx-client/core/bucket.cxx:356-447 | in any run, exactly which sessions each restart loses |
| BucketSessionRuns.RunBehindAPortlessNode | vendors/couchbase-cxx-client/core/bucket.cxx:444-445 | a run from the first configuration on that loses a session nobody removed |
| BucketSessionRuns.RunAfterAnUnseenSwap | vendors/couchbase-cxx-client/core/bucket.cxx:728-744 | the same for nodes that all have their ports, after an update whose swap goes unseen |
| BucketSessionRuns.UnseenSwapExists | vendors/couchbase-cxx-client/core/topology/configuration.cxx:85-97 | two configurations with such a swap on every alternate network |
| BucketProbe.ConfigPoller.FetchConfig | vendors/couchbase-cxx-client/core/bucket.cxx:567-592 | the probed slots, in order, and the last usable session among them; the counter's new value |
| BucketProbe.EachSlotOnceExactlyWhen | vendors/couchbase-cxx-client/core/bucket.cxx:582-591 | every slot is probed exactly once, from any start, if and only if the counter does not overflow or the number of sessions divides 2^64 |
| BucketProbe.PollFindsUsableSession | vendors/couchbase-cxx-client/core/bucket.cxx:582-601 | then a session is found if and only if some session is usable |
| BucketProbe.LastUsableIsUsable | vendors/couchbase-cxx-client/core/bucket.cxx:584-589 | the session that is asked is the last usable one that was probed |
| BucketProbe.ProbesGoRound | vendors/couchbase-cxx-client/core/bucket.cxx:582-591 | without an overflow the slots are probed in turn from that of the counter on |
| BucketProbe.RoundsIsFirstReturn | vendors/couchbase-cxx-client/core/bucket.cxx:591-591 | the loop ends exactly after the counted rounds |
| BucketRequests.BucketRequestHandler.DirectDispatch | vendors/couchbase-cxx-client/core/bucket.cxx:197-226 | closed, not configured, no session, stopped session and good session each lead to their own place and error |
| BucketFates.DispatchedTo | vendors/couchbase-cxx-client/core/bucket.cxx:197-226 | each place a request can go to, if and only if its own condition on the bucket, the route and the granted reasons holds |
| BucketRequests.BucketRequestHandler.DirectReQueue | vendors/couchbase-cxx-client/core/bucket.cxx:228-282 | a retried request goes to a session, back to the deferred queue, to a timer or to its callback |
| BucketFates.RetriedTo | vendors/couchbase-cxx-client/core/bucket.cxx:228-282 | the same when a back-off ends, with the error for each call back |
| BucketRequests.BucketRequestHandler.ResolveResponse | vendors/couchbase-cxx-client/core/bucket.cxx:110-177 | aborted, cancelled and other responses are called back, retried for the right reason, or forgotten |
| BucketFates.ResponseIsRetriedExactlyWhen | vendors/couchbase-cxx-client/core/bucket.cxx:140-176 | for a response neither aborted nor cancelled: it is retried if and only if status, command, attribute, reason and grants say so, each status with its own reason, and called back with its error otherwise |
| BucketFates.LockedIsRetriedExactlyWhen | vendors/couchbase-cxx-client/core/bucket.cxx:152-161 | a locked document is waited for if and only if that is granted, and never by an unlock |
| BucketFates.AbortedIsTimedOut | vendors/couchbase-cxx-client/core/bucket.cxx:123-129 | an aborted request gets the unambiguous timeout if and only if it is idempotent |
| BucketFates.CancelledIsRetriedExactlyWhen | vendors/couchbase-cxx-client/core/bucket.cxx:130-139 | a cancelled request is called back, retried or forgotten, by its idempotence, the reason and the grants |
| BucketRequests.BucketRequestHandler.DrainDeferredQueue | vendors/couchbase-cxx-client/core/bucket.cxx:550-565 | the loop over the swapped-out commands computes one pass over them |
| BucketRequests.BucketRequestHandler.CloseBucket | vendors/couchbase-cxx-client/core/bucket.cxx:624-632 | closing twice is closing once, and deferred commands are drained as closed |
| BucketRequestRuns.EachRequestInOnePlace | vendors/couchbase-cxx-client/core/bucket.cxx:110-301 | over every run each accepted request is deferred, in a session, backing off, called back, refused or forgotten, exactly one of these |
| BucketRequestRuns.CallbackAtMostOnce | vendors/couchbase-cxx-client/core/bucket.cxx:110-282 | no run attempts two callbacks of one request |
| BucketRequestRuns.DrainRunsEachOnceInOrder | vendors/couchbase-cxx-client/core/bucket.cxx:550-565 | one pass runs every deferred command once, in order; those deferred again are the new queue |
| BucketRequestRuns.ForgottenExactlyWhen | vendors/couchbase-cxx-client/core/bucket.cxx:136-138 | a request is forgotten exactly if the retry of a cancelled one is refused, or a deferred one meets a stopped session and its retry is refused |
| BucketRequestRuns.CancelledCanBeForgotten | vendors/couchbase-cxx-client/core/bucket.cxx:136-138 | a run in which a request is cancelled in its session and forgotten |
| BucketRequestRuns.DeferredCanBeForgotten | vendors/couchbase-cxx-client/core/bucket.cxx:204-223 | a run in which a deferred request meets a stopped session and is forgotten |
| BucketRequestRuns.NobodyForgottenWhileGranted | vendors/couchbase-cxx-client/core/bucket.cxx:204-223 | while retries are granted no run forgets a request |
| BucketRequestRuns.ToldExactlyWhenDrained | vendors/couchbase-cxx-client/core/bucket.cxx:550-565 | a request that is deferred in a closed bucket is called back if and only if the deferred queue is drained once more; otherwise it stays there |
| BucketRequestRuns.ClosedBucketStrandsExactlyWhen | vendors/couchbase-cxx-client/core/bucket.cxx:242-247 | so for a request whose back-off ends in a closed bucket: it is deferred, and called back if and only if someone drains the queue once more |
| BucketRequestRuns.RequestCanBeStranded | vendors/couchbase-cxx-client/core/bucket.cxx:242-247 | a run that closes the bucket while a request backs off: it is deferred, and stays there through every run without a further drain |
| Base36.Encode | src/cryptography.cc:36-57 | the loop with the 32-bit accumulator writes the digits of the bit sequence |
| Base36.Decode | src/cryptography.cc:59-88 | the loop cuts the bits of the digits into bytes, up to the first character outside the alphabet |
| Base36.RoundTrip | src/cryptography.cc:36-88 | decoding the encoding of any bytes gives them back; n bytes take 8n/5 characters, rounded up |
| Base36.ShiftInTracks | src/cryptography.cc:43-44 | the wrapping accumulator keeps the pending bits |
| Base36.TakeOutTracks | src/cryptography.cc:47-50 | shift and mask take out the oldest pending bits |
| Base36.OrTracks | src/cryptography.cc:77-78 | the same for the decoder, also for the four digits that do not fit five bits |
| Base36.DecodingCuts | src/cryptography.cc:66-85 | decoding proper digits cuts their bits into bytes; what is left over gives no byte |
| Base36.KnownDigits | src/cryptography.cc:36-57 | the digits of two bytes, as the alphabet and the order of the bits have them |
| Base36.LastCharactersDisturb | src/cryptography.cc:77-77 | a digit from 32 on reads as another digit and sets the bit before it |
| Base36.IndexIsPlaceInAlphabet | src/inc/behh/constants/string_const.hh:35 | looking for a character finds its place in the alphabet, and fails if and only if it is not there |
| Base64.Encode | src/utility.cc:116-147 | the loop writes the groups of the input, with the tail tests as written or corrected |
| Base64.Decode | src/utility.cc:149-180 | the loop reads the groups of the text; a length that 4 does not divide gives nothing |
| Base64.RoundTripExactlyWhen | src/utility.cc:116-180 | as written, an input comes back if and only if it is empty or its length is 2 modulo 3; otherwise its last byte is lost or a zero byte added |
| Base64.CorrectedRoundTrip | src/utility.cc:131-143 | with the tail tests corrected every input comes back |
| Base64.EncodedLength | src/utility.cc:121-144 | four characters for every three bytes or part of three |
| Base64.GroupIsNumber | src/utility.cc:126-142 | four characters are the digits of three bytes as one number |
| Base64.PaddingShowsLength | src/utility.cc:131-143 | which characters of the last group are padding, as written and corrected |
| Base64.SextetsOfTriple | src/utility.cc:126-142 | the shifts and masks of the 24-bit word take the right six bits |
| Base64.OctetsOfQuad | src/utility.cc:168-176 | the shifts and masks of the 24-bit word give the right bytes |
| Base64.ValueIsPlaceInAlphabet | src/utility.cc:149-153 | the table has for each character of the alphabet its place there, and 0 for any other |
| ReplaceAll.Text.ReplaceAll | src/utility.cc:241-255 | success is returned if and only if the query is not empty and the result fits into a string, and the source is then its parts between the occurrences, joined by the replacement; otherwise it is done up to the position where the next replacement is too long |
| ReplaceAll.PartsOfSource | src/utility.cc:245-248 | the parts joined by the query are the source, and each occurrence is the leftmost one |
| ReplaceAll.PartsAreUnique | src/utility.cc:245-248 | only one way to cut the source has these properties |
| ReplaceAll.ReplacingByItself | src/utility.cc:246-247 | inserted text is not scanned again: the length of the result follows from the number of occurrences in the source |
| ReplaceAll.LoopEndsExactlyWhen | src/utility.cc:245-248 | without a limit on the length, the loop ends if and only if the query is not empty |
| Leb128.Decode | vendors/couchbase-cxx-client/core/utils/unsigned_leb128.hxx:51-76 | the loop computes the number at the head of the buffer, modulo 2^64, and what follows it |
| Leb128.RoundTrip | vendors/couchbase-cxx-client/core/utils/unsigned_leb128.hxx:129-145 | what is encoded is decoded, and what follows is left |
| Leb128.StandardExamples | vendors/couchbase-cxx-client/core/utils/unsigned_leb128.hxx:129-145 | the examples of section 7.6 of DWARF Version 5 |
| Leb128.CutReadsAsZero | vendors/couchbase-cxx-client/core/utils/unsigned_leb128.hxx:69-72 | a number without its last byte reads like a zero at the end of the buffer |
| RangeScanPayload.ParseRangeScanKeys | vendors/couchbase-cxx-client/core/crud_component.cxx:137-159 | the loop computes the keys and the outcome, for a handler that may cancel |
| RangeScanPayload.ParseRangeScanDocuments | vendors/couchbase-cxx-client/core/crud_component.cxx:161-220 | the loop computes the documents and the outcome |
| RangeScanPayload.ParseDocument | vendors/couchbase-cxx-client/core/crud_component.cxx:176-215 | one document: header, key, value, decompression; the rest of the payload is strictly shorter |
| RangeScanPayloadLaws.KeysRoundTrip | vendors/couchbase-cxx-client/core/crud_component.cxx:137-159 | parsing written keys gives exactly these keys |
| RangeScanPayloadLaws.DocumentsRoundTrip | vendors/couchbase-cxx-client/core/crud_component.cxx:161-220 | parsing written documents gives one for each, in order: with its value decompressed and 2 taken off its datatype if that is 2 or 3 modulo 4 and the value can be decompressed, and unchanged otherwise |
| RangeScanPayloadLaws.InflatedIsHandedOut | vendors/couchbase-cxx-client/core/crud_component.cxx:203-213 | the same for one document; key, flags, expiry, sequence number and cas never change |
| RangeScanPayloadLaws.KnownKeys | vendors/couchbase-cxx-client/core/crud_component.cxx:137-159 | two keys as they are on the wire |
| RangeScanPayloadLaws.KnownDocument | vendors/couchbase-cxx-client/core/crud_component.cxx:176-215 | a document as it is on the wire, with the order and the byte order of the fields of its header |
| RangeScanPayloadLaws.CutKeys | vendors/couchbase-cxx-client/core/crud_component.cxx:146-150 | a last key cut in its bytes gives the complete ones and a protocol error; cut in its length, one empty key more and no error |
| RangeScanPayloadLaws.CutDocuments | vendors/couchbase-cxx-client/core/crud_component.cxx:176-217 | the exact outcome for a last document that is cut after any number of bytes |
| RangeScanPayloadLaws.CancelledKeysAreFirstKeys | vendors/couchbase-cxx-client/core/crud_component.cxx:143-145 | a handler that cancels with its n-th key gets the first n and no error |
| RangeScanPayloadLaws.CancelledDocumentsAreFirstDocuments | vendors/couchbase-cxx-client/core/crud_component.cxx:167-169 | the same for documents |

## Left out

- Sockets, TLS, name resolution, timers and the scheduling of tasks: they appear as steps that happen in any order.
- Waiting times between retries, and the retry strategies themselves: a step says whether the retry is granted.
- Logging, metrics and tracing.
- RangeScanOrchestrator.RangeScanOrchestrator.Scan: of the collection lookup before the scan only the error is modelled; more than 65536 vbuckets have no ids of 16 bits. The runs begin with a scan that does not throw.
- RangeScanRaces: the first loop of start_streams is modelled as `concurrency` callbacks that each start one stream, and vbuckets are counted, not told apart.
- RangeScanResults.NoStall: says nothing about cancelled scans, which start no stream any more.
- RangeScanResults.ConcurrencyBacksOff: holds for callbacks that do not overlap; AttemptsStayBounded has the bound that overlapping callbacks keep.
- The future form of next(), and the seed of the shuffle, which only selects one of the orders that are allowed here.
- OperationQueue: consumers, pop() and the signalling are not modelled.
- CollectionsResults.EachRequestInOnePlace: leaves out cancellation by a request's own deadline.
- The JSON bodies of range-scan requests: a request says whether its body parses.
- BucketSessions.Bucket.UpdateConfig: the bootstrap callback of a new session is not part of the method; it appears in BucketSessionRuns as a later removal, if it fails, or update.
- BucketSessionRuns, BucketSurvivors and the results on aligned sessions in BucketRestart leave out configurations that name one key-value endpoint twice; RestartRepairsExactlyWhen has them.
- BucketRequestRuns.CallbackAtMostOnce: leaves out persistent requests, whose callback runs once for each message, and cancellation by deadline or by the caller.
- BucketRequests.BucketRequestHandler.DrainDeferredQueue: the deferred commands are requests; the handlers of with_configuration() that share the queue are not modelled.
- The mapping of keys to vbuckets and replicas: a step says which session the route leads to.
- ReplaceAll.Text.ReplaceAll: leaves out that both strings are empty, where the loop does not end, and running out of memory below the greatest length of a string.
- Leb128.Decode: for more than ten bytes the shift exceeds the width of the word, which the language leaves undefined; the model keeps the value modulo 2^64.
- RangeScanPayload: decompression is a parameter, and a read beyond the buffer is an outcome of its own.
- The remaining codecs, hashes, ciphers, date, database, mail, barcode and image functions of the repository: they are library calls or too small to carry a property of this kind.
