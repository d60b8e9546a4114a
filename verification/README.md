# DispatchOS: a verified model of the dispatch engine

Orders are created with an outbox row, relayed to Kafka, offered to the nearest free driver under a
Redis lock, re-offered when rejected or timed out, and projected back onto the order and driver rows
and an append-only timeline. This project models those five services' state machines in Dafny and
proves what they keep. `dafny verify dfyconfig.toml` checks all of it.

## How it is built

Two granularities are used.

*Handler granularity.* `DispatchSpec` says what each handler and cron sweep does to the dispatch
service's stores: the `assignments` table, driver statuses, geo set and locks in Redis, the
`dispatch.events` log and a clock in milliseconds. `DispatchService` is the service itself, a class whose
methods work step by step with the source's loops, each proved to do what `DispatchSpec` says.
`DispatchMoves` shows that every handler, whichever emit fails, is a sequence of two kinds of move: a new
offer, or an offer settled. What a move keeps, every run keeps; `DispatchSafety`, `DispatchLog`,
`DriverLocks`, `DriverAgreement` and `Provenance` use this; `OpenOffers` follows the handlers themselves.
`DispatchOutcomes` tells what each handler leaves behind without the functions of `DispatchSpec`, as `UpdateOutcome`,
`ConsumeOutcome` and `RecordOutcome` do in the other services. `Sweeps` and `NearestDriver` describe whole
sweeps and single offers. `OrderService`, `OrderProjection`, `Outbox`, `DriverService` and `Timeline`
are the other services.

*Await granularity.* In `OfferRace`, `SettleRace`, `SettledOrders` and `OutboxWorkers` any number of handlers
interleave between their calls. `OfferRace` has the offer search alone, with any other handler changing
statuses at will; `SettleRace` adds the reads and writes of all the handlers, each of whose re-offers is a
search of `OfferRace`, and `SettledOrders` says which orders are out of danger. `SerialRuns` shows that the runs
of `DispatchSpec` are among these interleavings.

Conventions: ids are numbers, because UUIDs are only compared (the timeline keeps them as strings, because
it concatenates them). A row's id is its position. Absent and empty message fields are `None`. What the
services cannot see into is a parameter: Redis's reply to GEOSEARCH, whether each emit succeeds, the
order in which the database lists rows, the date parser and the handling time. A Redis key with a
time to live is taken to exist up to and including its last millisecond; an offer is expired strictly
after `expiresAt`, as the query says. `Env.search` replies to the same geo set, place and radius alike;
only `NearestDriver` assumes that a reply is right, and every other result holds for any replies.

## Where the code and its documentation part

The model follows the code.

- README.md, matching policy 3, says one offer at a time per driver. The lock does not give that:
  `OpenOffers.OneDriverTwoOpenOffers` is a run of the handlers in which one driver gets two open offers in
  the same instant, because `releaseLock` deletes a lock whoever owns it.
  `OpenOffers.OffersKeepOneOpenIff` says in exactly which states the next offer cannot do that,
  `OpenOffers.RunKeepsOneOpenOffer` that a run making its offers in such states never does,
  `DriverLocks.SweepOnlyFreesForeignLocks` that any live lock the timeout sweep deletes is another order's,
  and `DriverAgreement.NoDriverServesTwoOrders` that prompt event handling is enough.
- Confirm, reject, complete and cancel update a row by id without looking at its status again, and a
  rejection or a timeout is followed by a re-offer that does not look at the order's rows again. Overlapping
  handlers can therefore give one order to two drivers: `SettledOrders.LateConfirmGivesTwoDrivers`,
  `SettledOrders.PunctualConfirmIsOvertaken` and `SettledOrders.DoubleRejectionGivesTwoOffers` do so from
  any state in which an open offer is its order's only active row. `SettleRace.InterleavingKeepsOrderIff` says which interleavings do not,
  `SettleRace.OneAtATimeIsOrderly` that handling each order one handler at a time is enough, and
  `SettledOrders.CertainExactlyWhenHeld` which orders are safe whatever is under way or still to come.
- README.md's troubleshooting advises drivers to come online when orders are stuck in PENDING_DISPATCH. An order
  for which order.created found no driver has no assignment row, and the retry sweep looks at rows only:
  `DispatchSafety.UnofferedOrderIsForgotten`.
- An outbox row marked PROCESSED can go back to PENDING when relay workers overlap
  (`OutboxWorkers.DeliveredRowCanBePendingAgain`); `OutboxWorkers.ProcessedIsFinalIffQuiet` says exactly when it cannot.
- The timeout sweep deletes the lock of each driver it times out, after earlier orders in its list may have passed
  that driver over as locked. `Sweeps.SweepSettlesExpiredOffers` says that this is the only way an order can be left
  without a driver it could have, `Sweeps.FreedDriverIsMissed` that it happens, and
  `Sweeps.SweepIsMaximalWhenRedisFollows` that it cannot while Redis shows none of those drivers AVAILABLE.
- README.md says the outbox publishes `order.created` reliably. The relay gives a row up after six failures:
  `Outbox.OrderCanBeLost` is a run that loses the message, and `Outbox.MessageIsLostIff` says a settled row's
  message is lost exactly when all six of its tries failed to send it.
- A timeline key for a driver's action does not name the driver, so one kind of action on one order at one
  timestamp is recorded once, whoever acted (`Timeline.KeysCollideIffSameFact`).

## Model

| member | source | states |
|---|---|---|
| OfferRace.ConcurrentOffersNeverRepeat | apps/dispatch/src/dispatch.service.ts:254-333 | however any number of offer searches interleave, with adversarial candidates, statuses and locks, an order's attempts are exactly 1 to n, no driver appears twice, and there are at most as many rows as drivers |
| OfferRace.FreeAttemptMeansFreshDriver | apps/dispatch/src/dispatch.service.ts:259-272 | a search that passes the unique index read its tried drivers after the last row of the order, because the attempt is read first, so its driver is new to the order |
| OfferRace.NextIsSafe | apps/dispatch/prisma/schema.prisma:32 | every step of every search keeps the numbering, the distinct drivers, and that a search is either stale or up to date |
| DispatchMoves.StepMoves | apps/dispatch/src/dispatch.service.ts:61-252 | every handler and sweep, whichever emit fails, is a sequence of legal offers and settlements, and only order.created starts an order, at its own pickup |
| DispatchMoves.InsertWrites | apps/dispatch/src/dispatch.service.ts:296-332 | an offer adds exactly its row with the next attempt and a deadline in 30 seconds, the unique-violation branch is never taken, and it throws exactly when its emit fails |
| DispatchOutcomes.OfferOutcome | apps/dispatch/src/dispatch.service.ts:254-338 | told by the stores alone: the first candidate whom Redis shows AVAILABLE and unlocked and whom the order has not had gets the next attempt for 30 seconds, with the lock and the message, or, when the emit fails, the row without either and an exception; without such a candidate nothing changes |
| DispatchOutcomes.OrderCreatedOutcome | apps/dispatch/src/dispatch.service.ts:61-79 | an order without a row is offered at the place the message names; a malformed message and an order with a row change nothing |
| DispatchOutcomes.DriverEventOutcome | apps/dispatch/src/dispatch.service.ts:81-252 | told by the stores alone: the row that awaits the event gets its status, the lock goes unless the driver accepted, the right message is sent, a rejected order is offered again at the row's pickup; without such a row, with a field missing or for a mere change of status nothing changes |
| DispatchOutcomes.TimeOutOutcome | apps/dispatch/src/dispatch.service.ts:115-140 | a turn of the timeout sweep on a row still offered times it out, deletes the driver's lock, announces it and, if that went out, offers the order again; on any other row it does nothing |
| DispatchOutcomes.HandlersThrowIffEmitFails | apps/dispatch/src/dispatch.service.ts:61-252 | each handler and sweep throws if and only if one of its emits failed, which is then its last, and all the others are in the log |
| DispatchSafety.OneActiveAssignmentPerOrder | apps/dispatch/src/dispatch.service.ts:61-338 | in every reachable state attempts are 1 to n, drivers distinct, all but the newest row rejected or timed out, so at most one row of an order is active; also when an emit throws midway |
| DispatchSafety.FinalOrdersNeverChange | apps/dispatch/src/dispatch.service.ts:231-252 | after an order is completed or cancelled no run adds or changes a row of it |
| DispatchSafety.RedeliveryChangesNothing | apps/dispatch/src/dispatch.service.ts:70-76 | order.created delivered again, at any later time, does nothing once the order had an offer |
| DispatchSafety.UnofferedOrderIsForgotten | apps/dispatch/src/dispatch.service.ts:340-401 | an order without a row gets none in any run without an order.created of its own, whatever drivers come online |
| DispatchSafety.DriverEventSettlesItsRow | apps/dispatch/src/dispatch.service.ts:81-104 | a driver's event settles the one row of that order and driver awaiting it and no other, only a rejection adds a row, for the same order and another driver, and without such a row nothing happens |
| DispatchSafety.RedispatchEnds | apps/dispatch/src/dispatch.service.ts:106-208 | over any run an order gets at most one offer per driver, and once every driver was tried an offer changes nothing |
| DispatchSafety.OfferUsesOneDriver | apps/dispatch/src/dispatch.service.ts:266-278 | drivers minus rows of the order falls by one with each offer and stays non-negative; other orders are untouched |
| DispatchSafety.OfferIsOneSearch | apps/dispatch/src/dispatch.service.ts:254-338 | a handler's offer is one search of the interleaved model run without interruption |
| AssignmentTable.OneActiveRow | apps/dispatch/src/dispatch.service.ts:368-373 | two rows of one order with blocking statuses are the same row, the newest |
| DispatchLog.RunLogMatches | apps/dispatch/src/dispatch.service.ts:494-510 | with successful emits the events of each order are exactly, in order and content, what its rows call for |
| DispatchLog.OrderLogIsWellFormed | apps/dispatch/src/dispatch.service.ts:115-252 | an independent reader accepts every order's log: OFFERED(i), maybe TIMEOUT(i), for i = 1 to n, then maybe CONFIRMED(n), then maybe COMPLETED(n) or CANCELLED(n), about the right row and driver; it ends where the newest row is |
| DispatchLog.EventCountsMatchRows | apps/dispatch/src/dispatch.service.ts:115-252 | each kind of event was published exactly once per row whose status calls for it |
| DriverLocks.OffersAreSeparatedByRelease | apps/dispatch/src/dispatch.service.ts:285-294 | two offers to one driver at most 30 seconds apart have a release of the lock between them, and every lock guards an open or accepted offer with the same deadline |
| DriverLocks.SweepOnlyFreesForeignLocks | apps/dispatch/src/dispatch.service.ts:107-124 | an expired offer's own lock has lapsed, so a live lock the sweep deletes guards another order's offer |
| OpenOffers.OffersKeepOneOpenIff | apps/dispatch/src/dispatch.service.ts:274-294 | whatever order asks and whatever Redis replies, the next offer keeps one open offer per driver if and only if every driver with an open offer is not AVAILABLE in Redis or is locked |
| OpenOffers.RunKeepsOneOpenOffer | apps/dispatch/src/dispatch.service.ts:61-208 | one open offer per driver holds through any run of handlers and sweeps whose offers are all made in such states, whichever emits fail |
| OpenOffers.OneDriverTwoOpenOffers | apps/dispatch/src/dispatch.service.ts:486-488 | a concrete run in which one driver gets two open offers in the same instant |
| NearestDriver.TwoSearchesAreOne | apps/dispatch/src/dispatch.service.ts:430-448 | on one geo set the two-phase candidate list is one valid reply of the wide search, without duplicates, however ties fall |
| NearestDriver.CandidatesAcrossChange | apps/dispatch/src/dispatch.service.ts:434-448 | when the geo set changes between the searches there are still no duplicates, drivers found within 5 km come first, both parts are nearest first, and nobody in the wide range is missed |
| NearestDriver.OfferGoesToNearest | apps/dispatch/src/dispatch.service.ts:274-319 | the offer goes to a driver at minimal distance among those in range, untried, AVAILABLE and unlocked, and nothing happens exactly when there is none |
| Sweeps.SweepSettlesExpiredOffers | apps/dispatch/src/dispatch.service.ts:106-141 | whichever emits fail, a timeout sweep times out the first of its expired rows as listed, all of them unless it throws, and no other old row changes; each is announced exactly once, save perhaps the last when the sweep throws; the order of each row announced got a new offer at the row's pickup, or every candidate is even now tried, unavailable, locked, or a driver whose lock a later turn deleted; their orders gained at most one row each and no others gained any; and what is then expired is exactly the rest |
| Sweeps.SweepIsMaximalWhenRedisFollows | apps/dispatch/src/dispatch.service.ts:106-141 | while Redis shows none of the timed-out drivers AVAILABLE, each order announced got an offer at its pickup or every candidate is tried, unavailable or locked even now |
| Sweeps.FreedDriverIsMissed | apps/dispatch/src/dispatch.service.ts:124 | a concrete sweep that leaves an order without an offer although a candidate, whose lock it deleted later, is untried, AVAILABLE and unlocked at its end |
| Sweeps.RetryCheckIsRedundant | apps/dispatch/src/dispatch.service.ts:145-164 | the retry sweep reaches the same state and log without its check for an untried available driver, for every list of orders |
| Sweeps.RetrySweepIsMaximal | apps/dispatch/src/dispatch.service.ts:145-164 | whichever emits fail, the retry sweep serves its list from the front, to the end unless it throws; each order served got an offer, or all its candidates are tried, unavailable or locked even now |
| Sweeps.ListingOrderIsImmaterial | apps/dispatch/src/dispatch.service.ts:340-348 | the orders to retry do not depend on the order in which the database lists the table |
| SettleRace.AttemptsAndDriversSurvive | apps/dispatch/src/dispatch.service.ts:106-338 | with all handlers and searches interleaved, attempts stay 1 to n and an order's drivers distinct |
| SettleRace.ActKeepsOrderIff | apps/dispatch/src/dispatch.service.ts:166-208 | one act of any handler keeps all rows of an order but its newest closed if and only if it is neither an open status written on a row no longer the newest nor an insert, let through by the unique index, beside an open row |
| SettleRace.InterleavingKeepsOrderIff | apps/dispatch/src/dispatch.service.ts:106-338 | every order has at most one open row throughout an interleaving if and only if it has no such act |
| SettleRace.OneAtATimeIsOrderly | apps/dispatch/src/dispatch.service.ts:106-338 | from the empty world, or any other in which held rows still await their handlers and orders being offered are free, that holds of every interleaving in which each order has at most one handler or search under way at a time |
| SettledOrders.CertainExactlyWhenHeld | apps/dispatch/src/dispatch.service.ts:106-338 | whatever is under way and whatever arrives later, an order is certain to have at most one active assignment if and only if a driver holds or has finished it, only writes of that row's acceptance or end are under way for it, and any search under way for it has an attempt number already taken |
| SettledOrders.ReachableWorldIsCertainExactlyWhenHeld | apps/dispatch/src/dispatch.service.ts:106-338 | the same of every world that some interleaving reaches from nothing |
| SerialRuns.SerialRunIsAnInterleaving | apps/dispatch/src/dispatch.service.ts:61-338 | every table that a run of whole handlers and sweeps makes, some interleaving of their calls makes |
| SettledOrders.LateConfirmGivesTwoDrivers | apps/dispatch/src/dispatch.service.ts:166-175 | from any world where an open offer is its order's only active row: an acceptance written after the timeout's re-offer leaves one order with two drivers |
| SettledOrders.PunctualConfirmIsOvertaken | apps/dispatch/src/dispatch.service.ts:116-139 | from any world where an open offer is its order's only active row: an acceptance read before the timeout and written while its row is still the newest is followed by the timeout's re-offer, and two drivers have the order |
| SettledOrders.DoubleRejectionGivesTwoOffers | apps/dispatch/src/dispatch.service.ts:189-208 | from any world where an open offer is its order's only active row: two deliveries of one rejection both find the row and both re-offer, and the order has two open offers |
| DispatchService.DispatchService.GatherByOrder | apps/dispatch/src/dispatch.service.ts:350-366 | the map-building loop has each order with a row exactly once, with all the statuses of its rows, no others, and a pickup of one of them |
| DispatchService.DispatchService.FindOrdersNeedingRetry | apps/dispatch/src/dispatch.service.ts:340-401 | returns, each once and with a pickup of its own, exactly the orders that have a row and whose rows are all rejected or timed out |
| DispatchService.RetriableByStatuses | apps/dispatch/src/dispatch.service.ts:368-392 | the blocking and retriable sets split the six statuses, so the two tests together say that all rows are rejected or timed out |
| DispatchService.DispatchService.HasUntriedAvailableDriver | apps/dispatch/src/dispatch.service.ts:403-428 | true exactly when some candidate is untried and AVAILABLE |
| DispatchService.DispatchService.FindCandidateDriverIds | apps/dispatch/src/dispatch.service.ts:434-448 | the filtering loop gives the narrow reply followed by the rest of the wide one |
| DispatchService.DispatchService.OfferToNearbyDriver | apps/dispatch/src/dispatch.service.ts:254-338 | the candidate loop with its skips, lock, insert, emit and catch has the outcome that DispatchOutcomes.OfferOutcome tells |
| DispatchService.DispatchService.HandleOrderCreated | apps/dispatch/src/dispatch.service.ts:61-79 | the outcome that DispatchOutcomes.OrderCreatedOutcome tells |
| DispatchService.DispatchService.HandleDriverEvent | apps/dispatch/src/dispatch.service.ts:81-252 | confirm, reject, complete and cancel, failing emits included, have the outcome that DispatchOutcomes.DriverEventOutcome tells |
| DispatchService.DispatchService.HandleExpiredOffers | apps/dispatch/src/dispatch.service.ts:106-141 | the timeout loop over any listing of the expired rows, ended by a failed emit, has the outcome that Sweeps.SweepSettlesExpiredOffers and, turn by turn, DispatchOutcomes.TimeOutOutcome tell |
| DispatchService.DispatchService.RetryPendingOrders | apps/dispatch/src/dispatch.service.ts:143-164 | the retry loop over any listing of the table has the outcome that Sweeps.RetrySweepIsMaximal characterises |
| OrderService.OrderService.Create | apps/order/src/order.service.ts:42-93 | the request's order and its outbox row, with the same id, merchant, client id and place, and the notification appear together, or on a clash nothing changes |
| OrderService.OrderService.HandleDispatchEvent | apps/order/src/order.service.ts:117-150 | the outcome that OrderService.ConsumeOutcome tells |
| OrderService.ConsumeOutcome | apps/order/src/order.service.ts:117-166 | an offer, confirmation, completion or cancellation sets the status of the order it names and the driver if it names one; everything else of that order and every other order stays, as does everything after any other message |
| OrderProjection.LastMessageDecides | apps/order/src/order.service.ts:117-166 | a reader that never skips forward but may go back any number of times ends with what the order's last relevant message says, as soon as it is past it |
| OrderProjection.OrdersFollowDispatch | apps/order/src/order.service.ts:117-166 | once the log is read to its end the order shows exactly its newest assignment's status and driver, whatever was re-read |
| Outbox.OutboxRelayService.ProcessSingleEvent | apps/order/src/outbox-relay.service.ts:44-82 | the stores after one try in all three ways it can end, which Outbox.SerialRelayIsBounded accounts for |
| Outbox.OutboxRelayService.HandleCronFallback | apps/order/src/outbox-relay.service.ts:27-42 | the loop over the 50 oldest pending rows is the sweep of Outbox.PendingRowIsSettled |
| Outbox.BatchIsOldest | apps/order/src/outbox-relay.service.ts:29-36 | a batch has at most 50 pending rows, oldest first, and leaves a pending row out only for 50 older ones |
| Outbox.SweepTriesBatch | apps/order/src/outbox-relay.service.ts:22-42 | a sweep tries each row of its batch once, in that order, and no other; the in-process event tries its own row if that is pending |
| Outbox.PendingRowIsSettled | apps/order/src/outbox-relay.service.ts:27-82 | a pending row with k older pending rows is settled within 6 * (k / 50 + 1) sweeps, whatever fails and whatever else is enqueued or notified meanwhile |
| Outbox.SixSweepsClearABatch | apps/order/src/outbox-relay.service.ts:29-36 | six sweeps settle the 50 oldest pending rows, so every later row moves up by at least 50 |
| Outbox.SerialRelayIsBounded | apps/order/src/outbox-relay.service.ts:44-82 | serially a row is PROCESSED if and only if one of its tries was delivered, which is then its last, FAILED if and only if it had six tries and none was, and leaves neither; it is published at most six times, and the topic holds the messages of the rows sent, in order, and no others |
| Outbox.MessageIsLostIff | apps/order/src/outbox-relay.service.ts:53-81 | the topic lacks the message of a settled row, which no other row carries, if and only if the row had six tries and none of them sent it |
| Outbox.RowIsLostIff | apps/order/src/outbox-relay.service.ts:53-81 | the same told by the row, whatever other rows carry |
| Outbox.SilenceLosesOrder | apps/order/src/outbox-relay.service.ts:68-80 | while nothing can be sent, six sweeps give an order's row up with nothing published, whatever else is enqueued or notified |
| Outbox.OrderCanBeLost | apps/order/src/outbox-relay.service.ts:68-80 | a concrete run that loses an order's message |
| OutboxWorkers.ConcurrentRelayIsSound | apps/order/src/outbox-relay.service.ts:44-82 | in every interleaving of workers PROCESSED implies published and FAILED implies six failures |
| OutboxWorkers.UninterruptedTryIsProcess | apps/order/src/outbox-relay.service.ts:44-82 | one worker's calls on a row, uninterrupted, do what the serial relay does, in all three ways a try can end |
| OutboxWorkers.ProcessedIsFinalIffQuiet | apps/order/src/outbox-relay.service.ts:68-80 | a PROCESSED row is certain to stay so if and only if no worker still holds it |
| OutboxWorkers.DeliveredRowCanBePendingAgain | apps/order/src/outbox-relay.service.ts:74-80 | a reachable interleaving that marks a row PROCESSED and then puts it back to PENDING |
| Timeline.TrackingService.RecordEvent | apps/tracking/src/tracking.service.ts:31-66 | the outcome that Timeline.RecordOutcome tells |
| Timeline.RecordOutcome | apps/tracking/src/tracking.service.ts:31-99 | told by the message's fields: one of the seven types about an order adds one row under the order and the message's key, with its type, driver, the message itself and its time, unless the key is taken; any other message changes nothing |
| Timeline.TimelineTellsMessages | apps/tracking/src/tracking.service.ts:31-66 | however a produced message was delivered, the timeline has a row at its key with its type, its driver, the message and the producer's time |
| Timeline.TimelineHoldsMessages | apps/tracking/src/tracking.service.ts:31-66 | the timeline holds exactly one entry per recordable message, made from that message alone |
| Timeline.DeliveryIsImmaterial | apps/tracking/src/tracking.service.ts:31-66 | two deliveries of the same messages, in any order, any number of times, at any time, give the same timeline |
| Timeline.KeysCollideIffSameFact | apps/tracking/src/tracking.service.ts:68-86 | two messages of the system's producers share a key if and only if they tell the same order's creation, the same event of one assignment, or one kind of driver action on an order at one timestamp |
| DriverService.DriverService.UpdateStatus | apps/driver/src/driver.service.ts:53-120 | the reply and the stores that DriverService.UpdateOutcome tells |
| DriverService.UpdateOutcome | apps/driver/src/driver.service.ts:53-147 | told by the stores alone: an unknown driver and a completion without a place are refused and change nothing; any other update is stored even if its event fails, with the status in row and Redis, a completed order's place, the driver in the geo set at exactly the known place if AVAILABLE and out of it if OFFLINE, the event named after the action, and no other driver touched |
| DriverService.HearOutcome | apps/driver/src/driver.controller.ts:38-57 | an offer shows a known driver OFFERED and a timeout AVAILABLE in row and Redis, and nothing else changes |
| DriverService.DriverService.HandleDispatchEvents | apps/driver/src/driver.controller.ts:38-57 | the stores that DriverService.HearOutcome tells; it throws, and writes nothing, exactly when an offer or a timeout names an unknown driver |
| DriverAgreement.NoDriverServesTwoOrders | apps/driver/src/driver.controller.ts:38-57 | with prompt event handling and drivers using the panel's buttons, a driver is OFFERED exactly when an offer of theirs is open, BUSY exactly when an order is confirmed, never two at once, and the geo set holds exactly the drivers who are not offline and whose place is known, at that place |
| DriverAgreement.AnswerInStep | web/components/drivers-panel.tsx:94-129 | accept, decline, complete and cancel each keep drivers and rows in agreement, re-offers included |
| DriverAgreement.AnswerTakesEffect | web/components/drivers-panel.tsx:94-129 | accept, decline, complete and cancel give the very row its status and leave all other rows alone but for one re-offer at most |
| DriverAgreement.ShiftTakesEffect | web/components/drivers-panel.tsx:76-93 | going on line or off line shows everywhere, and who comes on line can be found at their last known place |
| DriverAgreement.DoIsDispatchRun | apps/driver/src/driver.service.ts:97-114 | each operation has dispatch do the one thing it asks, with the right driver event for each button, between changes the driver service makes in Redis |
| DriverAgreement.SweepInStep | apps/dispatch/src/dispatch.service.ts:106-164 | so do order.created and both sweeps, although the driver service hears of the sweep's offers only after it |
| Provenance.AssignmentsComeFromOrders | apps/order/src/order.service.ts:44-77 | through outbox, relay, topic, redelivery and every re-offer, each assignment is for an existing order at that order's pickup, and each order has exactly one outbox row |
| Provenance.PlacedOrderCarriesRequest | apps/order/src/order.service.ts:44-77 | over every run: a request that duplicates no earlier one is stored, PENDING_DISPATCH and without a driver until an event about it is read, and the order, its one outbox row, every message of it and every assignment of it carry the request's merchant, client id and place |
| Provenance.ClientIdsAreUnique | apps/order/src/order.service.ts:82-91 | in no run do two orders share a merchant and a client id |
| Provenance.RequestReachesDispatch | apps/order/src/order.service.ts:44-93 | request to offer: with a delivered first try and its message read, dispatch makes the offer search for this order at the requested place |
| Provenance.PartsRunAsModelled | apps/order/src/order.service.ts:44-79 | within any run of the whole system the relay makes a run of `Outbox`, fed by the orders stored, and dispatch a run of `DispatchSpec`, fed by the relay's messages |

## Left out

- API gateway, web UI, module wiring, health endpoints, logging and DTO validation are plumbing; only the panel's button rules are used, in `DriverAgreement`.
- PATCH /orders/:id/status (`apps/order/src/order.service.ts:95-115`) overwrites an order at will, and is no part of the runs of `OrderProjection` and `Provenance`.
- Failing Postgres and Redis calls in dispatch and driver, and a crash between a table write and its emit, are not modelled; failing emits are. The relay's update to PROCESSED may throw, its failure update may not.
- DispatchLog.RunLogMatches, OrderProjection.OrdersFollowDispatch and DriverAgreement.NoDriverServesTwoOrders assume successful emits, because dispatch has no outbox: a lost event is lost.
- Time stands still within one handler and moves between handlers; clock skew between hosts and cron timing are not modelled.
- Geodesic distance and GEOADD rounding: distance is an arbitrary function and GEOSEARCH a reply listing the members in range, nearest first.
- SettleRace.InterleavingKeepsOrderIff: pickups play no part in it, because any search may insert any pickup there; DispatchSafety.OneActiveAssignmentPerOrder and Provenance.AssignmentsComeFromOrders have them for whole handlers. Candidates, statuses and locks are adversarial in SettleRace and SettledOrders.
- Event timestamps of dispatch and driver events, and row fields no handler reads (`createdAt`, `updatedAt`, `lastSeenAt`, `processedAt`, names).
- Kafka's partitioning: topics are sequences; `OrderProjection` reads one log and may go back in it.
- The listing queries (`findAll`, `findByOrderId`) only hand stored rows to the UI, and are not modelled.
