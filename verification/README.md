# ITMS: verified models of the ride-hailing backend

ITMS runs a ride as a conversation between services that share nothing but events: Dispatch offers
and assigns, Ride keeps the lifecycle, Payment settles, Geofence watches vehicles outside their zone,
Tracking and Fare price the trip, Auth hands out tokens, and reporting projections add everything up.
This project models the logic of those services in Dafny and proves what their protocols keep in every
run, under redelivery, crashes, interleaving and calls in any order.

A source that changes things step by step is a class here, with the source's fields and loops. Each of its
methods is proved equal to a function of the old state, and the theorems are about runs of those functions.
Where the order of awaits matters, every stretch between two awaits is a step of a transition system.

## What the files hold

Events and reporting
- `EventBus.dfy`: subscription, dispatch of a delivered message, retries with their header, dead letters; and,
  because a retry is published to the exchange, the tree of copies one publish can cause over S queues.
- `OutboxRelay.dfy`: the relay's tick, with its batch, its order and the points where it can fail.
- `Projections.dfy`: the deduplicated daily read models. `ProjectionDays.dfy`: the same figures day by day.
- `Pipeline.dfy`: all three together as one system with commits, ticks, redeliveries, retries and crashes.
  `PipelineDrains.dfy`: that it can always catch up.

Dispatch
- `ZoneSelection.dfy`, `DriverRegistry.dfy`, `ClaimStore.dfy`: the ranking and expansion of zones, the eligible
  drivers, the expiring claim key. `RegistryHistory.dfy` reads the eligible drivers off the calls.
- `Matching.dfy`: the matching service. `ClaimProtocol.dfy` interleaves its claims with Redis, timers, cancels and
  rematches. `MatchRounds.dfy` bounds the rounds and shows how a match ends. `MatchOffers.dfy` reads the offers off
  the published events, and `MatchEndings.dfy` what starts, assignments and cancels begin and end.

Ride
- `RideStateMachine.dfy` (the table), `RideService.dfy` (the service), `RideLifecycle.dfy` (what holds in every run),
  `RideTerminal.dfy` (rides that are over, and the longest rides there are), `RideEvents.dfy` (what the events say),
  `RideAnswers.dfy` (who may move a ride, and what each call writes).

Payment
- `Idempotency.dfy`, `Payments.dfy` (the service), `PaymentRuns.dfy` (runs of whole calls), `PaymentAnswers.dfy`
  (what each call writes, announces and answers), `PaymentsInterleaving.dfy` (the same calls taken apart at every await).

Geofence, trips, tokens, reports
- `Geo.dfy` and `Ring.dfy` (ray casting and distances), `ViolationDecider.dfy` (the hysteresis automaton),
  `ViolationDetector.dfy` (the detector, authorization and the admins' changes), `ViolationHistory.dfy` (authorization,
  detection and the rows read off the calls), `ViolationOverlap.dfy` (the detector taken
  apart at every await) and `ViolationOneAtATime.dfy` (how far its pings may overlap).
- `Trail.dfy` (the speed filter), `TrailSlices.dfy` (which slice each ride gets), `Fare.dfy`, `Tokens.dfy`, `Csv.dfy`.

`Wrappers.dfy`, `Sums.dfy` and `StableSort.dfy` hold what several of these need.

## Conventions

- A database transaction is one atomic step; a declared unique index is a guard that aborts it.
- Ids chosen at random are places in insertion order, or parameters; the clock, the network's answers, distances
  between GPS points and the randomness of tokens are parameters.
- JavaScript numbers are `int` or `real`; `Math.round` is floor(x + 1/2); a truth test on a string or a number is
  written out where an empty string or a zero can reach it.

## Where the code and what is written about it differ

The models follow the code. Each point is a lemma, mostly with the exact condition under which the promise holds.

- At-least-once delivery: a failed message is acked before its delayed republish. An event is stranded exactly by a crash
  while none of its copies is queued, or by the third failing run of its last copy (`Pipeline.StrandedExactlyBySuchSteps`);
  `Pipeline.CrashDuringRetryDelayLosesEvent` is such a run.
- The claim is won by the first driver only while a Redis round trip takes less than half the key's five seconds
  (`ClaimProtocol.ClaimIsSafeExactlyBelowHalfTtl`).
- A cancel stops a match for good, but for a claim that is under way: nothing looks at the match again after the key was
  set, so a cancelled ride can still be assigned, exactly under the condition of `MatchEndings.CancelIsFinalExactly`.
- docs/specs.md section 3 calls terminal rides immutable; a driver's cancel at the rematch cap skips the transition
  table and turns even a paid ride to cancelled_by_driver (`RideTerminal.TerminalIsLeftExactlyByLateCancel`). The same
  section sends a ride past the cap to no_driver_found; the code cancels it as the driver's.
- The fare and distance that ride.completed told stay the ride's exactly until a fare.calculated tells others
  (`RideEvents.ChargeLastsExactlyWithoutOtherFare`); the code accepts one in any state.
- docs/specs.md section 8.2 makes a replayed callback a no-op. It is one, whatever else was called before it, exactly under
  the condition of `PaymentRuns.ReplayIsNoOpExactlyWhen`. Otherwise a replayed failure can fail another attempt
  (`ReplayedFailureFailsAnotherAttempt`) and a replayed success settle a later one (`ReplayedSuccessSettlesLaterAttempt`).
- One success a ride is announced once while calls do not overlap; a stale save can undo a success and lead to a
  second charge (`PaymentsInterleaving.RideIsChargedTwice`), and only that can (`BalancedExactlyWithoutOverwrites`).
- Points exactly on an edge are not all inside: no ring but the empty one has even all its vertices inside
  (`Geo.BoundaryIsInsideExactlyIfEmpty`); the test answers for the points just to the right (`Geo.AnswersForTheRight`).
- The speed filter caps a trail exactly when no two consecutive fixes share a time (`Trail.CapHoldsExactlyForStrictTimes`).
- A receipt does not itemize the top-up to the minimum fare (`Fare.ReceiptMissesTheMinimumTopUp`,
  `Fare.MinimumFareReceiptDoesNotAddUp`).
- CSV headers are not escaped, so the report reads back exactly when they need no escaping (`Csv.RoundTrip`).
- The detector keeps one open violation a vehicle, and closes each once, in every run exactly if the bus hands it one
  message at a time (`ViolationOneAtATime.OneOpenExactlyOneAtATime`, `ClosedOnceExactlyOneAtATime`); the bus hands it twenty.
  Within a run it is the openings made while one is open or being opened, and the rows read while one is closing, that
  break it (`ViolationOverlap.SingleExactlyWithoutBlindOpens`, `ClosedOnceExactlyWithoutDoubleReads`).

## Model

| member | source | states |
|---|---|---|
| EventBus.EventBusService.Subscribe | libs/events/src/event-bus.service.ts:90-104 | registers handler and bindings; however often it is called, the queue has one consumer |
| EventBus.EventBusService.Consume | libs/events/src/event-bus.service.ts:106-148 | acks, dead-letters or republishes as the first registration for the key, the outcome and the attempts header demand |
| EventBus.EarliestRegistrationAnswers | libs/events/src/event-bus.service.ts:109 | the earliest registration that lists the key gets the message |
| EventBus.DispositionsByAttempt | libs/events/src/event-bus.service.ts:109-146 | unlisted and handled messages are acked; the first two failures are republished after 500 and 1000 ms, counted in the header; the third and any later one is dead-lettered |
| EventBus.AfterRunIsDispose | libs/events/src/event-bus.service.ts:117-146 | the statuses of the copy tree are the consume callback's decisions, header and delay included |
| EventBus.DeadLetterEndsThreeFailures | libs/events/src/event-bus.service.ts:117-147 | a copy is dead-lettered only at the end of three failed runs, each a republish of the one before |
| EventBus.HandlerRunsAreBounded | libs/events/src/event-bus.service.ts:139-146 | one publish to S queues causes at most S + S^2 + S^3 handler runs, in every order of deliveries and timers |
| EventBus.BoundIsMetWhenAllFail | libs/events/src/event-bus.service.ts:139-146 | if every run fails, draining takes exactly that many |
| EventBus.StepsAreBounded | libs/events/src/event-bus.service.ts:128-146 | the broker takes boundedly many steps in all |
| EventBus.UnfinishedCopiesCanMove | libs/events/src/event-bus.service.ts:106-148 | while a copy is neither acked nor dead-lettered some step makes progress |
| EventBus.EveryCopyEnds | libs/events/src/event-bus.service.ts:106-148 | no run takes more than boundedly many steps, and a run no step can extend is exactly one that left every copy acked or dead-lettered |
| EventBus.RetryReachesEveryQueue | libs/events/src/event-bus.service.ts:141-146 | a retry puts a copy into every bound queue |
| OutboxRelay.OutboxRelayService.Tick | libs/events/src/outbox-relay.service.ts:39-69 | an overlapping tick does nothing; any other leaves the table and the published list that TickMarksExactly and TickMarksOldest describe |
| OutboxRelay.OutboxRelayService.Relay | libs/events/src/outbox-relay.service.ts:49-60 | the loop: publish, then mark, giving up at the first error |
| OutboxRelay.TickSendsOldestFirst | libs/events/src/outbox-relay.service.ts:44-48 | nothing left unsent is older than anything sent |
| OutboxRelay.TickMarksOnlyPublished | libs/events/src/outbox-relay.service.ts:49-60 | marked rows were published; an undisturbed tick clears a backlog of at most one batch |
| OutboxRelay.TickMarksExactly | libs/events/src/outbox-relay.service.ts:39-69 | an undisturbed tick marks exactly the smaller of the backlog and 100, one stopped at row k the smaller of k and that; it publishes as many, one more if a save fails, and changes nothing else |
| OutboxRelay.TickMarksOldest | libs/events/src/outbox-relay.service.ts:44-60 | what a tick marks it published, each row once, and nothing it leaves unsent is older |
| OutboxRelay.TicksClearBacklog | libs/events/src/outbox-relay.service.ts:21-69 | undisturbed ticks clear a backlog a hundred rows at a time: all is sent after n of them exactly if it was at most 100 n |
| Projections.ProjectionsService.OnRideCompleted | services/admin-reporting/src/projections/projections.service.ts:73-110 | two separate transactions, the second only for a driver; a cut-short delivery leaves the first in place |
| Projections.ProjectionsService.OnRideCancelledOrExhausted | services/admin-reporting/src/projections/projections.service.ts:112-128 | one deduplicated count on the day and zone |
| Projections.ProjectionsService.OnPaymentCompleted | services/admin-reporting/src/projections/projections.service.ts:130-143 | one deduplicated count and amount on the day and method |
| Projections.ProjectionsService.OnViolationEvent | services/admin-reporting/src/projections/projections.service.ts:145-175 | one deduplicated count on the zone and day |
| Projections.ProjectionsService.Claim | services/admin-reporting/src/projections/projections.service.ts:55-67 | the processed_events insert succeeds once for each event and projection |
| Projections.HandleAddsOnce | services/admin-reporting/src/projections/projections.service.ts:49-67 | a delivery, whole or cut short, first or repeated, adds its event's worth to a figure only when it claims that projection |
| Projections.HandleClaims | services/admin-reporting/src/projections/projections.service.ts:73-175 | a delivery claims only its own event's projections, and all of them once it gets through |
| Projections.NextAverageIsMean | services/admin-reporting/src/domain/running-stats.ts:6-9 | the incremental mean is the mean of all values |
| Projections.HandleKeepsAverages | services/admin-reporting/src/projections/projections.service.ts:91-100 | every rides_daily row has avgFare x ridesCompleted = revenue, and one row for each day and zone |
| ProjectionDays.HandleAddsOnItsDay | services/admin-reporting/src/projections/projections.service.ts:73-175 | a delivery adds its event's worth to a figure of exactly the UTC day its time lies in, on its first claim, and moves no other day's |
| ProjectionDays.DayHoldsItsTime | services/admin-reporting/src/domain/date-key.ts:6-9 | a day's key is that of exactly the times from its midnight to the next, UTC |
| ProjectionDays.HandleKeepsOneRowADay | services/admin-reporting/src/projections/projections.service.ts:73-175 | each read model keeps one row for each of its keys and days |
| ProjectionDays.AbsentFieldsCountAsNothing | services/admin-reporting/src/projections/projections.service.ts:84-110 | a missing zone counts for the nil zone, a missing fare for no revenue, a missing or empty driver for no driver |
| Pipeline.TotalsAreExactlyOnce | services/admin-reporting/src/projections/projections.service.ts:49-110 | in every run each figure is the sum over the distinct events its projection processed |
| Pipeline.ProcessedEventsAndAverages | services/admin-reporting/src/projections/projections.service.ts:49-110 | whatever was processed was published; averages hold in every order of delivery |
| Pipeline.DrainedTotalsAreCommitted | libs/events/src/outbox-relay.service.ts:39-69 | once all rows are sent, the queue is drained and nothing was dead-lettered or lost, totals are the committed totals |
| Pipeline.OnlyDeadOrLostGoMissing | libs/events/src/event-bus.service.ts:128-146 | once drained, a missing event has a copy that was dead-lettered or lost in a crash |
| Pipeline.StepStrandsExactly | libs/events/src/event-bus.service.ts:128-146 | a step strands an event exactly if it is a crash while no copy of it is queued, or the third failing run of its last copy, and leaves it not fully processed |
| Pipeline.StrandedExactlyBySuchSteps | libs/events/src/event-bus.service.ts:128-146 | in every run an event is delivered or under way at all times iff no such step occurs |
| Pipeline.CrashDuringRetryDelayLosesEvent | libs/events/src/event-bus.service.ts:131-146 | a crash during the retry delay loses an event for good |
| Pipeline.TickIsARun | libs/events/src/outbox-relay.service.ts:49-66 | a relay tick, complete or stopped by a publish or a save error, marks and queues in the system exactly what the relay marks and publishes, and touches nothing else |
| Pipeline.BatchIsFresh | libs/events/src/outbox-relay.service.ts:44-48 | the batch a tick reads lists unsent rows, each once |
| PipelineDrains.ArrearsCanBePaid | libs/events/src/outbox-relay.service.ts:39-69 | whatever happened so far, unless something was dead-lettered or lost, some steps without an error bring every figure to exactly the worth of all committed events |
| ZoneSelection.RankingIsSortedPermutation | services/dispatch/src/domain/zone-selection.ts:18-22 | the ranking is a permutation of the measured zones, nearest first, ties in input order |
| ZoneSelection.ZonesRankByTrueDistance | services/dispatch/src/domain/zone-selection.ts:18-22 | ranked by the distance of Geo, every entry carries its zone's true squared distance, ascending |
| ZoneSelection.RoundTakesNearestZones | services/dispatch/src/domain/zone-selection.ts:25-33 | no zone a round leaves out is nearer than one it takes |
| ZoneSelection.RoundsAreNestedPrefixes | services/dispatch/src/domain/expansion.ts:28-30 | rounds are nested prefixes of the ranking that grow by at most one zone, of the size zoneCountForRound gives |
| DriverRegistry.DriverRegistryService.ListEligible | services/dispatch/src/registries/driver-registry.service.ts:49-59 | the loop lists the eligible drivers in iteration order |
| DriverRegistry.DriverRegistryService.SetOnlineStatus | services/dispatch/src/registries/driver-registry.service.ts:27-32 | creates or updates the driver, keeping a known vehicle when none is given |
| DriverRegistry.DriverRegistryService.SetOnRideStatus | services/dispatch/src/registries/driver-registry.service.ts:38-42 | creates or updates the driver |
| DriverRegistry.DriverRegistryService.SetVehicleZone | services/dispatch/src/registries/driver-registry.service.ts:34-36 | the vehicle's zone, nothing else |
| DriverRegistry.DriverRegistryService.SetTracker | services/dispatch/src/registries/driver-registry.service.ts:44-46 | the vehicle's tracker flag, nothing else |
| DriverRegistry.DriverRegistryService.FindAssignment | services/dispatch/src/registries/driver-registry.service.ts:62-68 | the driver's vehicle and its zone, if both are known |
| DriverRegistry.EligibleInZonesIsExact | services/dispatch/src/registries/driver-registry.service.ts:49-59 | exactly the eligible drivers are listed, each once, with the vehicle and zone an assignment would use |
| RegistryHistory.EligibleExactlyByHistory | services/dispatch/src/registries/driver-registry.service.ts:27-59 | a driver is eligible exactly if last reported online, not last on a ride, and the last reported vehicle was last paired to one of the zones and has not last lost its tracker |
| RegistryHistory.AssignmentIsLatest | services/dispatch/src/registries/driver-registry.service.ts:61-68 | an assignment names the vehicle last reported for the driver and the zone it was last paired to, and there is one exactly if there are both |
| ClaimStore.RedisClaimStore.TryClaim | services/dispatch/src/claim/claim.store.ts:33-37 | only a free key is won; the winner holds it for the whole TTL; other rides are untouched |
| ClaimStore.RedisClaimStore.Holder | services/dispatch/src/claim/claim.store.ts:39-41 | the holder of a key that has not expired |
| Matching.MatchingService.Start | services/dispatch/src/matching/matching.service.ts:58-68 | idempotent for a ride being matched; exhausts at once without zones; else runs round one |
| Matching.MatchingService.StartRound | services/dispatch/src/matching/matching.service.ts:70-98 | widens, offers, broadcasts and re-arms the timer |
| Matching.MatchingService.Timeout | services/dispatch/src/matching/matching.service.ts:100-109 | nothing for a resolved match; else the next round or exhaustion |
| Matching.MatchingService.CheckClaim | services/dispatch/src/matching/matching.service.ts:112-116 | the claim's check before its await |
| Matching.MatchingService.FinishClaim | services/dispatch/src/matching/matching.service.ts:120-140 | the claim after its await: resolve, mark on ride, publish |
| Matching.MatchingService.CancelMatch | services/dispatch/src/matching/matching.service.ts:144-147 | resolves the ride's match; what that ends is MatchEndings.CancelEndsMatch |
| Matching.MatchingService.ExhaustRide | services/dispatch/src/matching/matching.service.ts:149-160 | resolves the ride's match and publishes the exhaustion |
| Matching.MatchingService.ResolveMatch | services/dispatch/src/matching/matching.service.ts:162-166 | marks, disarms, and drops the ride's entry |
| ClaimProtocol.AssignedAtMostOnce | services/dispatch/src/matching/matching.service.ts:111-141 | with round trips under half the TTL a match publishes dispatch.assigned at most once, to a driver it offered, under any interleaving |
| ClaimProtocol.ClaimIsSafeExactlyBelowHalfTtl | services/dispatch/src/matching/matching.service.ts:117 | half the TTL is the exact limit: at or above it some run assigns twice |
| ClaimProtocol.SlowRepliesAssignTwice | services/dispatch/src/matching/matching.service.ts:117-139 | two slow replies, from any state where two drivers were offered the ride, assign it twice |
| MatchRounds.RoundsAreBounded | services/dispatch/src/matching/matching.service.ts:100-109 | in every run a match has at most max(1, maxTotalWait / offer) rounds |
| MatchRounds.TimeoutContinuesOrExhausts | services/dispatch/src/domain/expansion.ts:37-39 | a due timer of a running match starts exactly the next round, re-armed, while an offer window is left, and exhausts the ride after |
| MatchRounds.UnclaimedMatchIsExhausted | services/dispatch/src/matching/matching.service.ts:70-109 | a match neither claimed nor cancelled is exhausted within its rounds, however late its timers are and whatever interleaves, lost claims and earlier matches of the ride included |
| MatchOffers.OffersAreTheBroadcasts | services/dispatch/src/matching/matching.service.ts:71-92 | the drivers who may claim are exactly those its broadcasts listed; the broadcasts are its rounds in order, each over its zones |
| MatchOffers.BroadcastsListExactlyEligible | services/dispatch/src/matching/matching.service.ts:72-92 | every broadcast lists exactly the drivers eligible in its zones at that step, each once |
| MatchEndings.StartBroadcastsOrExhausts | services/dispatch/src/matching/matching.service.ts:58-98 | a start for a ride being matched changes nothing; any other exhausts at once without zones, else broadcasts round one of a new match with its timer set |
| MatchEndings.CheckSendsExactly | services/dispatch/src/matching/matching.service.ts:111-117 | an Accept sends a claim exactly if the ride is being matched and some broadcast of its match listed the driver |
| MatchEndings.WonReplyAssignsExactly | services/dispatch/src/matching/matching.service.ts:119-141 | a won reply announces exactly that driver with vehicle and round, and the driver is eligible nowhere from then on; without a vehicle nothing changes |
| MatchEndings.AssignmentEndsMatch | services/dispatch/src/matching/matching.service.ts:125-166 | a match that published dispatch.assigned never broadcasts again, and no ride's entry names it |
| MatchEndings.CancelEndsMatch | services/dispatch/src/matching/matching.service.ts:143-166 | in every continuation of a cancel the match never broadcasts again, no claim is sent for it and its timer announces nothing; the ride's entry is gone |
| MatchEndings.CancelIsFinalExactly | services/dispatch/src/matching/matching.service.ts:111-147 | a cancelled match is never assigned exactly if no claim on it can still win: none that holds its key, or can still set it, with its reply in time |
| MatchEndings.CancelledRideIsAssigned | services/dispatch/src/matching/matching.service.ts:117-147 | for every configuration that offers rides, a ride cancelled in mid-claim is assigned in some run |
| RideStateMachine.TerminalExactlyWithoutTransitions | services/ride/src/domain/ride-state-machine.ts:35-85 | the listed terminal states are exactly the table's rows without transitions |
| RideStateMachine.TransitionsGoDownTheRanks | services/ride/src/domain/ride-state-machine.ts:35-73 | every transition but driver cancel and payment retry goes to a later stage |
| RideService.Service.Persist | services/ride/src/rides/ride.service.ts:344-357 | one transaction: row, audit row and events, behind the transition table unless skipped, or nothing |
| RideService.Service.Request | services/ride/src/rides/ride.service.ts:50-79 | refuses a passenger whose newest ride is active; else row, two audit rows, one event |
| RideService.Service.PassengerCancels | services/ride/src/rides/ride.service.ts:81-92 | by the owner only, as the table allows |
| RideService.Service.DriverAccepts | services/ride/src/rides/ride.service.ts:131-156 | from matching, with a won claim: driver, vehicle, time |
| RideService.Service.DriverArrives | services/ride/src/rides/ride.service.ts:158-166 | by the ride's driver |
| RideService.Service.DriverStarts | services/ride/src/rides/ride.service.ts:168-186 | by the ride's driver within the proximity |
| RideService.Service.DriverEnds | services/ride/src/rides/ride.service.ts:188-216 | end time and rounded duration |
| RideService.Service.DriverReportsNoShow | services/ride/src/rides/ride.service.ts:218-238 | after arrival, the wait and within the proximity |
| RideService.Service.DriverCancels | services/ride/src/rides/ride.service.ts:240-276 | back to matching with driver and times cleared, or past the cap cancelled without the table |
| RideService.Service.HandleDispatchExhausted | services/ride/src/rides/ride.service.ts:280-290 | only from matching |
| RideService.Service.HandleFareCalculated | services/ride/src/rides/ride.service.ts:292-300 | fare columns only |
| RideService.Service.HandlePaymentCompleted | services/ride/src/rides/ride.service.ts:302-324 | a no-op on a completed ride; else completes or is refused |
| RideService.Service.HandlePaymentFailed | services/ride/src/rides/ride.service.ts:326-330 | only from pending payment |
| RideLifecycle.AuditIsOnePath | services/ride/src/rides/ride.service.ts:344-379 | a ride's audit rows are one path from null through requested and matching to its status; rematchCount counts the returns to matching and stays within the cap |
| RideLifecycle.ColumnsFollowStatus | services/ride/src/rides/ride.service.ts:131-276 | the status tells which of driver, assigned, arrived, started and ended are set, in time order; a matching ride has none |
| RideLifecycle.ActiveRowsAreBounded | services/ride/src/rides/ride.service.ts:240-330 | rows leaving null or an active state number at most 3 x cap + 8 |
| RideLifecycle.OutboxAnnouncesTheAudit | services/ride/src/rides/ride.service.ts:344-383 | the outbox is exactly what the audit rows announce, in order; a ride announces completion at most once |
| RideLifecycle.OnlyNewestRideIsActive | services/ride/src/rides/ride.service.ts:418-426 | only a passenger's newest ride can be active, so checking the newest is checking all |
| RideLifecycle.IndexesRefuseOnlyBusyDrivers | services/ride/src/migrations/1720000300000-InitRideSchema.ts:47-52 | the unique indexes refuse exactly an accept for a driver on another ride; the passenger index never fires |
| RideTerminal.TerminalIsLeftExactlyByLateCancel | services/ride/src/rides/ride.service.ts:240-257 | the audit of a ride that is over grows exactly by a cancel of its driver at the cap |
| RideTerminal.TerminalStaysTerminal | services/ride/src/rides/ride.service.ts:240-276 | a ride that is over is never active again |
| RideTerminal.BoundIsMet | services/ride/src/rides/ride.service.ts:240-330 | for every cap some run meets the bound on active rows |
| RideTerminal.CompletedRideIsCancelled | services/ride/src/rides/ride.service.ts:243-257 | for every cap a completed ride can become cancelled by its driver |
| RideEvents.EventsAgreeWithTheirRides | services/ride/src/rides/ride.service.ts:188-324 | the passenger, vehicle, times, duration, driver and payment method told by requested, started, ended and completed events are the row's ever after |
| RideEvents.EventsAgreeWhenSent | services/ride/src/rides/ride.service.ts:50-330 | every event of all six kinds agrees in status and every column it carries with its ride's row when it goes out |
| RideEvents.ChargeLastsExactlyWithoutOtherFare | services/ride/src/rides/ride.service.ts:292-300 | a ride's fare and distance stay what they were told to be exactly as long as no fare.calculated tells others |
| RideEvents.CompletedRideIsRecharged | services/ride/src/rides/ride.service.ts:292-300 | for every configuration a completed ride can be charged anew |
| RideAnswers.MovesExactlyWhenAllowed | services/ride/src/rides/ride.service.ts:81-357 | in every run a call goes through exactly from the statuses, for the people, at the places and times the service asks for, and then writes exactly that ride's row, one audit row and its events |
| RideAnswers.AnswersOkExactlyWhenAllowed | services/ride/src/rides/ride.service.ts:81-276 | a passenger's or driver's call is answered with the ride exactly then, and with an error otherwise |
| RideAnswers.RequestsExactlyWhenFree | services/ride/src/rides/ride.service.ts:50-79 | a passenger gets a new ride exactly if none of theirs, old or new, is active: a row in matching, two audit rows, one event |
| RideAnswers.FareSetsExactly | services/ride/src/rides/ride.service.ts:292-300 | a fare sets three columns of its ride and nothing else |
| RideAnswers.RoundedSecondsAreNearest | services/ride/src/rides/ride.service.ts:191-193 | a duration is the nearest second, halves upwards |
| Idempotency.ParseInvertsKey | services/payment/src/domain/idempotency.ts:6-14 | parsing inverts formatting exactly for non-empty ride ids without line terminators, colons included |
| Idempotency.KeyInjective | services/payment/src/domain/idempotency.ts:6-8 | distinct attempts never share a key |
| Payments.PaymentsService.HandleFareCalculated | services/payment/src/payments/payments.service.ts:34-40 | the first amount stays |
| Payments.PaymentsService.PayDigitally | services/payment/src/payments/payments.service.ts:43-90 | errors, retry cap, attempt number, replay and insert; what the gateway's answer does is PaymentAnswers.PayDoesExactly |
| Payments.PaymentsService.ConfirmCash | services/payment/src/payments/payments.service.ts:93-115 | idempotent after a success; else the next attempt, settled |
| Payments.PaymentsService.ReceiveCallback | services/payment/src/payments/payments.service.ts:118-148 | signature, reference, newest pending payment, then success or failure |
| Payments.PaymentsService.Succeed | services/payment/src/payments/payments.service.ts:150-190 | a second success is not recorded; else row and event in one transaction |
| Payments.PaymentsService.Fail | services/payment/src/payments/payments.service.ts:192-207 | row and event in one transaction |
| PaymentRuns.OneSuccessAnnouncedOnce | services/payment/src/payments/payments.service.ts:150-190 | a ride has at most one success and one payment.completed for each, with the row's own content |
| PaymentRuns.SuccessIsForever | services/payment/src/payments/payments.service.ts:118-207 | a success is never left; no row changes ride, means, amount, attempt or key; prices stay |
| PaymentRuns.AmountsAreTheFirstFare | services/payment/src/payments/payments.service.ts:34-40 | every payment of a ride carries its first calculated fare |
| PaymentRuns.KeyTakenExactlyUpToCount | services/payment/src/payments/payments.service.ts:55-58 | an attempt's key is taken exactly when the ride has had that many attempts |
| PaymentRuns.ReplayIsNoOpExactlyWhen | services/payment/src/payments/payments.service.ts:118-148 | after any further calls a replayed callback changes nothing exactly when it is unsigned, a row bears its reference that is settled or, for a success, in a settled ride, or no digital attempts are allowed |
| PaymentRuns.ImmediateReplayIsNoOpExactlyWhen | services/payment/src/payments/payments.service.ts:128-147 | replayed at once it changes nothing exactly when it reports success, its row is settled, or no row has its reference and at most one is pending |
| PaymentRuns.ReplayedFailureFailsAnotherAttempt | services/payment/src/payments/payments.service.ts:132-147 | a failure sent twice fails two attempts |
| PaymentRuns.ReplayedSuccessSettlesLaterAttempt | services/payment/src/payments/payments.service.ts:132-144 | a success replayed after an attempt of another reference settles that attempt |
| PaymentAnswers.PayDoesExactly | services/payment/src/payments/payments.service.ts:43-90 | in every run a digital payment of a priced ride with retries left adds exactly one row, the next attempt at the ride's price: failed and announced if rejected, under the gateway's reference if pending, settled and announced if accepted, unless the ride's success is the answer; otherwise nothing changes |
| PaymentAnswers.CashDoesExactly | services/payment/src/payments/payments.service.ts:93-115 | cash adds exactly the settled next attempt and its event, or answers with the ride's success |
| PaymentAnswers.CallbackDoesExactly | services/payment/src/payments/payments.service.ts:118-207 | a signed callback fails or settles exactly the row with its reference, or else the ride's newest pending one, and announces it; it changes nothing if there is no such row or it has succeeded |
| PaymentAnswers.FailedRowsWereAnnounced | services/payment/src/payments/payments.service.ts:192-207 | in every run a failed row was announced as failed under its own id, ride and means |
| PaymentsInterleaving.AttemptsAreExactlyOneToN | services/payment/src/payments/payments.service.ts:43-114 | under any interleaving of awaits a ride's attempts are exactly 1..n, each once under its own key, digital ones within the retries, at most one succeeded |
| PaymentsInterleaving.InsertRefusedExactlyWhenOvertaken | services/payment/src/migrations/1720000500000-InitPaymentSchema.ts:41-44 | the indexes refuse a pay's insert exactly when its number is out of date |
| PaymentsInterleaving.BalanceBreaksExactlyByOverwriting | services/payment/src/payments/payments.service.ts:78-90 | a step unbalances events and successes exactly when it overwrites a success |
| PaymentsInterleaving.BalancedExactlyWithoutOverwrites | services/payment/src/payments/payments.service.ts:78-190 | a run is balanced throughout iff no stale write ever lands on a success |
| PaymentsInterleaving.RideIsChargedTwice | services/payment/src/payments/payments.service.ts:86-89 | a stale save after a callback leads to two payment.completed for a ride |
| Geo.PointInPolygon | libs/common/src/geo/geo.ts:39-53 | the loop computes the parity of the edges met to the right |
| Geo.StraddlesAreEven | libs/common/src/geo/geo.ts:47-49 | a closed ring crosses a latitude an even number of times |
| Geo.RaysAgree | libs/common/src/geo/geo.ts:47-50 | left and right parity agree exactly when the point is on an even number of straddling edges |
| Geo.RaysAgreeOffBoundary | libs/common/src/geo/geo.ts:39-53 | off the boundary the direction of the ray does not matter |
| Geo.RotationInvariant | libs/common/src/geo/geo.ts:42 | starting at another vertex changes nothing |
| Geo.ReversalInvariant | libs/common/src/geo/geo.ts:42-49 | listing the ring backwards changes nothing |
| Geo.ClosingVertexInvariant | libs/common/src/geo/geo.ts:15-16 | a repeated closing vertex changes nothing |
| Geo.EdgePointsAreNotAlwaysInside | libs/common/src/geo/geo.ts:35-38 | a square keeps its left side and loses its right |
| Geo.BoxIsHalfOpen | libs/common/src/geo/geo.ts:39-53 | a box holds exactly its inner points and those of its southern and western sides |
| Geo.CutAlongChord | libs/common/src/geo/geo.ts:39-53 | cut along the chord between two vertices, a ring holds exactly the points that one part holds and the other does not |
| Geo.BoundaryIsInsideExactlyIfEmpty | libs/common/src/geo/geo.ts:35-38 | only the empty ring has all its vertices inside: a northernmost vertex never is |
| Geo.AnswersForTheRight | libs/common/src/geo/geo.ts:47-50 | every point is answered like the points just to its right |
| Geo.SegmentDistanceIsMinimum | libs/common/src/geo/geo.ts:56-77 | the clamped projection is the least squared distance to any point of the segment |
| Geo.DistanceToBoundary | libs/common/src/geo/geo.ts:80-88 | the least squared distance to any point of any edge |
| Geo.DistanceOutside | libs/common/src/geo/geo.ts:95-98 | zero inside, else that minimum |
| Ring.ClosingPositionIsHarmless | services/geofence/src/geo/ring.ts:5-8 | the closing vertex polygonToRing keeps decides nothing |
| ViolationDecider.FoldMeaning | services/geofence/src/violations/violation-decider.ts:51-93 | the three fields of the state, read off the whole history |
| ViolationDecider.OpensExactlyAtFirstDwell | services/geofence/src/violations/violation-decider.ts:74-92 | opens exactly at the first ping since the last near one whose stray run spans the dwell, with the excursion's worst stray distance |
| ViolationDecider.ClosesExactlyOnReturn | services/geofence/src/violations/violation-decider.ts:55-60 | closes exactly at the first near ping after an opening |
| ViolationDecider.OpensAndClosesAlternate | services/geofence/src/violations/violation-decider.ts:51-93 | openings and closings alternate, an opening first |
| ViolationDecider.ReportedDistanceWasMeasured | services/geofence/src/violations/violation-decider.ts:72 | the reported distance is one of the excursion's |
| ViolationDetector.ViolationDetectorService.OnLocation | services/geofence/src/violations/violation-detector.service.ts:74-105 | decide on the vehicle's state, open or close the row, store the state |
| ViolationDetector.ViolationDetectorService.OpenViolation | services/geofence/src/violations/violation-detector.service.ts:107-136 | row and event |
| ViolationDetector.ViolationDetectorService.CloseViolation | services/geofence/src/violations/violation-detector.service.ts:138-155 | only a row still open |
| ViolationDetector.AuthorizationService.CheckAuthorized | services/geofence/src/violations/authorization.service.ts:35-44 | on a ride, within the return window, or covered by a pass; read off the calls by ViolationHistory.AuthorizedExactlyByHistory |
| ViolationDetector.AuthorizationService.RideActive | services/geofence/src/violations/authorization.service.ts:26-28 | the vehicle joins the active rides |
| ViolationDetector.AuthorizationService.RideEnded | services/geofence/src/violations/authorization.service.ts:30-33 | the vehicle leaves its ride and its return window opens |
| ViolationDetector.ViolationsService.Acknowledge | services/geofence/src/violations/violations.service.ts:23-31 | only an open row |
| ViolationDetector.ViolationsService.Resolve | services/geofence/src/violations/violations.service.ts:33-40 | any row not yet resolved, keeping an earlier closing time |
| ViolationDetector.ViolationsService.Escalate | services/geofence/src/violations/violations.service.ts:43-58 | any row, with its event |
| ViolationDetector.DetectorRefinesDecider | services/geofence/src/violations/violation-detector.service.ts:84-104 | a vehicle's state is the decider folded over its processed pings, and its detected events are exactly that fold's openings |
| ViolationDetector.OneOpenViolationAndItIsTracked | services/geofence/src/violations/violation-detector.service.ts:96-104 | with each ping handled in one step, a vehicle has at most one open violation, the one its state names, whatever admins do |
| ViolationDetector.DetectedOnceClosedAtMostOnce | services/geofence/src/violations/violation-detector.service.ts:138-153 | with each ping handled in one step, each violation is detected once and auto-closed at most once |
| ViolationHistory.AuthorizedExactlyByHistory | services/geofence/src/violations/authorization.service.ts:26-44 | after any calls a position is authorized exactly if the vehicle was put on a ride not ended since, or its latest ride ended at a non-zero time at most a return window ago, or a pass covers it |
| ViolationHistory.HistoryIsPositions | services/geofence/src/violations/violation-detector.service.ts:74-94 | the decider is given exactly the vehicle's paired positions, in order, authorized by that rule |
| ViolationHistory.DetectedFollowsDwell | services/geofence/src/violations/violation-detector.service.ts:74-104 | every detected event follows a dwell-long stretch of positions beyond the margin, at each of which the vehicle was neither on a ride, nor returning, nor covered, and reports the worst of their excursion |
| ViolationHistory.RowChangesExactly | services/geofence/src/violations/violations.service.ts:23-58 | a row changes, and is told of, exactly so: closed by its vehicle's return while open, acknowledged while open, resolved unless it is already, escalated always |
| ViolationHistory.RowsTellTheirPositions | services/geofence/src/violations/violation-detector.service.ts:107-136 | every row tells the position that opened it, and its detected event tells the row |
| ViolationOverlap.SingleExactlyWithoutBlindOpens | services/geofence/src/violations/violation-detector.service.ts:84-104 | under any interleaving of awaits a vehicle has at most one violation open or being opened throughout iff no ping of it decides to open while one is |
| ViolationOverlap.OpeningsGoThrough | services/geofence/src/violations/violation-detector.service.ts:107-136 | what is open or being opened is what becomes open if nothing else happens |
| ViolationOverlap.ClosedOnceExactlyWithoutDoubleReads | services/geofence/src/violations/violation-detector.service.ts:138-153 | a violation has been or is being closed at most once throughout iff no close reads it open while another is between its read and its write |
| ViolationOneAtATime.OneAtATimeKeepsOneOpen | services/geofence/src/violations/violation-detector.service.ts:84-104 | if no ping of a vehicle decides between another's decision and state.set, it has at most one open violation at all times, tracked whenever none is busy |
| ViolationOneAtATime.OneOpenExactlyOneAtATime | libs/events/src/event-bus.service.ts:52 | for any hysteresis, one open violation a vehicle in every run exactly if the prefetch is at most one |
| ViolationOneAtATime.ClosedOnceExactlyOneAtATime | libs/events/src/event-bus.service.ts:52 | and exactly then one close a violation in every run |
| ViolationOneAtATime.TwoMessagesOpenTwice | services/geofence/src/violations/violation-detector.service.ts:84-104 | with two messages at a time some run from the start has two open violations of a vehicle |
| ViolationOneAtATime.TwoMessagesCloseTwice | services/geofence/src/violations/violation-detector.service.ts:138-153 | and some run closes one violation twice |
| ViolationOneAtATime.OneOfTwoStaysOpen | services/geofence/src/violations/violation-detector.service.ts:96-104 | of two violations so opened one stays open, unnamed, after the vehicle is back |
| ViolationOneAtATime.HarmlessOverlap | services/geofence/src/violations/violation-detector.service.ts:84-104 | an overlap with an opening under way need not open twice |
| Trail.TrailService.Handle | services/tracking/src/trails/trail.service.ts:42-59 | opens a trail on start and finalizes it once on end or completion |
| Trail.TrailService.Finalize | services/tracking/src/trails/trail.service.ts:61-88 | a second slice of a ride is not written |
| Trail.TrailService.FilterDistance | services/tracking/src/trails/trail.service.ts:91-102 | the loop computes the filtered distance, which Trail.FilterKeepsExactly pins leg by leg |
| Trail.FilterCapsDistance | services/tracking/src/trails/trail.service.ts:91-102 | all but the legs that take no time is within 140 km/h |
| Trail.StrictTrailIsCapped | services/tracking/src/trails/trail.service.ts:91-102 | with strictly increasing times the distance is within 140 km/h |
| Trail.CapHoldsExactlyForStrictTimes | services/tracking/src/trails/trail.service.ts:91-102 | a trail in time order is within 140 km/h wherever its points lie exactly when no two consecutive points share a time |
| Trail.SharedTimestampEscapesFilter | services/tracking/src/trails/trail.service.ts:97-99 | two fixes at one time pass whole |
| Trail.FareOfTrailIsCapped | services/tracking/src/trails/trail.service.ts:91-102 | so the fare has a matching cap |
| Trail.RunKeepsSlices | services/tracking/src/trails/trail.service.ts:42-88 | redelivered and reordered events never give a ride a second slice; each slice is the filtered trail of its window in the logs it was cut from, all but the timeless legs within 140 km/h |
| Trail.DistinctTimesCapSlices | services/tracking/src/trails/trail.service.ts:61-102 | where no vehicle has two fixes at one time, no slice exceeds 140 km/h |
| Trail.LegIsExact | services/tracking/src/trails/trail.service.ts:97-99 | a leg that takes time counts whole if 140000 metres an hour cover it, and else not at all |
| Trail.FilterKeepsExactly | services/tracking/src/trails/trail.service.ts:91-102 | the distance of a trail in time order is the summed length of exactly those legs and the ones that take no time |
| Trail.WholePathExactlyWhenPlausible | services/tracking/src/trails/trail.service.ts:91-102 | it is the whole length of the path exactly if every leg is one of them |
| TrailSlices.WindowIsExact | services/tracking/src/trails/trail.service.ts:70-73 | a slice is cut from exactly the vehicle's fixes from start to end, both included, oldest first |
| TrailSlices.OpenTrailsAreUnfinished | services/tracking/src/trails/trail.service.ts:42-59 | a trail is open exactly for a ride started and not finished since, as its latest start has it |
| TrailSlices.FinishCutsSlice | services/tracking/src/trails/trail.service.ts:42-88 | a finish of an open ride without a slice adds exactly one, from its latest start to the finish, as long as the plausible legs in between; any other delivery adds none |
| Fare.TotalIsNearFlooredFare | services/fare/src/domain/fare-formula.ts:67-70 | the total is a multiple of 1000 within 500 paisa of the floored fare, or within half a paisa unrounded |
| Fare.ComponentsSumToSubtotal | services/fare/src/domain/fare-formula.ts:73-78 | rounded components sum to the rounded subtotal within one paisa |
| Fare.ReceiptMissesTheMinimumTopUp | services/fare/src/domain/fare-formula.ts:68-79 | subtotal and rounding reach the total but for the top-up |
| Fare.MinimumFareReceiptDoesNotAddUp | services/fare/src/domain/fare-formula.ts:68-79 | a receipt of 150 rupees whose parts add up to 50 |
| Fare.FareIsMonotone | services/fare/src/domain/fare-formula.ts:48-90 | a longer or slower trip never costs less |
| Fare.PlainTripCostsTheRates | services/fare/src/domain/fare-formula.ts:50-66 | by day and without a zone override a kilometre costs the kilometre's rate and a minute the minute's |
| Fare.NightScalesTheMeter | services/fare/src/domain/fare-formula.ts:59-62 | the night multiplier scales the metered part exactly of a fare at night |
| Fare.ZoneScalesTheMeter | services/fare/src/domain/fare-formula.ts:59-62 | a zone's multiplier scales the metered part, by night as by day |
| Fare.ZoneRatesReplaceConfigured | services/fare/src/domain/fare-formula.ts:53-54 | a zone's rates take the place of the configured ones, each where the zone has it |
| Fare.ItemsFollowTheirMeters | services/fare/src/domain/fare-formula.ts:73-84 | the distance item does not depend on the duration, the time item not on the distance, the base on neither |
| Tokens.TokenService.Rotate | services/auth/src/tokens/token.service.ts:52-77 | unknown, reused, expired, orphaned or rotated |
| Tokens.TokenService.IssuePair | services/auth/src/tokens/token.service.ts:41-49 | a fresh family |
| Tokens.TokenService.Revoke | services/auth/src/tokens/token.service.ts:80-83 | the one token |
| Tokens.TokenService.UpdateFamily | services/auth/src/tokens/token.service.ts:61-64 | the whole family |
| Tokens.FamiliesAreLinearChains | services/auth/src/tokens/token.service.ts:41-109 | each family is one chain of rotations with at most its newest token live |
| Tokens.RotatedAtMostOnce | services/auth/src/tokens/token.service.ts:68-76 | no token is rotated successfully twice |
| Tokens.DeadForever | services/auth/src/tokens/token.service.ts:59-66 | a family without a live token stays so, and gains none |
| Tokens.FailedRotationKillsFamily | services/auth/src/tokens/token.service.ts:59-75 | a failed rotation of a known token kills its family |
| Tokens.RotatesExactlyWhenLive | services/auth/src/tokens/token.service.ts:52-77 | exactly a live, unexpired token of an existing user rotates |
| Tokens.LogoutIsLocal | services/auth/src/tokens/token.service.ts:80-83 | logging out touches no other token |
| Tokens.LogoutKillsToken | services/auth/src/tokens/token.service.ts:52-83 | a token logged out with is refused as reuse ever after, whatever happens in between |
| Tokens.IssueOpensFamily | services/auth/src/tokens/token.service.ts:41-49 | a login adds one live token in a family of its own, for its user and device and a full lifetime |
| Tokens.RotationReplacesToken | services/auth/src/tokens/token.service.ts:68-109 | a rotation revokes exactly the presented token and adds its successor, for the same user, family and device and a full lifetime |
| Tokens.RotationStaysInFamily | services/auth/src/tokens/token.service.ts:52-77 | a rotation touches no other family; a token nobody knows is invalid and touches nothing |
| Csv.ToCsv | services/admin-reporting/src/reports/csv.ts:5-13 | empty for no rows; else raw headers and one escaped line a row, missing keys empty |
| Csv.RoundTrip | services/admin-reporting/src/reports/csv.ts:5-21 | a decoder after section 2 of RFC 4180 returns headers and fields exactly when there are headers and none needs quoting |
| Csv.EncodeInjective | services/admin-reporting/src/reports/csv.ts:5-21 | two such reports with one text are one report |
| Csv.HeaderWithCommaIsLost | services/admin-reporting/src/reports/csv.ts:8 | a comma in a header reads back as two headers |

## Left out

- Floating point, trigonometry and haversine: coordinates are exact reals, distances to a boundary are held as squares with
  given metres per degree, and the great-circle distance is a given non-negative metric.
- RabbitMQ, Redis, Postgres, HTTP, MQTT, JWT signing and the hash function: queues, an expiring key store, atomic
  transactions and given functions. TTL texts of tokens are not parsed; a lifetime is given.
- Races between transactions that read the same projection row, and a ride row changed while `accept` waits for Dispatch:
  steps are serialisable and the row is as it was read. TypeORM's save of a stale entity is modelled in
  PaymentsInterleaving and ViolationOverlap only.
- Two fare.calculated messages of one ride handled at once: the price is written in one step.
- avgMatchSeconds and avgDurationS, which divide by events that carried no time; online hours, which are added without
  deduplication; the city column of rides_daily.
- That a ride is never both assigned and exhausted, and that a driver holds one ride, inside Dispatch: the code does not
  look at `resolved` again after its await, and the Ride database holds the second.
- Dispatch's handlers of driver, vehicle and tracker events: ClaimProtocol lets the registry change to any other at any step.
- dispatch.exhausted goes out without an outbox; Pipeline logs it as an event that is already sent.
- A driver's cancel past the cap is modelled as the code does it, not as the documented no_driver_found.
- Restarts of Geofence, Tracking and Dispatch, which drop their in-memory state.
- A ride's points and zones, ratings and SOS; receipts; refunds, reconciliation and the unsettled flag of payments; lists and
  other queries; WebSocket pushes; logging; validation of DTOs; configuration; the passenger, driver, zone and notification
  services and the web and mobile apps.
- ZoneSelection.RankingIsSortedPermutation: the distance from the pickup to a zone is a given function here;
  ZoneSelection.ZonesRankByTrueDistance puts in Geo's, which holds distances as squares and asks for rings with a point.
- Projections.ProjectionsService.OnRideCompleted: leaves out avgMatchSeconds and the city column.
- Projections.ProjectionsService.OnViolationEvent: leaves out avgDurationS of closed violations.
- ViolationDetector.OneOpenViolationAndItIsTracked: one ping is one step; what overlapping pings do to it is said by
  ViolationOverlap and ViolationOneAtATime.
- ViolationDetector.DetectedOnceClosedAtMostOnce: the same.
- OutboxRelay.TickSendsOldestFirst: rows created at one time go in insertion order here; the database may pick any.
