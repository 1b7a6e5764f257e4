# Verification model of the taxi dispatch backend

The backend offers an order to drivers one at a time. Several dispatcher processes and many drivers work on shared
orders through leases in Redis, publish/subscribe messages that may be lost, and updates of single MongoDB documents.
This project models that protocol and the stateful services around it in Dafny 4.11, and proves what they keep.
`dafny verify dfyconfig.toml` checks everything.

## How the model is built

- **One thread, step by step.** `dispatcher.dfy` holds `handleOrder`, the loop of `sendFcm`, the `select` loop of the
  event-driven wait (`wait_loop.dfy`) and the timeout handler as methods. `dispatch_traces.dfy` gives their outside effects
  as traces, for any sequence of answers of Redis, MongoDB, the push service and the message channels;
  `dispatch_results.dfy` and `dispatch_contacts.dfy` prove what holds of those traces, in terms of their events and of the
  answers that were given, and the methods' contracts promise it.
  `dispatch_selection.dfy` joins the candidate selection to it.
- **Many threads.** `leases.dfy` is a machine of any number of lease holders over one Redis. `event_manager.dfy` has the lock
  operations as methods of a class, each proved to be one step of that machine. `dispatch_protocol.dfy` runs any number of
  dispatcher threads on top of it; every thread follows the automaton of `contact.dfy`, which the traces of
  `handleOrder` are proved to follow as well. `reject_log.dfy`, `accept.dfy`, `conversion.dfy` and
  `driver_requests.dfy` are machines of the same shape for the reject log, concurrent acceptances among all other writers of
  an order, the conversion of scheduled orders, and the drivers' two slots. `dispatch_bound.dfy` and `accept_bound.dfy`
  hold the runs that show which assumptions are exact.
- **Services.** `candidates.dfy`, `crawler.dfy`, `ranking.dfy` and `pairing.dfy` (candidate selection), `registry.dfy` (WebSocket
  connections), `place_cache.dfy` (tag ownership), `page_pool.dfy` (browser pages), `blacklist.dfy`, `notifying.dfy` and
  `driver_slots.dfy` are classes or methods that change state as the code does.

Assumptions: one MongoDB or Redis command is one atomic step; computing a lock's value and running its SET NX is one
step; the clock is monotone; no process restarts (a restart flushes Redis, main.go:111-121). Times are in milliseconds.

## What the proofs show that is not obvious from the code

- Lock values carry whole seconds only. That is safe for every lock of the system exactly because no lifetime is
  below one second (`Leases.OneSecondIsExactlyEnough`); the one-second probe lock of the candidate filter sits on
  that bound.
- The wait can run past its 19 s: a handler that is busy when the timer fires, and every draw the ready timer loses, add to
  it (`WaitLoop.WaitEndsInTime`). That overrun counts against the same slack as the rest of a contact.
- At most one order waits on a driver exactly if a contact spends less than 5 s outside the 19 s of its timer
  (`DispatchBound.FiveSecondsIsExactlyEnough`). The order's side has more room: slack and renewal period must fit into
  the 29 s of the dispatch lease, so 24 s with the renewal every 5 s (`DispatchBound.OrderSideBound`).
- The positional pairing of routes with drivers is right exactly if no driver without a route precedes one with a route
  (`Pairing.OwnRoutesExactlyIfServedFirst`); with two drivers and a first lookup that fails, the first driver is dispatched
  with the second one's route (`Pairing.FirstDriverGetsSecondRoute`).
- Accept events name the assigned driver exactly if four things are excluded: bringing the order back to Waiting or
  deleting it before the event is published, and overwriting a won order with an earlier document or activating it late
  (`AcceptBound.EventsNameAssignedDriver`). The code does all four: controller/order_controller.go:110-118,
  service/order_service.go:1201-1214, service/order_service.go:1304-1329, service/order_summary_service.go:278-297.
- An event is published with the driver on the way, and with the order as its current one, exactly if no cancellation or
  reset has written the driver since (`Accept.AcceptanceIsExclusive`, `AcceptBound.FreedDriverIsPublished`).
- The three schedule fields stay together exactly if scheduled orders always have a due time
  (`DriverRequests.FieldsStayTogether`): service/driver_service.go:2335-2342 writes the missing time before line 2360
  dereferences it. A schedule slot is never overwritten exactly if each driver's requests are sequential
  (`DriverRequests.SlotsOnlyEmpty`).
- A conversion between the checks of a scheduled acceptance and its compare-and-set leaves the completed order in the
  driver's schedule slot (`DriverRequests.ConversionDuringAcceptance`).
- Orders are published by conversion at most once exactly if nobody stores type Scheduled over Instant
  (`Conversion.PublishedAtMostOnce`); every other overwrite is harmless.
- Removing a pair from the blacklist can unlist another address of the same driver; `Blacklist.RemovalKeepsCover` says
  exactly when it does not. Nothing in the repository calls that removal.
- The 5 s buffer on the lifetime of a notifying-order record is not needed (`Notifying.LifetimeNeverCutsShort`).

## Model

| member | source | states |
|---|---|---|
| `LockValue.LockValueDeterminesSecond` | infra/redis_events.go:163-166 | two equal lock values come from the same holder name and the same whole second, whatever colons the name contains |
| `Leases.LeasesAreSafe` | infra/redis_events.go:163-253 | in every state of every run of acquisitions, renewals and releases with lifetimes of at least 1 s, a holder whose value still matches owns the entry, and no two holders have unexpired leases on a key |
| `Leases.ReleaseTouchesOwnEntryOnly` | infra/redis_events.go:193-217 | a release removes the releasing holder's own entry or nothing |
| `Leases.ExtendTouchesOwnEntryOnly` | infra/redis_events.go:224-253 | a renewal moves the expiry of the holder's own entry, or changes nothing |
| `Leases.ShortLivesBreakOwnership` | infra/redis_events.go:163-166 | with any lifetime below 1 s there is a run after which an old holder could release a newer holder's lock |
| `Leases.OneSecondIsExactlyEnough` | infra/redis_events.go:558-632 | ownership holds in all runs if and only if every lifetime is at least 1 s, for all kinds of locks, also those whose value names no process |
| `EventManager.RedisEventManager.AcquireDispatchLock` | infra/redis_events.go:163-221 | one Acquire step of the lease machine on the order's key; refused exactly if a live entry exists; a granted lock is in force with the returned value, also when answers get lost |
| `EventManager.RedisEventManager.ExtendDispatchLock` | infra/redis_events.go:224-253 | one Extend step, in whole seconds; succeeds exactly if the caller's lease is the one in force |
| `EventManager.RedisEventManager.AcquireDriverNotificationLock` | infra/redis_events.go:335-400 | one Acquire step on the driver's key, by dispatcher and order |
| `EventManager.RedisEventManager.AcquireOrderRejectLock` | infra/redis_events.go:558-632 | one Acquire step on the key of order and driver, by source |
| `EventManager.RedisEventManager.ReleaseLock` | infra/redis_events.go:193-217 | one Release step: deletes the entry exactly if the caller's lease is in force, and touches nothing else |
| `WaitLoop.WaitForDriverResponse` | background/dispatcher.go:1293-1466 | for every sequence of messages and ticks the loop returns at the first case that concerns this order and driver, within 19 s plus the overrun of busy handlers and lost draws. It answers to go on exactly after the timer, this driver's reject or this driver's change away from idle; accepted exactly after an acceptance of this order, an accepted event about it, or a tick that read it neither Waiting nor Cancelled; timed out exactly after the timer |
| `WaitLoop.WaitEndsInTime` | background/dispatcher.go:1297-1310 | with handlers of at most H and at most K draws lost by the ready timer, every wait ends within 19 s + (K+1)H; with K = 0 within 19 s + H |
| `WaitLoop.ServedWithinOverrun` | background/dispatcher.go:1308-1310 | any case that is ready from some moment on is served within (K+1)H of it |
| `WaitLoop.OnlyStop` | background/dispatcher.go:1310-1466 | the stopping case is the first ending one and is unique |
| `WaitLoop.OutcomeMeans` | background/dispatcher.go:1310-1466 | which answer follows from which ending case, in terms of the message or reading itself |
| `WaitLoop.StopsExactlyWhenSettled` | background/dispatcher.go:1310-1466 | the loop stops at a case if and only if it is the timer, the end of the context, a failed renewal, an acceptance of the order, this driver's reject or change away from idle, or news or a reading of the order out of Waiting |
| `WaitLoop.EveryTickIsSeen` | background/dispatcher.go:1425-1458 | every status and renewal tick leaves exactly one event, in order, with what was read or whether the renewal worked |
| `WaitLoop.EndsOnlyOnOwnMessages` | background/dispatcher.go:1310-1420 | no message about another order, no reject or status change of another driver ends the wait |
| `WaitLoop.LostMessagesCostASecond` | background/dispatcher.go:1425-1448 | however many messages are lost or forged, the wait ends at most one second and the overrun of one tick after the order left Waiting |
| `WaitLoop.SeenBeforeStopIsWaiting` | background/dispatcher.go:1425-1466 | before the last event the loop has seen the order only as Waiting and has lost no lease |
| `OrderLog.ScanForReject` | service/driver_service.go:1150-1176 | a reject may be logged exactly if no entry of the log is a reject of the driver |
| `OrderLog.ScanForTimeout` | background/dispatcher.go:1560-1604 | a timeout may be logged exactly if no entry of the log is an accept, reject or timeout of the driver in the given round |
| `OrderLog.TimeoutNeedsEmptyRound` | background/dispatcher.go:1563-1604 | only an accept, reject or timeout of this driver in this very round stands in the way of a timeout; other rounds and drivers never do |
| `OrderLog.RejectNeedsNoReject` | service/driver_service.go:1163-1176 | only a reject of this driver stands in the way of a reject |
| `Dispatcher.HandleDriverTimeout` | background/dispatcher.go:1508-1655 | the timeout of the current round (1 if the order has none) is logged if and only if the handler is not shut out by the reject lock, could read the order, and the log has no accept, reject or timeout of the driver in that round, whatever earlier rounds hold; nothing else is logged; with the reject lock everything happens between taking and giving it back |
| `Dispatcher.AwaitDriverResponse` | background/dispatcher.go:1247-1466 | the dispatch lock is given back on every exit on which it was taken; a lock that is somebody else's is seen as refused; accepted and going on are what the wait's end event says; a timeout is logged exactly if the timer ended the wait and the timeout is due; the time is that of the ending case |
| `Dispatcher.ContactDriver` | background/dispatcher.go:870-1160 | an iteration starts and ends holding nothing and does, event by event, what the answers call for: it locks the driver exactly if the order is Waiting, the driver reachable and the lock granted, pushes exactly a driver found idle without order, records the push exactly if the driver is still free. The verdict is what its events say: next driver exactly if its read saw Waiting and nothing stopped it, matched exactly if its read or its wait found the order taken |
| `Dispatcher.ContactLockedDriver` | background/dispatcher.go:1010-1160 | from the driver's lock on, every path ends with the lock given back; the verdict is next driver exactly if no wait ended without going on and the order's lock was not refused, matched exactly if a wait ended accepted |
| `Dispatcher.SendFcm` | background/dispatcher.go:779-1170 | starts and ends holding nothing; all pushes guarded and no driver pushed twice; from candidate to candidate as the turns' events say; true exactly if the trace found the order taken; timed waits add up to at most 19 s and one overrun a candidate |
| `Dispatcher.ContactCandidates` | background/dispatcher.go:870-1160 | each turn is followed by the next candidate's exactly if its iteration goes on; the answer is true exactly if a wait ended accepted or the last read found the order taken; the time is the sum over the turns taken |
| `DispatchTraces.NineteenSecondsEach` | background/dispatcher.go:26-34 | the waits of n candidates total at most n times 19 s + (K+1)H |
| `Dispatcher.HandleOrder` | background/dispatcher.go:112-334 | every handling of an order starts and ends holding nothing, guards every push, pushes no driver twice, and fails the order for want of an acceptance only right after a read of Waiting or a failed read, and, if nothing disturbed it, only after every candidate had its turn |
| `Contact.LocksAlternate` | background/dispatcher.go:938-961 | in every trace of the contact automaton each driver lock taken is given back once, and only taken locks are given back, one driver at a time |
| `DispatchResults.HandleOrderReleasesWhatItTakes` | background/dispatcher.go:870-1160 | every trace of `handleOrder` follows the automaton and so gives back every notification lock exactly once |
| `DispatchResults.TimeoutIsOneSection` | background/dispatcher.go:1508-1655 | one section: at most one entry, exactly if allowed, reject lock events first and last |
| `DispatchContacts.VerdictOfEvents` | background/dispatcher.go:1112-1140 | the verdict of an iteration, read off its events alone |
| `DispatchContacts.ContactDoesWhatItFinds` | background/dispatcher.go:877-1104 | which events an iteration has, as conditions on the answers of database, Redis and push service |
| `DispatchContacts.TimeoutLoggedExactlyWhenDue` | background/dispatcher.go:1563-1640 | a timeout is logged if and only if it is due, as a condition on lock, read and log entries |
| `DispatchContacts.SendTurnsFollow` | background/dispatcher.go:870-1160 | turn i is followed by turn i + 1 if and only if its iteration saw Waiting and nothing stopped it and there is such a candidate; otherwise the trace ends with it |
| `DispatchContacts.SendAnswersTaken` | background/dispatcher.go:870-1160 | the answer is true if and only if a wait ended accepted or the last event read the order neither Waiting nor Cancelled; an error only after a failed read of an iteration |
| `DispatchContacts.EverybodyGetsATurn` | background/dispatcher.go:870-1160 | while every read sees Waiting and no wait or lock stops the contacts, every candidate gets its turn |
| `DispatchContacts.FailsOnlyAfterAllTurns` | background/dispatcher.go:256-318 | an undisturbed handling fails the order only after every candidate had its turn |
| `DispatchContacts.HandleOrderReports` | background/dispatcher.go:112-334 | which failures and round counts a handling reports, as conditions on the search, the contacts and the last read |
| `DispatchTraces.SendMsIsSumOfTurns` | background/dispatcher.go:870-1160 | the time of the call is the sum of the waits of the candidates that had their turn |
| `DispatchResults.EveryPushIsGuarded` | background/dispatcher.go:870-1082 | every push directly follows, in the same iteration, an order read of Waiting, the driver's lock and a driver read of idle without order; it carries that candidate's own time; no driver is pushed twice |
| `DispatchResults.CompensationCountsHalfMinutes` | background/dispatcher.go:969-975 | rank i's compensation c satisfies 30c <= 19i < 30(c+1) and never shrinks with the rank |
| `DispatchResults.FailsExactlyAfterAWaitingRead` | background/dispatcher.go:256-318 | the dispatch result fails an order if and only if it was not matched and the last read found it Waiting or failed |
| `DispatchResults.NoAcceptanceIsLost` | background/dispatcher.go:256-295 | with messages dropped, duplicated, reordered or forged: once the order has left Waiting for good, the dispatch result never fails it, and no driver is pushed after the first read that sees it |
| `DispatchSelection.SelectedDriversArePushedOnce` | background/dispatcher.go:163-224 | with the candidates of one selection a whole handling pushes no driver twice and only drivers that passed every filter |
| `DispatchProtocol.DispatchIsExclusive` | background/dispatcher.go:1258-1300 | in all interleavings of any number of dispatchers whose contacts spend less than 5 s outside the 19 s of the timer (overrun included), with releases lost and renewals failing in Redis, at most one waits for an order and at most one order waits on a driver, and no answered renewal is refused |
| `DispatchProtocol.RenewalsSucceed` | background/dispatcher.go:1449-1457 | a renewal that Redis answers succeeds, up to the bound of the order's side |
| `DispatchProtocol.RunKeepsInv` | background/dispatcher.go:938-961 | the protocol invariant (leases named by a thread are its own, open and unexpired) holds in every reachable state |
| `DispatchProtocol.OrderIsFreedAtOnce` | infra/redis_events.go:193-217 | giving back the dispatch lease, if Redis runs the command, removes exactly the order's key, and every thread that has come as far may take the order at once |
| `DispatchProtocol.DriverIsFreedAtOnce` | infra/redis_events.go:366-396 | the same for the driver's lease |
| `DispatchProtocol.TakingStoresTheLease` | background/dispatcher.go:1257-1268 | an acquisition stores the thread's own value for 24 s under the driver's key, for 29 s under the order's |
| `DispatchProtocol.RenewingExtendsTheLease` | background/dispatcher.go:1449-1457 | a renewal gives the same entry another 29 s |
| `DispatchProtocol.FreeKeysCanBeTaken` | infra/redis_events.go:163-186 | a lease can be taken if and only if its key is free; the order's lock is refused if and only if it is not |
| `DispatchBound.FiveSecondsIsExactlyEnough` | background/dispatcher.go:938-961 | in all runs with a given slack at most one order waits on a driver if and only if the slack is at most 5 s, however often dispatch leases are renewed |
| `DispatchBound.TwoOrdersOneDriver` | background/dispatcher.go:938-961 | with more slack there is a run at whose end two threads are in their waits on one driver |
| `DispatchBound.OrderSideBound` | background/dispatcher.go:1258-1300 | in all runs at most one thread waits for an order if and only if slack plus renewal period (at most 19 s) fit into the 29 s of the dispatch lease |
| `DispatchBound.TwoWaitsOneOrder` | background/dispatcher.go:1449-1457 | beyond that bound there is a run at whose end two threads wait for one order |
| `RejectLog.LogsStayOk` | service/driver_service.go:1117-1176 | with any interleaving of rejects and timeouts that finish inside the 10 s lock, every log has at most one reject per driver, at most one timeout per driver and round, and no timeout after the driver's reject of the same round |
| `RejectLog.SectionsExclude` | background/dispatcher.go:1508-1535 | two unfinished sections of one order and driver are the same section |
| `RejectLog.SectionLogsExactlyWhenClear` | service/driver_service.go:1163-1235 | a section may append if and only if nothing in the log it read stands in its way, and then appends exactly its own entry: a reject with the round read, a timeout with the round given |
| `RejectLog.LeavingFreesTheLock` | infra/redis_events.go:596-629 | a release that Redis runs frees the lock of the pair, and the next section can enter at once |
| `RejectLog.EnteringTakesTheLock` | infra/redis_events.go:558-570 | entering stores the source's value for 10 s under the pair's key |
| `RejectLog.OrderDocument.RejectOrder` | service/driver_service.go:1117-1256 | a first reject is published and logged once with the order's round; a repeated one succeeds and changes nothing; a failed blacklisting stops the call before both |
| `Accept.AcceptanceIsExclusive` | service/driver_service.go:777-862 | whatever else writes the order and the driver: per stay in Waiting at most one acceptance wins, every event names a winner, and the driver is on the way, and has this order as current one, at publication if and only if nobody else has idled it, or cleared its order, since the call's own writes |
| `Accept.FirstCasWins` | service/order_service.go:1251-1275 | a compare-and-set succeeds exactly while the order exists and is Waiting; then nobody has won this stay and nobody else can |
| `Accept.RedispatchOpensTheOrder` | service/order_service.go:503-553 | after a redispatch the order is Waiting and nobody's in a stay nobody has won, and the next compare-and-set succeeds |
| `Accept.StrictNamesAssigned` | service/driver_service.go:836-856 | without the four interferences every event names the assigned driver |
| `AcceptBound.EventsNameAssignedDriver` | service/driver_service.go:836-856 | in all runs under given rules every event names the driver assigned at publication, if and only if the rules forbid returning to Waiting and deletion while the acceptance is unpublished, and stale replacement and late activation of a won order |
| `AcceptBound.WinnersAreAssigned` | service/order_service.go:1251-1275 | in all runs the winner of an order's current stay is its assigned driver, if and only if won orders are neither overwritten by earlier documents nor activated late |
| `AcceptBound.ReopenedOrderMisnames` | controller/order_controller.go:110-118 | a run: the web interface sets a won order back to Waiting, a second driver wins, the first one publishes |
| `AcceptBound.StaleDocumentMisnames` | service/line_event_handler.go:165-180 | a run: a document read before is written back over a won order |
| `AcceptBound.LateActivationMisnames` | service/order_service.go:1304-1329 | a run: an activation whose checks came earlier assigns its driver over the winner |
| `AcceptBound.DeletedOrderMisnames` | service/order_summary_service.go:278-297 | a run: the order is deleted before the event is published |
| `AcceptBound.FreedDriverIsPublished` | service/order_service.go:1131-1163 | a run: a cancellation frees the driver before the event is published |
| `Candidates.CheckDriver` | background/dispatcher.go:411-516 | a driver passes exactly if it is clear of the blacklist, idle, not being notified, without a schedule due within the hour of an instant order, of a fleet that may take the order, has not refused the order's fleet and has a position |
| `Candidates.FindCandidateDrivers` | background/dispatcher.go:337-715 | the result is empty, an error, or a selection from some shortlist of nearest drivers; errors exactly if no shortlisted driver got a route |
| `Candidates.SelectionIsOptimal` | background/dispatcher.go:547-692 | at most 5 distinct drivers in order of time, each eligible, among the 15 nearest, with its own route; no unchosen shortlisted driver with an acceptable route is faster, no eligible driver outside the shortlist is nearer |
| `Candidates.PicksAreSound` | background/dispatcher.go:629-692 | each candidate is an eligible shortlisted driver paired with the route of its own position |
| `Candidates.NobodyFasterLeftOut` | background/dispatcher.go:665-692 | a driver left out is not faster than a candidate |
| `Candidates.NobodyNearerLeftOut` | background/dispatcher.go:547-581 | a driver not shortlisted is not nearer than a shortlisted one |
| `Candidates.PicksAreDistinctAndOrdered` | background/dispatcher.go:665-692 | no driver appears twice; times do not decrease |
| `Candidates.FleetRule` | background/dispatcher.go:490-516 | WEI orders only get WEI drivers, RSK and KD orders never do |
| `Candidates.RankedExactlyIfFit` | background/dispatcher.go:355-570 | a driver is ranked if and only if it is online, idle, not inactive, not unapproved, passes the filters, and is within 15 km unless the order is WEI, each as a condition on the documents |
| `Candidates.PicksAreFit` | background/dispatcher.go:411-692 | every candidate meets all those conditions, and 20 minutes unless the order is WEI; at most 5 of at most 15 |
| `Candidates.NobodyIsDroppedNeedlessly` | background/dispatcher.go:575-692 | 15 drivers, or all that are ranked, are asked for routes; 5 candidates, or all with an acceptable route, are chosen |
| `Ranking.PrefixOfSorted` | background/dispatcher.go:547-581 | a prefix of any sorted permutation holds the smallest elements; sort.Slice need not be stable |
| `Crawler.DirectionsMatrixInverse` | service/crawler_service.go:614-700 | one route per origin that got one, in the order of the origins; an error exactly if none did |
| `Crawler.Served` | service/crawler_service.go:614-674 | the origins with a route form an increasing sequence that misses none |
| `Crawler.ServedExactlyIfUsable` | service/crawler_service.go:650-672 | an origin is served if and only if its lookup showed a positive time and a positive length |
| `Crawler.AlignedExactlyIfServedFirst` | background/dispatcher.go:628-663 | pairing by position is right if and only if no origin without a route precedes one with a route |
| `Crawler.EqualLengthsMeanAligned` | background/dispatcher.go:628-663 | as many routes as origins: every origin has its own route at its own position |
| `Pairing.OwnRoutesExactlyIfServedFirst` | background/dispatcher.go:628-663 | for every outcome of the lookups of a shortlist: all selections with that outcome give every candidate its own route, if and only if no driver without a route precedes one with a route |
| `Pairing.FirstDriverGetsSecondRoute` | background/dispatcher.go:628-663 | two eligible drivers, first lookup fails: the result is the first driver with the second one's route |
| `Conversion.PublishedAtMostAsScheduled` | background/scheduled-dispatcher.go:271-358 | however checker runs overlap and whatever is written over orders, conversion publishes an order at most as often as it was stored as scheduled |
| `Conversion.PublishedAtMostOnce` | background/scheduled-dispatcher.go:271-358 | in all runs whose overwrites obey a rule on types each order is published at most once, if and only if the rule never stores Scheduled over Instant |
| `Conversion.OverwritePublishesTwice` | service/order_service.go:1201-1214 | a run with two publications, for every rule that allows it |
| `Conversion.PublishedOnlyAfterConversion` | background/scheduled-dispatcher.go:289-348 | at every moment of every run an order was published at most as often as a compare-and-set had found it Waiting and Scheduled |
| `Conversion.TicksReachEveryOrder` | background/scheduled-dispatcher.go:196-246 | an order waiting throughout the 20 minutes before it is due is selected by 20 ticks in a row |
| `Conversion.ConvertedOnlyInWindow` | background/scheduled-dispatcher.go:229-262 | an order is selected, converted or published only after a moment in which it was Waiting, scheduled and due within the next 20 minutes |
| `Conversion.FailedPublicationIsNotRepeated` | background/scheduled-dispatcher.go:336-345 | a converted order whose publication failed is not published later |
| `DriverSlots.DriverService.UpdateDriverStatusType` | service/driver_service.go:278-372 | writes the status, or nothing when it is already there, with the same outcome |
| `DriverSlots.DriverService.AcceptOrder` | service/driver_service.go:777-862 | accepted exactly if the order is Waiting; then order and driver name each other |
| `DriverSlots.DriverService.AcceptScheduledOrder` | service/driver_service.go:910-958 | succeeds exactly for a waiting, unassigned scheduled order with a due time and a driver with an empty schedule slot; fills the three schedule fields and leaves the current order alone |
| `DriverSlots.DriverService.ActivateScheduledOrder` | service/driver_service.go:1007-1073 | only the driver's own accepted scheduled order, and exactly if the driver's current order, if any, is not on the way, arrived or executing; the driver's status and the order change, no slot does |
| `DriverSlots.DriverService.HandleDriverArrival` | service/driver_service.go:2629-2668 | moves driver and order to arrived, and nothing else, exactly if the order exists |
| `DriverSlots.DriverService.PickUpCustomer` | service/driver_service.go:1382-1405 | moves the driver first, then the order; an unknown order leaves the driver moved |
| `DriverSlots.DriverService.CompleteOrder` | service/driver_service.go:1258-1328 | an instant order empties the current order and keeps the schedule slot; a scheduled one the other way round |
| `DriverRequests.FieldsStayTogether` | service/driver_service.go:2325-2405 | has_schedule, scheduled_time and current_order_schedule_id are set and cleared together in every reachable state if and only if scheduled orders always have a due time |
| `DriverRequests.SlotsOnlyEmpty` | service/driver_service.go:932-958 | no step of any interleaving replaces the order in a schedule slot by another if and only if each driver's own requests are sequential |
| `DriverRequests.ParallelRequestsReplaceSlot` | service/driver_service.go:932-958 | a run in which two acceptances of one driver overwrite each other |
| `DriverRequests.OtherWorkSparesSlot` | service/driver_service.go:1284-1317 | in any run in which a driver's scheduled orders are neither accepted, completed, cancelled nor reset, its schedule slot stays as it is, however many instant orders it completes; and the same with the roles exchanged |
| `DriverRequests.CancellationFreesTheDriver` | service/order_service.go:1131-1163 | a cancellation makes the order's driver idle and empties the slot of the order's type, and nothing else |
| `DriverRequests.ResetEmptiesBothSlots` | service/driver_service.go:2230-2245 | a reset leaves the driver idle with both slots empty |
| `DriverRequests.RedispatchFreesTheOrder` | service/order_service.go:503-537 | a redispatched order waits without a driver and keeps type and due time |
| `DriverRequests.ConversionDuringAcceptance` | service/driver_service.go:1284-1317 | after completion the schedule slot still holds the order if and only if the order was converted between the checks and the compare-and-set of its acceptance |
| `Registry.WebSocketController.RegisterConnection` | controller/websocket_controller.go:181-203 | the new connection is the mapped one, the one it replaces is closed, everything else stays |
| `Registry.WebSocketController.UnregisterConnection` | controller/websocket_controller.go:205-215 | removes the mapping exactly if it is this connection's own |
| `Registry.WebSocketController.ReaderExit` | controller/websocket_controller.go:217-227 | closes the connection once and never evicts a newer one |
| `Registry.WebSocketController.HealthCheck` | controller/websocket_controller.go:386-410 | closes and removes exactly the connections silent for more than 60 s |
| `Registry.WebSocketController.OneOpenConnectionPerUser` | controller/websocket_controller.go:181-203 | in every valid state two open connections of one user are the same connection |
| `Registry.WebSocketController.GetStats` | controller/websocket_controller.go:418-456 | the counters are the exact numbers of connections by type and by fleet |
| `PlaceCache.FirstOccurrencesCorrect` | service/google_place_cache_service.go:29-60 | deduplication keeps the set of tags and their first-occurrence order |
| `PlaceCache.RemoveDuplicates` | service/google_place_cache_service.go:29-60 | the loop with the map computes the first occurrences |
| `PlaceCache.GooglePlaceCacheService.CreateGooglePlaceCache` | service/google_place_cache_service.go:29-78 | succeeds exactly if no record has any of the tags; keeps tag uniqueness |
| `PlaceCache.GooglePlaceCacheService.UpdateGooglePlaceCache` | service/google_place_cache_service.go:101-175 | succeeds exactly if the record exists and its new tags are free or its own; keeps tag uniqueness |
| `PlaceCache.GooglePlaceCacheService.AddTags` | service/google_place_cache_service.go:249-292 | adds each new tag once if all are free or its own; keeps tag uniqueness |
| `PlaceCache.GooglePlaceCacheService.RemoveTags` | service/google_place_cache_service.go:294-317 | removes exactly the given tags |
| `PlaceCache.GooglePlaceCacheService.DeleteGooglePlaceCache` | service/google_place_cache_service.go:226-246 | removes exactly the record |
| `PlaceCache.GooglePlaceCacheService.Upsert` | service/google_place_cache_service.go:396-552 | one record that matches takes every non-empty field of the new data and keeps the others and its tags; without a match a record without tags is inserted; no other record changes |
| `PlaceCache.GooglePlaceCacheService.FindByTagsOrQuery` | service/google_place_cache_service.go:342-375 | a tag lookup finds at most one record; the query is used only if it finds none |
| `PlaceCache.OneOwner` | service/google_place_cache_service.go:342-357 | at most one record owns a tag |
| `PlaceCache.OverlappingCreations` | service/google_place_cache_service.go:29-78 | two creations whose checks both precede both inserts keep uniqueness if and only if they share no tag |
| `PagePools.PagePool.GetPageFromPool` | service/crawler_service.go:282-321 | a borrower gets the oldest pooled page, or a new one, or none; the page was nobody's |
| `PagePools.PagePool.ReturnPageToPool` | service/crawler_service.go:324-346 | a returned page goes to its pool, or is closed when the pool is full or unknown |
| `PagePools.PagePool.SendOrClose` | service/crawler_service.go:303-311 | a page being placed ends in the pool or closed, and no pool exceeds its capacity |
| `PagePools.PagePool.WarmupPages` | service/crawler_service.go:190-203 | a warm-up adds the pages that could be created, up to the capacity, and closes the rest |
| `PagePools.PagePool.Close` | service/crawler_service.go:349-362 | closes exactly the pooled pages |
| `PagePools.PagesAddUp` | service/crawler_service.go:282-346 | the pages ever created are the pooled, borrowed, being placed and closed ones, each counted once; open pages are bounded by the capacities plus the ones out |
| `Blacklist.DriverBlacklistService.AddDriverToBlacklist` | service/driver_blacklist_service.go:42-70 | the stored state agrees, for every pair and every later time, with the history of additions and removals under the pair's key |
| `Blacklist.DriverBlacklistService.IsDriverBlacklisted` | service/driver_blacklist_service.go:73-101 | reports exactly whether the latest event under the pair's key is an unexpired addition |
| `Blacklist.AdditionsAreCovered` | service/driver_blacklist_service.go:32-101 | for any hash function, while pairs are only added, every pair still listed is reported |
| `Blacklist.ReportedMeansListed` | service/driver_blacklist_service.go:32-101 | with any history, a reported pair shares its short hash with an address that is listed |
| `Blacklist.ReportIsListUpToCollisions` | service/driver_blacklist_service.go:32-101 | with additions only, the report is the exact set up to collisions |
| `Blacklist.ListedForTheConfiguredTime` | service/driver_blacklist_service.go:42-51 | an addition holds for exactly the configured minutes, 10 if the setting is not positive |
| `Blacklist.KeysShareEightCharacters` | service/driver_blacklist_service.go:32-39 | two addresses share a key if and only if their hashes agree on the first 8 characters |
| `Blacklist.RemovalKeepsCover` | service/driver_blacklist_service.go:104-125 | a removal loses no listed pair if and only if no other listed address of the driver has the same short hash |
| `Blacklist.ListedDriversAreNoCandidates` | background/dispatcher.go:412-423 | a driver listed for the pickup address is never a candidate while blacklisting is enabled |
| `Notifying.NotifyingOrderCache.RecordNotifyingOrder` | background/dispatcher.go:1658-1729 | the stored record and lifetime are those of the driver's latest push |
| `Notifying.NotifyingOrderCache.CheckNotifyingOrder` | service/driver_service.go:1742-1801 | answers as the rule "latest push less than 19 whole seconds ago", after any sequence of pushes |
| `Notifying.RemainingOnlyShrinks` | service/driver_service.go:1766-1788 | the remaining time shown is 1 to 19 s, never grows, and a vanished order does not come back without a new push |
| `Notifying.RemainingTimeIsRight` | service/driver_service.go:1766-1795 | the notice names the order of the driver's latest push, with a remaining time that is off by less than a second |
| `Notifying.VisibleForNineteenSeconds` | service/driver_service.go:1766-1788 | an order is shown for at least 18 s and less than 19 s after its push |
| `Notifying.LifetimeNeverCutsShort` | background/dispatcher.go:1712-1714 | a lifetime in Redis hides an order the rule still shows if and only if it is below 19 s |

## Left out

- Wait mode without an event manager (background/dispatcher.go:1469): polls the order once a second; the event-driven wait has the harder behaviour.
- Early exits of `handleOrder` (find error, no candidates): they fail the order without reading it again, so `NoAcceptanceIsLost` speaks of the dispatch result only; the model has the exits.
- Contents of messages and notifications (Discord, LINE, FCM, SSE, RabbitMQ), JSON, MD5 and Haversine: a push succeeds or fails, a hash and a distance are arbitrary functions.
- Process restarts and `FlushAll`: every lease is gone after one, so lease properties hold between restarts.
- Redis keys are constructors, not text: that different kinds of keys never collide is taken from their prefixes.
- WaitLoop.WaitForDriverResponse: a channel that is closed (a nil message) is not modelled; how long handlers take and how many draws a ready case loses are parameters.
- Dispatcher.AwaitDriverResponse: subscriptions and tickers are not resources of the model; only locks are.
- RejectLog.LogsStayOk: runs without lock errors and without a whole-document replacement of the order's log; the code goes on without the lock when Redis errs (background/dispatcher.go:1515-1521), and a replacement can undo an append.
- Accept.AcceptanceIsExclusive: writes of a winning call succeed and a driver's own requests are sequential; a deleted order is not created again under its identifier.
- A driver may hold two instant orders one after the other: `AcceptOrder` does not check the driver's status, and no property here claims otherwise.
- DriverSlots.DriverService.AcceptScheduledOrder: the driver's document is read at the start of the request, not earlier in the authentication; log entries and notifications are not modelled.
- DriverRequests.SlotsOnlyEmpty: writes succeed; a crashed request just stops where it is, which the interleavings include.
- PlaceCache.GooglePlaceCacheService.Upsert: one member for the three caching operations, which differ in their match fields; the text they copy is not parsed.
- Overlapping place-cache requests: tag uniqueness is for sequential requests; OverlappingCreations says when overlapping creations keep it.
- PagePools.PagePool.WarmupPages: states the outcome of one undisturbed warm-up goroutine; under interference only conservation is claimed.
- Notifying.NotifyingOrderCache.RecordNotifyingOrder: a failed write to Redis is a push that is not in the sequence.
- `CalcArrivalDeviation`, `batchSendScheduleExpiryNotifications`, `BuildCandidatesFromCache`, `buildOrderInfo`: arithmetic or formatting that would only add easy members.
- `ResetDriverStatusByName` and profile updates: single writes that touch no slot.
- Go integer widths and time.Duration overflow: all quantities are far from their limits.
- Chat, SSE broadcast, roles, dashboards, HTTP routing, JWT, tracing, metrics, file upload: plumbing or thin queries.
