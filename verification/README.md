# Booking, inventory and payments: a verified model

This project models the stateful core of the flight-booking back end and proves what it keeps over whole runs.

- **Booking pipeline.** `Saga.dfy` gives the steps of one booking saga: what each stores, emits and remembers, and where a
  failure leaves the rows and the in-memory copy, and what overlapping completions and cancellations of one booking do, each
  from the row it has read. `BookingSystem.dfy` interleaves sagas, completions and cancellations of any number of bookings
  between their reads, transactions and lock calls, `SharedLocks.dfy` adds the seat locks they share, `BookingAttempt.dfy`
  runs one whole booking request with a failure at every step, `Orchestrator.dfy` is the imperative form of the orchestrator
  and the booking service.
- **Outbox and inventory.** `Outbox.dfy` is the outbox worker, `Flight.dfy` the seat counters, the plain seat service and the
  deduplicating event handler with concurrent deliveries. `EndToEnd.dfy` joins bookings, outbox, broker and inventory.
- **Seat locks.** `SeatLock.dfy`: two key families with expiry, the all-or-nothing lock script, release, extension, queries.
- **Payments.** `Payments.dfy` (operations), `PaymentBooks.dfy` (ledger), `PaymentRuns.dfy` (captures, refund status),
  `PaymentAnswers.dfy` (what is stored and answered for what the gateway said), `Idempotency.dfy`, `Webhooks.dfy`, and
  `PaymentServices.dfy`, the imperative form over one database.
- **Rate limiter.** `RateLimiter.dfy`: the sliding-window log and the block key.

The source works by changing objects and tables step by step, so each service is a class whose methods are proved equal to a
specification function of the state before the call; runs are sequences of those functions, and the theorems are about them.
The key handling that the payment and refund services each carry is one class here. `EndToEnd.dfy` lets any pending outbox row
be attempted at any time; `EndToEnd.TickIsARun` shows that a tick of `Outbox.dfy` is such a run.

## What the model takes for granted

- *Transactions.* A transaction commits whole or stores nothing. Payment transactions run one after the other. In the saga a
  fault is `Early` (the transaction never opens, nothing in memory has changed) or `Late` (after the in-memory saga object has
  changed; that object is not rolled back). In a completion `Late` is the lock release failing after the commit. Two
  transactions on one booking commit one after the other, since they write the same rows, and each writes the saga row from
  its own copy.
- *Saga ordering.* `completeBooking` and `cancelBooking` for a booking begin when no `executeBookingSaga` for it is running, and
  find a booking row first; among themselves they overlap in any way, on one booking or several. A process may crash, and a
  call may be lost, between any two of these steps.
- *Locks.* One clock; the lock script is atomic and a lock call that throws has had no effect; `releaseSeats`, a read followed
  by a delete, is one step, and so is `extendLock`; a key is visible until the instant its time to live has run out. Case
  folding and trimming are those of ASCII.
- *Broker.* A message that was accepted can be delivered any number of times, in any order, to concurrent handlers; a failed
  handler puts it back. A publication can fail after the broker has the message.
- *Identifiers* are fresh numbers; request hashes are compared as the requests themselves; creation order is table order.
- *Rate limiter.* Configuration fixed per key, clock not going back, set members distinct, durations whole seconds; a call of
  `consume`, a read of the block, the script and the setting of a block, is one step. A zero-second block makes the store refuse
  the block entry; the limiter then lets the call through, as its error path does.
- *Inventory handler.* `FlightEventHandler` is modelled as its class is written, although
  `apps/flight-service/src/modules/flight/flight.module.ts:52` does not list it among the providers.

## Where the code is weaker than it looks

Each point is a theorem; where the code meets its promise only sometimes, the theorem says exactly when.

- Seats drift from bookings, in the end only ever towards giving seats away (`EndToEnd.SeatConservation`). A move gives seats away
  when a completion commits on a row that holds none (`Saga.CompletionAfterCancellation`), or a compensation releases what its
  row does not hold: because the reservation failed after the in-memory step counter moved
  (`Saga.LateFailureReleasesTheUnreserved`), or because another cancellation has released it since the row was read
  (`Saga.OverlappingCancellations`). A booking that was reserved conserves its seats exactly when no move gives any away; one
  completed without ever being reserved can also be cancelled without a release (`Saga.DriftLaw`).
- Overlapping payment events that read the same row confirm more than once (`Saga.OverlappingCompletions`).
- A cancellation gives its seat locks away before it commits, whether or not it ever does: two live sagas can then hold the same
  seats (`SharedLocks.AbortedCancellationGivesSeatsAway`); locks granted just before the saga's next transaction fails to open
  stay until they run out (`BookingAttempt.NoLockLeft`).
- Extending a lock moves the time to live but not the recorded expiry: exclusion breaks exactly between the two
  (`SeatLock.ExclusionBreaksExactlyWhen`), and the first booking's release then frees the second one's seats. Seats are
  validated normalised and locked raw (`SeatLock.SpellingsClash`); requests in normal spelling are safe
  (`SeatLock.NormalRequestsExclude`).
- A client that uses a webhook's idempotency key for a confirmation of its own keeps that event from ever being marked
  (`Webhooks.MarkedExactlyWhenAnswered`).
- The class in the booking row and the class charged differ when only a seat preference names one (`Saga.ChargedClass`).
- `docs/payment-system-design.md:118` promises ledger rows for all money movement. An intent the gateway answers with
  `succeeded` is confirmed without any; refunding it drives the account negative (`PaymentRuns.NegativeExactlyWhen`).
- An error on an idempotency key re-marks a completed record, and the next call adds a second row (`Idempotency.ForgottenKeyRepeats`).
- A block shorter than the window refuses the returning caller again (`RateLimiter.ShortBlockRefusesAgain`).

## Model

| member | source | states |
|---|---|---|
| EndToEnd.ExactlyOnce | apps/flight-service/src/modules/flight/flight.event-handler.ts:40-201 | In every reachable state of bookings, outbox, broker and concurrent handlers, each counter equals its initial value minus processed reserves plus processed releases, each event counted once, and no counter goes below zero |
| EndToEnd.SeatAccounting | apps/booking-service/src/booking-saga/saga-orchestrator.service.ts:222-436 | Once the events of a counter are processed it stands at its initial value minus the seats of reserved or confirmed bookings plus the drift, over every run, overlapping calls on one booking included |
| EndToEnd.SeatConservation | apps/booking-service/src/booking-saga/saga-orchestrator.service.ts:272-436 | A settled counter never falls short of its initial value minus the seats of reserved or confirmed bookings, and equals it if and only if for every booking on it as many moves have kept seats back as have given seats away |
| EndToEnd.TickIsARun | apps/booking-service/src/outbox/outbox.service.ts:50-80 | A tick of the worker is a run of publications in the pipeline and leaves the rows of the specified tick |
| EndToEnd.DrainedThenSettled | apps/booking-service/src/outbox/outbox.service.ts:50-148 | From any reachable state, after P/100+m ticks nothing is pending, every event has failed its retries or is with the broker, and the counters are settled once none has failed and the broker's messages are processed |
| EndToEnd.PublishedThenSettled | apps/booking-service/src/outbox/outbox.service.ts:82-127 | From any reachable state in which nothing has failed, P/100+m ticks whose publications succeed leave every row published and with the broker, none failed, and the counters settled once the broker's messages are processed |
| EndToEnd.NoMessageIsLost | apps/flight-service/src/modules/flight/flight.event-handler.ts:40-201 | In every run an accepted message is in a queue or with a handler until its event is processed |
| EndToEnd.DeliveredExactlyWhenAppliable | apps/flight-service/src/modules/flight/flight.event-handler.ts:54-93 | After any run one undisturbed delivery of an accepted, unprocessed message processes its event iff the service has what it needs: for a reserve, iff its counter covers it |
| EndToEnd.RowsAlwaysFit | apps/booking-service/src/outbox/outbox.service.ts:82-127 | In every run each event has one row, none rests in PROCESSING, and a published one is with the broker |
| EndToEnd.NoOverselling | apps/flight-service/src/modules/flight/flight.event-handler.ts:66-80 | Seats held on a flight and class never exceed its initial seats by more than the drift, once the counter's events are processed |
| EndToEnd.BookingSide | apps/booking-service/src/outbox/outbox.service.ts:23-47 | Publishing and delivery never influence the booking side of a run |
| BookingSystem.Projection | apps/booking-service/src/booking-saga/saga-orchestrator.service.ts:42-102 | Inside any interleaving a booking behaves as if it ran alone on its own steps, and its events in the shared log are those it emits alone |
| BookingSystem.EventsCarryTheRequest | apps/booking-service/src/booking-saga/saga-orchestrator.service.ts:237-248 | In every run each event of the shared log carries its booking's flight, the seats its request says or names, and its class or economy, and the booking row is for as many seats |
| BookingSystem.DriftByBooking | apps/booking-service/src/booking-saga/saga-orchestrator.service.ts:272-436 | The drift of a counter is never negative, and zero iff it is zero for every booking on the counter |
| BookingSystem.LogSplitsByBooking | apps/booking-service/src/booking-saga/saga-orchestrator.service.ts:237-248 | The seats taken by the shared log are the sum, booking by booking, of what each booking's events take |
| BookingSystem.RowsAgainstEvents | apps/booking-service/src/booking-saga/saga-orchestrator.service.ts:375-426 | Taken booking by booking, the events never take more than the rows hold, and equality in sum is equality for each |
| BookingSystem.EveryBookingConsistent | apps/booking-service/src/booking-saga/saga-orchestrator.service.ts:117-162 | In every interleaving, overlapping calls on one booking included, both rows of every booking agree and its events fit the rows and what its calls have read |
| BookingSystem.EventsAccountForRows | apps/booking-service/src/booking-saga/saga-orchestrator.service.ts:232-256 | Stored reserves minus stored releases equal the seats of reserved or confirmed rows minus the drift |
| BookingSystem.StepAccounts | apps/booking-service/src/booking-saga/saga-orchestrator.service.ts:386-426 | One step changes the log's seats and the rows' seats by the same amount, up to its own drift |
| Saga.RowsAlwaysAgree | apps/booking-service/src/booking-saga/saga-orchestrator.service.ts:107-436 | In every committed state of every run with failures, crashes and overlapping calls: BOOKING_CONFIRMED iff BOOKED and paid, COMPENSATED iff CANCELLED, FLIGHT_RESERVED iff PENDING, earlier steps INITIATED or no row, COMPENSATING never stored |
| Saga.MovesKeepConsistent | apps/booking-service/src/booking-saga/saga-orchestrator.service.ts:107-436 | Every step, with every failure, keeps the rows in agreement and the in-memory copy in its known relation to them |
| Saga.EventLanguage | apps/booking-service/src/booking-saga/saga-orchestrator.service.ts:222-436 | A booking's inventory events are an optional reserve, then confirms and releases; once reserved, an event repeats the one before it exactly as often as a call commits what another has committed; they strictly alternate if no call commits from a row changed since it was read |
| Saga.MovesKeepEventsFit | apps/booking-service/src/booking-saga/saga-orchestrator.service.ts:284-335 | Every step keeps the emitted events in line with the saga row and with what pending cancellations have read |
| Saga.OneConfirm | apps/booking-service/src/booking/booking-payment.handler.ts:31-43 | From a reserved booking nobody cancels, any run of payment events, overlapping or not, yields one confirm per completion that commits, and all but the first of these repeat a commit: exactly one confirm iff one commits and none repeats |
| Saga.WithoutCancel | apps/booking-service/src/booking-saga/saga-orchestrator.service.ts:284-290 | On a reserved or confirmed booking nobody cancels, a confirm is emitted exactly by a committing completion, and it repeats iff the booking is confirmed already |
| Saga.MoveAccounts | apps/booking-service/src/booking-saga/saga-orchestrator.service.ts:232-426 | A step changes the seats a booking holds by the net of its events plus its drift, which its guard tells before it commits |
| Saga.RowKeepsRequest | apps/booking-service/src/booking-saga/saga-orchestrator.service.ts:120-145 | In every run the booking row is for the seats and the class of its request |
| Saga.NoticesFit | apps/booking-service/src/booking-saga/saga-orchestrator.service.ts:155-161 | In every run a booking is announced once iff its row exists, and confirmed to the customer once per committed completion |
| Saga.DriftLaw | apps/booking-service/src/booking-saga/saga-orchestrator.service.ts:375-436 | Over every run of a booking, what it holds minus the net of its events is the moves that give seats away less those that keep them back, never negative; once reserved, none keeps any back, so it is zero iff none gives any away |
| Saga.LateFailureReleasesTheUnreserved | apps/booking-service/src/booking-saga/saga-orchestrator.service.ts:249-262 | A reservation failing after its in-memory change leads to a release with no reserve |
| Saga.CompletionAfterCancellation | apps/booking-service/src/booking-saga/saga-orchestrator.service.ts:284-290 | Completing a cancelled booking books it after its seats were released |
| Saga.OverlappingCompletions | apps/booking-service/src/booking-saga/saga-orchestrator.service.ts:276-303 | Two payment events that both read the reserved row confirm twice |
| Saga.OverlappingCancellations | apps/booking-service/src/booking-saga/saga-orchestrator.service.ts:357-404 | Two cancellations that both read the reserved row release its seats twice and drift by one block |
| Saga.ChargedClass | apps/booking-service/src/booking-saga/saga-orchestrator.service.ts:120-129 | The class in the events equals the class in the row unless a preference alone names another class |
| SharedLocks.LocksAlwaysFit | apps/booking-service/src/booking-saga/saga-orchestrator.service.ts:177-217 | In every interleaving the lock store agrees with itself and with the lock history of every booking |
| SharedLocks.LiveSagasHoldDisjointSeats | apps/booking-service/src/booking-saga/saga-orchestrator.service.ts:189-206 | Two bookings in SEATS_LOCKED or FLIGHT_RESERVED on one flight, with locks that have not run out and whose release no call has reached, name disjoint seats |
| SharedLocks.GrantedExactlyWhenReleased | apps/booking-service/src/booking-saga/saga-orchestrator.service.ts:406-410 | When a cancellation takes its lock release step the booking stays stored as it was, and a newcomer, the next booking included, is granted its seats iff the release succeeds |
| SharedLocks.AbortedCancellationGivesSeatsAway | apps/booking-service/src/booking-saga/saga-orchestrator.service.ts:408-427 | From any state where a settled booking counts on its locks, a cancellation that releases and aborts leaves it as it was, and the run in which the next booking asks for the same seats ends with both holding them |
| BookingAttempt.AllOrNothing | apps/booking-service/src/booking/booking.service.ts:21-49 | With a failure at any step and compensation succeeding, a booking request ends with no booking, PENDING with one reserve, BOOKED with one confirm, or CANCELLED; it succeeds iff nothing failed; releases match reserves iff the reservation did not fail late |
| BookingAttempt.SagaOutcome | apps/booking-service/src/booking-saga/saga-orchestrator.service.ts:79-83 | Exactly when the saga goes through, what it has emitted, and what it leaves |
| BookingAttempt.NoLockLeft | apps/booking-service/src/booking/booking.service.ts:194-226 | A request ending booked or cancelled holds no lock and leaves all other locks as they were, except exactly when its locks were granted and the transaction to store them never opened |
| BookingAttempt.SagaIsARun | apps/booking-service/src/booking-saga/saga-orchestrator.service.ts:42-102 | The sequential saga with any faults is a run of moves, with the same rows, events and lock releases |
| BookingAttempt.AttemptIsARun | apps/booking-service/src/booking/booking.service.ts:21-49 | A whole attempt, payment and rollback included, is a run of moves with the same rows, events and lock releases |
| BookingAttempt.AttemptInsideAnyRun | apps/booking-service/src/booking/booking.service.ts:21-49 | In any interleaving where a booking has made the moves of an attempt, its rows and its events in the shared log are those of the attempt |
| BookingAttempt.CompletionAlone | apps/booking-service/src/booking-saga/saga-orchestrator.service.ts:272-351 | A completion that nobody interferes with is the completion from the row as it stands |
| BookingAttempt.CancellationAlone | apps/booking-service/src/booking-saga/saga-orchestrator.service.ts:356-436 | A cancellation that nobody interferes with is the cancellation from the row as it stands |
| Orchestrator.BookingSagaOrchestrator.ExecuteStep1 | apps/booking-service/src/booking-saga/saga-orchestrator.service.ts:107-172 | The tables and the saga object after step 1, with and without failure |
| Orchestrator.BookingSagaOrchestrator.ExecuteStep2 | apps/booking-service/src/booking-saga/saga-orchestrator.service.ts:177-217 | Step 2: guard, lock call, saving, and compensation of each failure, over tables, locks and memory |
| Orchestrator.BookingSagaOrchestrator.ExecuteStep3 | apps/booking-service/src/booking-saga/saga-orchestrator.service.ts:222-267 | Step 3: the transaction, its rollback that spares the saga object, and compensation |
| Orchestrator.BookingSagaOrchestrator.SaveLocked | apps/booking-service/src/booking-saga/saga-orchestrator.service.ts:200-206 | The transaction of step 2, which leaves the saga object changed when it fails late |
| Orchestrator.BookingSagaOrchestrator.Compensate | apps/booking-service/src/booking-saga/saga-orchestrator.service.ts:375-436 | Compensation by the row as the call holds it, whatever the stored row has become since, and what an abort early or late leaves |
| Orchestrator.BookingSagaOrchestrator.CompleteFrom | apps/booking-service/src/booking-saga/saga-orchestrator.service.ts:284-339 | Completion by the row as the call holds it, whatever the stored row has become since |
| Orchestrator.BookingSagaOrchestrator.CompleteBooking | apps/booking-service/src/booking-saga/saga-orchestrator.service.ts:272-351 | Reading the row and completing from it, uninterrupted, unknown sagas included |
| Orchestrator.BookingSagaOrchestrator.CancelBooking | apps/booking-service/src/booking-saga/saga-orchestrator.service.ts:356-370 | Reading the row and compensating from it, uninterrupted, unknown sagas included |
| Orchestrator.BookingSagaOrchestrator.ExecuteBookingSaga | apps/booking-service/src/booking-saga/saga-orchestrator.service.ts:42-102 | The imperative saga leaves tables and locks exactly as the specified attempt does |
| Orchestrator.BookingService.CreateBooking | apps/booking-service/src/booking/booking.service.ts:21-49 | A booking request refines the attempt that AllOrNothing is about |
| Orchestrator.BookingService.PrepareBookingForPayment | apps/booking-service/src/booking/booking.service.ts:194-226 | Payment initiation, automatic completion and rollback |
| Orchestrator.BookingService.CompleteBookingFromPaymentEvent | apps/booking-service/src/booking/booking.service.ts:68-87 | A payment event without transaction id or booking row changes nothing; otherwise it is a completion |
| Orchestrator.BookingService.CancelBooking | apps/booking-service/src/booking/booking.service.ts:89-113 | A cancellation without booking row changes nothing; otherwise it compensates |
| Orchestrator.BookingService.CheckSeatAvailability | apps/booking-service/src/booking/booking.service.ts:166-180 | Every queried seat is available iff its lock is not live, and all are iff none is |
| Outbox.PendingIdsAreTheBatch | apps/booking-service/src/outbox/outbox.service.ts:50-60 | The query yields exactly the oldest 100 pending rows, in order |
| Outbox.TickPublishesExactly | apps/booking-service/src/outbox/outbox.service.ts:82-148 | After a tick a batch row is published, its retries as they were, iff its publication succeeds; otherwise it has spent a try and failed iff that was the last; all other rows are as they were |
| Outbox.SuccessPublishesAll | apps/booking-service/src/outbox/outbox.service.ts:50-127 | From rows at rest of which none has failed, P/100+m quiet ticks whose publications succeed publish every row |
| Outbox.ThreeTries | apps/booking-service/src/entities/outbox-event.entity.ts:43-44 | A stored event that never succeeds fails at its third try, not before |
| Outbox.OutboxService.StoreEvent | apps/booking-service/src/outbox/outbox.service.ts:23-47 | A stored event is a fresh pending row at the end |
| Outbox.OutboxService.PublishEvent | apps/booking-service/src/outbox/outbox.service.ts:82-148 | One attempt: published with its retries as they were iff the publication succeeds, else pending again, or failed when its retries are spent |
| Outbox.OutboxService.MoveToDeadLetterQueue | apps/booking-service/src/outbox/outbox.service.ts:150-177 | The row is failed and no other row changes |
| Outbox.OutboxService.PublishPendingEvents | apps/booking-service/src/outbox/outbox.service.ts:50-80 | The loop attempts exactly the rows of the batch, each once, and publishes exactly those whose publication succeeds |
| Outbox.NoStarvation | apps/booking-service/src/outbox/outbox.service.ts:50-72 | A pending row is attempted once the ticks outnumber the batches of attempts left on older rows, whatever fails or arrives |
| Outbox.AttemptedInTime | apps/booking-service/src/outbox/outbox.service.ts:128-142 | Behind k older pending rows with at most m attempts left each, a row is attempted within floor(m*k/100)+1 ticks |
| Outbox.Drains | apps/booking-service/src/outbox/outbox.service.ts:50-80 | With nothing new stored, P attempts left and at most m per row, nothing is pending after P/100+m ticks |
| Outbox.TickSpends | apps/booking-service/src/outbox/outbox.service.ts:50-80 | A tick spends an attempt for every batch row in every prefix of the table |
| Outbox.FailsOnlyWhenSpent | apps/booking-service/src/outbox/outbox.service.ts:128-148 | In every run a pending row has retries left and a failed one has used exactly all of them |
| Flight.DeduplicationRefinesPlainService | apps/flight-service/src/modules/flight/services/flight.service.ts:57-113 | Under duplicated, reordered, retried and concurrent deliveries the counters are those the plain service leaves on the distinct first successful deliveries, in order |
| Flight.BalancedStep | apps/flight-service/src/entities/processed-events.entity.ts:9-10 | Every handler step, with check and transaction apart, keeps the exactly-once balance and keeps counters nonnegative |
| Flight.ServeMoves | apps/flight-service/src/modules/flight/services/flight.service.ts:57-113 | One accepted event moves exactly the counter of its flight and class, by its seats, and never below zero |
| Flight.AcceptedExactlyWhen | apps/flight-service/src/modules/flight/services/flight.service.ts:57-113 | A reservation is accepted iff its flight and class are known and the counter covers it, down to the last seat; a release iff its class is known; each refusal has its reason |
| Flight.ClassNamesItsCounter | apps/flight-service/src/modules/flight/services/flight.service.ts:115-129 | The four class names reach four counters: an accepted reservation or release moves the one its class names, and no other |
| Flight.DeliveryIsApplied | apps/flight-service/src/modules/flight/flight.event-handler.ts:40-201 | One undisturbed delivery processes an unprocessed event iff it is appliable, and else leaves the database as it was |
| Flight.ActionsLoseNothing | apps/flight-service/src/modules/flight/flight.event-handler.ts:54-104 | No step of broker or handlers loses an accepted message |
| Flight.AppliedOnceMore | apps/flight-service/src/modules/flight/flight.event-handler.ts:54-93 | A committing transaction extends the sequence of events applied once by its own, new event |
| Flight.FlightService.Reserve | apps/flight-service/src/modules/flight/services/flight.service.ts:57-88 | Accepted iff flight and class are known and the counter covers the seats; each of the three refusals changes no counter |
| Flight.FlightService.Release | apps/flight-service/src/modules/flight/services/flight.service.ts:98-113 | Release, with the unknown class refused and the unknown flight a no-op |
| Flight.FlightEventHandler.SaveProcessed | apps/flight-service/src/entities/processed-events.entity.ts:9-10 | A duplicate processed row rolls the seat change back |
| Flight.FlightEventHandler.ReserveTransaction | apps/flight-service/src/modules/flight/flight.event-handler.ts:58-93 | Seat change and processed row, or nothing; it commits iff the counter covers the seats and the event is new |
| Flight.FlightEventHandler.ReleaseTransaction | apps/flight-service/src/modules/flight/flight.event-handler.ts:172-191 | Seat change and processed row, or nothing |
| Flight.FlightEventHandler.Handle | apps/flight-service/src/modules/flight/flight.event-handler.ts:40-201 | A processed event changes nothing; another runs its kind's transaction |
| SeatLock.IndexesAgree | libs/seat-lock/src/seat-lock.service.ts:46-105 | In every run of locks, releases and waits every live booking entry owns its seats until the same instant, and every live seat is listed by its owner |
| SeatLock.Exclusion | libs/seat-lock/src/seat-lock.service.ts:53-72 | Live bookings on a flight have disjoint seats |
| SeatLock.LockAllOrNothing | libs/seat-lock/src/seat-lock.service.ts:46-152 | A first lock call takes every seat or changes nothing; it is refused iff some seat has a live lock; other locks are untouched |
| SeatLock.ReleaseExact | libs/seat-lock/src/seat-lock.service.ts:154-179 | Release removes exactly the locks the booking owns on the flight |
| SeatLock.LockThenRelease | libs/seat-lock/src/seat-lock.service.ts:20-179 | A granted lock followed by its release restores what was visible |
| SeatLock.LiveSeatsAreTaken | libs/seat-lock/src/seat-lock.service.ts:57-72 | The failed seats of a first lock call are exactly the requested seats with a live key |
| SeatLock.AvailabilityMatchesLock | libs/seat-lock/src/seat-lock.service.ts:212-229 | The availability query reports exactly the seats a lock would fail on, and the lock is granted iff it reports none |
| SeatLock.GrantedForFifteenMinutes | libs/seat-lock/src/seat-lock.service.ts:16-152 | A granted first lock lasts 900 seconds to the millisecond, as its caller is told, and a repeated call meanwhile answers with the first call's seats and expiry and changes nothing |
| SeatLock.NothingAskedNothingLocked | libs/seat-lock/src/seat-lock.service.ts:107-115 | A request without seats is granted and locks nothing |
| SeatLock.RejectedExactlyWhen | libs/seat-lock/src/seat-lock.service.ts:239-260 | A lock call is rejected, with the store as it was, iff its request names a seat twice in any spelling or something that is no seat number |
| SeatLock.SeatNumbersAre | libs/seat-lock/src/seat-lock.service.ts:249-253 | A seat number is a row from 1 to 999 without leading zeros and a letter |
| SeatLock.BlanksAside | libs/seat-lock/src/seat-lock.service.ts:244-244 | Blanks around a seat number do not count |
| SeatLock.RefusedOnlyByOthers | libs/seat-lock/src/seat-lock.service.ts:57-72 | In any state only a live lock of another booking, before its recorded expiry, refuses a seat |
| SeatLock.ExtensionAddsSeconds | libs/seat-lock/src/seat-lock.service.ts:193-205 | An extension adds exactly its seconds to what is left, rounded to whole seconds; a key in its last half second runs out |
| SeatLock.ExtensionIsOfItsBooking | libs/seat-lock/src/seat-lock.service.ts:181-210 | An extension moves the keys of its booking alike, touches no other key and no recorded content |
| SeatLock.GrantedFromTheFirstExpiry | libs/seat-lock/src/seat-lock.service.ts:181-210 | While an extended lock lives on, another booking is granted its seats if and only if the first expiry has passed |
| SeatLock.ExclusionBreaksExactlyWhen | libs/seat-lock/src/seat-lock.service.ts:181-210 | After an extension two live bookings share the seats exactly from the first expiry until the extended one |
| SeatLock.ReleaseAfterExtensionFreesTheSecond | libs/seat-lock/src/seat-lock.service.ts:164-173 | The first booking's release then deletes the second one's seat keys and leaves its booking key |
| SeatLock.ExtensionBreaksExclusion | libs/seat-lock/src/seat-lock.service.ts:181-210 | One such state, as an instance |
| SeatLock.NormalRequestsExclude | libs/seat-lock/src/seat-lock.service.ts:239-260 | In every run whose requests spell each seat as validation reads it, live bookings hold disjoint physical seats |
| SeatLock.ClashNeedsTwoSpellings | libs/seat-lock/src/seat-lock.service.ts:239-260 | In any state, live bookings meet on one physical seat only under different spellings |
| SeatLock.SpellingsClash | libs/seat-lock/src/seat-lock.service.ts:239-260 | Two spellings of one seat are both granted |
| SeatLock.SeatLockService.FindFailed | libs/seat-lock/src/seat-lock.service.ts:53-72 | The script's first loop collects exactly the seats held by others |
| SeatLock.SeatLockService.Eval | libs/seat-lock/src/seat-lock.service.ts:46-105 | The script writes every seat and the booking entry, or nothing |
| SeatLock.SeatLockService.LockSeats | libs/seat-lock/src/seat-lock.service.ts:20-152 | The lock call with validation, replay of a live booking lock, the empty request and the script |
| SeatLock.SeatLockService.ReleaseSeats | libs/seat-lock/src/seat-lock.service.ts:154-179 | The loop deletes the listed seats and the booking entry, as one step |
| SeatLock.SeatLockService.ExtendLock | libs/seat-lock/src/seat-lock.service.ts:181-210 | Times to live move, recorded expiries stay |
| SeatLock.SeatLockService.AreSeatsLocked | libs/seat-lock/src/seat-lock.service.ts:212-229 | Every queried seat maps to whether its key is live |
| PaymentBooks.MoneyConserved | apps/payment-service/src/services/refund.service.ts:78-127 | Over every run with arbitrary gateway answers, faults and webhooks: succeeded refunds never exceed the payment, at most one payment pair exists, debits equal credits, and both accounts net to captured minus refunded |
| PaymentBooks.Shape | apps/payment-service/src/services/payment.service.ts:129-294 | Every operation, however it fails, changes payments, refunds and ledger in one of seven guarded ways |
| PaymentBooks.ChangeKeepsBooks | apps/payment-service/src/services/payment.service.ts:462-511 | Each of those ways keeps the books in balance |
| PaymentBooks.CaptureBalances | apps/payment-service/src/services/payment.service.ts:462-503 | A successful capture keeps the books and leaves exactly one payment pair, even after confirm, fail, confirm |
| PaymentBooks.RefundBalances | apps/payment-service/src/services/refund.service.ts:175-217 | A refund within the ceiling keeps the books, succeeded or not |
| PaymentRuns.CapturedAtMostOnce | apps/payment-service/src/services/payment.service.ts:155-196 | Captures of a payment never exceed one plus its failure reports, and it has a ledger pair iff it was captured |
| PaymentRuns.CapturesAlwaysFit | apps/payment-service/src/services/webhook.service.ts:110-120 | The invariant behind it, tying capture count, failure count, status and ledger in every run |
| PaymentRuns.NegativeExactlyWhen | apps/payment-service/src/services/payment.service.ts:513-527 | An account of a payment is negative iff it was refunded and never captured |
| PaymentRuns.NeverNegative | apps/payment-service/src/services/payment.service.ts:513-527 | If no intent creation is answered with success, no account is ever negative |
| PaymentRuns.RefundOfUnenteredPayment | apps/payment-service/src/services/payment.service.ts:82-101 | The run that does make one negative, for every amount |
| PaymentRuns.StatusesFitExactlyWhen | apps/payment-service/src/services/refund.service.ts:121-125 | An operation keeps every status in line with the refunds iff it is not a failure report on a refunded payment |
| PaymentRuns.IncrementalEqualsRecomputed | apps/payment-service/src/services/payment.service.ts:273-294 | Over runs without such reports REFUNDED iff refunds equal the amount, PARTIALLY_REFUNDED iff strictly between, and recomputing the status changes nothing |
| PaymentAnswers.RefreshRecomputes | apps/payment-service/src/services/payment.service.ts:273-294 | From every state with balanced books, whatever the payment's status, recomputing it brings it in line with its refunds if there are any and changes nothing else; without refunds nothing changes |
| PaymentAnswers.RefundReportRecomputes | apps/payment-service/src/services/webhook.service.ts:126-130 | The same through a delivered event that reports a refund |
| PaymentAnswers.RecomputedAfterAnyRun | apps/payment-service/src/services/payment.service.ts:286-293 | After any run a payment with refunds stands at the status they call for once recomputed, a failure report in between or not |
| PaymentAnswers.RefundedIsPaidBack | apps/payment-service/src/services/refund.service.ts:104-127 | Over every run the refunded total is the sum of the stored refunds the gateway answered with success |
| PaymentAnswers.RefundStoredExactlyWhen | apps/payment-service/src/services/refund.service.ts:47-127 | A refund row is stored iff the call commits, the key is free, the payment is refundable, the amount fits and the gateway answers with a new id; it succeeded iff the gateway said so |
| PaymentAnswers.NotPaidBackMovesNothing | apps/payment-service/src/services/refund.service.ts:112-127 | A refund the gateway declines or does not answer moves no payment, ledger entry or total |
| PaymentAnswers.IntentCreatedExactlyWhen | apps/payment-service/src/services/payment.service.ts:53-101 | A payment row is created iff the call commits, the key is free and the gateway answers with a new id; amount, id and status are those of request and answer |
| PaymentAnswers.CaptureDecides | apps/payment-service/src/services/payment.service.ts:168-194 | A capture under a free key leaves the payment confirmed if it succeeded and failed if it was declined, and the answer is the payment as stored |
| PaymentAnswers.AnswerIsStored | apps/payment-service/src/services/payment.service.ts:434-448 | Whatever a call is answered is what its key then holds |
| PaymentAnswers.KeyInUseRefuses | apps/payment-service/src/services/payment.service.ts:400-416 | A call whose key is in use for another request or in progress is refused and moves nothing |
| Idempotency.RowsPerKey | apps/payment-service/src/services/payment.service.ts:391-460 | In every run the payments (or refunds) under a key number its forgotten completions plus one if its record is completed; no committed record is in progress |
| Idempotency.EveryCall | apps/payment-service/src/services/payment.service.ts:53-98 | Every operation adds a row under a key exactly when it completes that key, and a completed record changes iff the call forgets it (aborted, or another request) |
| Idempotency.AtMostOneRow | apps/payment-service/src/services/refund.service.ts:40-71 | As long as no call forgets the key, at most one row is ever committed under it and its completed record never changes |
| Idempotency.ReplayAnswers | apps/payment-service/src/services/payment.service.ts:405-410 | In every run a repeated call under a completed key returns the stored answer and changes nothing |
| Idempotency.ForgottenKeyRepeats | apps/payment-service/src/services/payment.service.ts:450-460 | After a call on a completed key aborts, the same request commits one more row |
| Idempotency.CallKeepsKeys | apps/payment-service/src/services/payment.service.ts:391-460 | A call leaves every other key's record as it was |
| Idempotency.RowsElsewhere | apps/payment-service/src/services/refund.service.ts:104-118 | A call adds no row under another key |
| Webhooks.ProcessedForGood | apps/payment-service/src/services/webhook.service.ts:40-76 | A processed event stays processed in every longer run and delivering it again changes nothing |
| Webhooks.RedeliveryFinishes | apps/payment-service/src/services/webhook.service.ts:76-88 | After a delivery that captured and then failed anywhere, the next delivery is answered, captures nothing and moves no money |
| Webhooks.CaptureThenConfirm | apps/payment-service/src/services/payment.service.ts:155-164 | Confirming again under the same key after a capture never reaches the gateway, whether or not the key was re-marked |
| Webhooks.ConfirmAnswersExactlyWhen | apps/payment-service/src/services/payment.service.ts:129-241 | A confirmation is answered iff the call neither aborts nor dies, its key is free for the request, and the gateway, if it is asked, answers, with a capture published |
| Webhooks.MarkedExactlyWhenAnswered | apps/payment-service/src/services/webhook.service.ts:72-135 | A delivery marks its event processed iff the payment is known, the worker lives to mark it, and a confirmation, if that is the work, meets those conditions on fault, key record, payment status and gateway answer |
| Webhooks.NoEventIsLost | apps/payment-service/src/services/webhook.service.ts:76-98 | Over every run, an event whose payment has become known is marked by any later delivery without fault whose gateway answers, whatever failed before, as long as no client uses the event's key |
| Webhooks.KeyAlwaysFits | apps/payment-service/src/services/payment.service.ts:391-432 | In every such run the records under an event's key carry its own request |
| Webhooks.EventsHaveKeysOfTheirOwn | apps/payment-service/src/services/webhook.service.ts:115-117 | Distinct events are confirmed under distinct keys |
| PaymentServices.IdempotencyService.Claim | apps/payment-service/src/services/payment.service.ts:391-432 | Fresh, replayed or refused, with a new record in progress and a failed one taken over as it is |
| PaymentServices.IdempotencyService.Complete | apps/payment-service/src/services/payment.service.ts:434-448 | The record completed with its answer, nothing else touched |
| PaymentServices.IdempotencyService.MarkAsFailed | apps/payment-service/src/services/payment.service.ts:450-460 | An existing record is marked failed whatever it said |
| PaymentServices.IdempotencyService.Finish | apps/payment-service/src/services/payment.service.ts:122-126 | Commit, or rollback followed by marking the key |
| PaymentServices.PaymentService.CreatePaymentIntent | apps/payment-service/src/services/payment.service.ts:44-127 | Refines the specified operation, faults included |
| PaymentServices.PaymentService.CreatePaymentLedgerEntries | apps/payment-service/src/services/payment.service.ts:462-511 | One debit and credit pair per payment, the first time only |
| PaymentServices.PaymentService.ConfirmPaymentIntent | apps/payment-service/src/services/payment.service.ts:129-241 | Refines the specified operation, including a failed publication after the commit |
| PaymentServices.PaymentService.MarkPaymentFailedByGatewayId | apps/payment-service/src/services/payment.service.ts:252-271 | The payment found by its gateway id fails, whatever its status |
| PaymentServices.PaymentService.RefreshRefundedStatus | apps/payment-service/src/services/payment.service.ts:273-294 | REFUNDED or PARTIALLY_REFUNDED by the succeeded refunds, whatever the status was, unless there are none |
| PaymentServices.RefundService.CreateRefund | apps/payment-service/src/services/refund.service.ts:34-166 | Refines the specified operation, with key, state and ceiling refusals; without the gateway's success no payment, ledger entry or total moves |
| PaymentServices.RefundService.CreateRefundLedgerEntries | apps/payment-service/src/services/refund.service.ts:175-225 | One pair per refund, the first time only |
| PaymentServices.RefundService.StoreRefund | apps/payment-service/src/services/refund.service.ts:104-127 | The refund row, and for a success the status and ledger pair |
| PaymentServices.WebhookService.ProcessWebhookEvent | apps/payment-service/src/services/webhook.service.ts:102-135 | Dispatch by event type refines the specification |
| PaymentServices.WebhookService.HandleWebhook | apps/payment-service/src/services/webhook.service.ts:32-100 | A delivery: stored once, processed events skipped, marked only after its work is done |
| RateLimiter.RateLimiterService.Eval | libs/rate-limiter/src/rate-limiter.service.ts:63-95 | The script prunes, counts, and adds the call iff the limit is not reached |
| RateLimiter.RateLimiterService.Consume | libs/rate-limiter/src/rate-limiter.service.ts:32-142 | Over every run of calls on a key, of what callers are told: at most `points` are allowed in any window of `duration` seconds, each exactly when no block is live and the window has room, and `remaining` is the room left |
| RateLimiter.RateLimiterService.Decide | libs/rate-limiter/src/rate-limiter.service.ts:41-142 | A call's new state and answer, with block check, script, block setting and the failing zero-second block |
| RateLimiter.SlidingWindowBound | libs/rate-limiter/src/rate-limiter.service.ts:63-95 | For every run and every t, at most `points` accepted calls fall in (t - duration, t] |
| RateLimiter.AcceptedIff | libs/rate-limiter/src/rate-limiter.service.ts:41-95 | A call is accepted iff no block is live and fewer than `points` accepted calls lie in its window |
| RateLimiter.NextCall | libs/rate-limiter/src/rate-limiter.service.ts:70-99 | What one more call in time order adds to a run: the bound over `duration` seconds, when it is allowed, and what remains |
| RateLimiter.AllowedExactlyWhenPassed | libs/rate-limiter/src/rate-limiter.service.ts:102-142 | A caller is told it is allowed exactly when the call passes, and to retry exactly when it is refused |
| RateLimiter.RemainingIsTheRoomLeft | libs/rate-limiter/src/rate-limiter.service.ts:98-98 | `remaining` is the points less the accepted calls in the window, this one included |
| RateLimiter.ConfiguredLengths | libs/rate-limiter/src/rate-limiter.service.ts:99-105 | Block and window have their configured lengths, and `reset` is the whole second in which window or block ends |
| RateLimiter.RunFaithful | libs/rate-limiter/src/rate-limiter.service.ts:70-84 | In every run neither pruning nor the expiry of duration+1 has lost an entry still in the window |
| RateLimiter.FaithfulLater | libs/rate-limiter/src/rate-limiter.service.ts:70-84 | What a later call sees of the log is what it would see of the whole history |
| RateLimiter.BlockHolds | libs/rate-limiter/src/rate-limiter.service.ts:41-61 | Every call before the block's end is met by it and changes nothing |
| RateLimiter.RetryAfterReachesBlockEnd | libs/rate-limiter/src/rate-limiter.service.ts:48-60 | retryAfter is the least whole number of seconds that reaches the block's end |
| RateLimiter.FirstAfterBlock | libs/rate-limiter/src/rate-limiter.service.ts:41-118 | The first call after a block is accepted iff the window has room again |
| RateLimiter.BlockRecovery | libs/rate-limiter/src/rate-limiter.service.ts:102-118 | With a block at least as long as the window and one point or more it always is |
| RateLimiter.ShortBlockRefusesAgain | libs/rate-limiter/src/rate-limiter.service.ts:102-118 | With a shorter block it need not be |

## Left out

- SeatLock.IndexesAgree: over runs without `extendLock`; with it the statement is false, as SeatLock.ExclusionBreaksExactlyWhen shows.
- SeatLock.SeatLockService.ReleaseSeats: the read of the booking key and the delete are one step, so a key that runs out between them is not represented.
- RateLimiter.RateLimiterService.Consume: the block check, the script and the setting of the block are one step.
- RateLimiter.SlidingWindowBound: no manual reset, block or unblock in the run, and no store error besides the zero-second block; the fail-open path lets any number of calls through.
- RateLimiter.BlockRecovery: fractional second durations are not modelled; all configured durations are whole seconds.
- PaymentBooks.MoneyConserved: two overlapping refunds of one payment are not modelled; the source reads the payment without a row lock, and transactions here are serial.
- Outbox.NoStarvation: ticks do not overlap, and no worker dies while a row is PROCESSING (such a row is never picked up again).
- Idempotency.RowsPerKey: records are never cleaned up, and two calls under one key do not overlap.
- EndToEnd.SeatConservation: events without an id are not modelled, nor a completion or cancellation that begins while the booking's own saga is still running.
- That seat numbers stay exclusive after confirmation: completion releases the locks and the lock script does not consult booked seats.
- "Available at most capacity" over all runs: a release may be processed whose reserve never was.
- `cleanupOldEvents`, the dead-letter message itself, and publication order inside a tick beyond table order.
- The idempotency key of `executeBookingSaga`, which no caller passes.
- Ownership checks, booking extension and expiry dates, price and currency conversion, notification payloads.
- Audit logs, failure texts, transaction ids, timestamps and metadata in payment rows; currencies.
- Webhook signature verification, and two deliveries of one event running at once.
- Seat names outside ASCII, and object-key oddities of the source language in the lock map.
- Queries, listings, HTTP, message and queue plumbing, airports, airplanes, authentication.
