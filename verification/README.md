# Concert booking server: a verified model

A booking server sells concert seats from several instances at once. Users wait in a queue, book
a seat for five minutes, pay for it from a point balance, and every booking or payment leaves an
event in an outbox table that a message bus carries to a data platform. This project models those
protocols in Dafny and proves what they guarantee under every interleaving.

## How it is built

| file | content |
|---|---|
| `Common.dfy` | results, error codes, sums over finite maps |
| `Domain.dfy` | the rows and what the domain objects compute on them |
| `Serial.dfy` | the tables; `Alone`: what a request does with nothing beside it; `Replay`: requests one after another |
| `Server.dfy` | the domain objects, repositories, services and use cases as classes, proved to do what `Alone` says |
| `Interleaving.dfy` | book, pay and charge transactions as small programs whose steps interleave |
| `Serializability.dfy` | every interleaving equals the replay of the committed requests in commit order |
| `Progress.dfy` | no wait cycle, no deadlock, every run ends |
| `Solo.dfy` | no spurious failures; an undisturbed transaction does its request alone; every serial history is a run of the step system |
| `Sales.dfy` | no double sale, a sale is final, versions count commits, when schedules agree |
| `Ledger.dfy` | point conservation |
| `Records.dfy` | what committed requests leave in the tables, field by field, and that they leave nothing else |
| `Reservations.dfy` | spacing of reservations, exactly when a booking can be paid, bounded overlap of two reservers |
| `Races.dfy` | exactly one of several rivals wins |
| `Events.dfy` | one outbox row for each committed booking or payment; the transactions and the relay together |
| `Relay.dfy` | outbox, resend job, unreliable bus and consumers as a step system |
| `RowHistories.dfy` | exactly when a cleaned-up row is in the table again |
| `OutboxServices.dfy` | the outbox service, the resend job and the consumers as classes |
| `Deliveries.dfy` | which events are on the bus; a delivery to the data platform consumer has its effect, exactly once without crashes |
| `Resends.dfy` | what a resend achieves, on the tables and in the running relay, and when it first comes |
| `WaitingRoom.dfy` | the sorted waiting set, activation, the exact estimate |
| `ActivationRuns.dfy` | overlapping activation runs of several instances |
| `Estimates.dfy` | the estimate as a bound when activation runs overlap |
| `WaitingServices.dfy` | the token queue service and its repositories as classes |
| `UserQueue.dfy` | the older table-backed queue |

The step system of `Interleaving.dfy` follows PostgreSQL's READ COMMITTED level, the default that
the server uses. A statement sees committed rows only. A versioned write matches no row once the
committed version has moved; if the version still matches and another transaction holds the row,
it waits and is decided again when that transaction ends. The locking read of a point row waits
for the lock holder. Written rows stay private until commit; locks last until commit or rollback.
Uniqueness of a sale comes from the version checks alone: the partial unique index of
`src/infrastructure/concert/entity/concert-booking.entity.ts` compares two string literals and so
covers no row, and the model has no such index.

A run starts from any finite set of requests. Each request carries the values that its clock
readings and its row-id sequence will return. Those values are arbitrary (ids are unused and
distinct), so fixing them at the start loses no run. Nothing relates the clock of one transaction
to the clock of another; where a result needs the two readings inside one call of `seat.book()` to
be in order, it asks for this of the bookings of that seat only (`SeatClocks`). A request that has taken no step is one that has not
arrived yet.

`Server.dfy` and `Interleaving.dfy` meet in `Serial.Alone`: the use-case classes are proved equal
to it, results and errors alike; an undisturbed transaction of the step system is too
(`Solo.SoloIsAlone`), and every interleaving reduces to it. `Events.Joint` runs the transactions and
the relay of `Relay.dfy` together on one outbox.

## What the code does not give

- `paySeat` cannot tell whose reservation the seat is in, so it is not only the latest reserver
  who can pay. `Reservations.PaymentExactly` says exactly who can: the payment of a booking
  succeeds if and only if the booking has not expired at its own reading, the hold of whoever
  reserved the seat last has not ended at the second reading, the seat is not sold and the payer
  can afford it. An old reserver therefore overlaps the new one by at most the gaps between the
  paired readings and by at most the five minutes of the new hold (`Reservations.OverlapBound`);
  both bounds are attained, and beyond the second the payment fails (`Reservations.OverlapAttained`,
  `Reservations.OverlapRun`).
- A booking's schedule is the one requested, which nobody compares with the seat's: a request
  that names an open schedule and a free seat of another commits (`Sales.WrongScheduleCommits`).
  `Sales.ScheduleAgreement` says exactly when bookings and seats agree.
- A cleaned-up outbox row can come back (`Relay.RemovedRowReturns`): a consumer that found the row
  before the clean-up saves it afterwards, and the save inserts it. `RowHistories.BackExactly` says
  for every run that this is the only way back.
- Overlapping activation runs can drop a user whose own token ends between the set and the remove
  of a run (`ActivationRuns.LostWithoutProviso`). `ActivationRuns.DroppedExactly` says exactly when
  a run drops somebody, `ActivationRuns.NoLossExactly` exactly when somebody is safe.
- The table-backed position is too large after a gap in the id sequence
  (`UserQueue.GapOverstates`), while an earlier id's row is not yet visible
  (`UserQueue.OpenRowOverstates`), and later too if a row became visible after one with a later id
  had been activated (`UserQueue.LateRowOverstates`). `UserQueue.PositionIsUpperBound` gives the
  exact condition on the table; `UserQueue.PositionExact` a class of runs that always meet it.
- A resend leaves a row older than its cutoff INIT if the row's transaction committed only after
  the job had taken its list: `Resends.ResendCatchesUp` says that these are exactly the rows left.

## Model

| member | source | states |
|---|---|---|
| `Serializability.Serializable` | src/application/concert/use-case/pay-concert-booking.use-case.impl.ts:28-39 | in every run of any number of book, pay and charge transactions the committed tables equal the committed requests run one after another in commit order, each at most once and with its own readings and ids; aborted ones leave no trace |
| `Serializability.SerializableFrom` | src/application/concert/use-case/book-concert-seat.use-case.impl.ts:23-31 | from any reachable state on, the continuation replays only the newly committed requests on the tables of that state, and the history is only extended |
| `Serializability.CommitSparesOthers` | src/infrastructure/concert/repository/concert-seat.repository.impl.ts:39-50 | a commit by another transaction never changes a row that a live transaction has locked, and what that one has read without locking is unchanged or has a later version |
| `Solo.SerialRunExists` | src/application/concert/use-case/pay-concert-booking.use-case.impl.ts:28-39 | the converse: every order in which some of the requests succeed one after another is the commit order of some run with the same tables |
| `Solo.SoloIsAlone` | src/application/point/use-case/charge-point.use-case.impl.ts:16-20 | whichever way a request is carried on to its end with no other transaction in between, it commits the tables, or aborts with the very error, that it yields alone |
| `Solo.SoloRunExists` | src/application/point/use-case/charge-point.use-case.impl.ts:16-20 | and it can be carried on to its end in this way from every reachable state without locks |
| `Solo.FailuresJustified` | src/domain/concert/service/concert.service.ts:69-127 | no spurious failure: a transaction throws only the error its request would get alone on the tables as they are, or a version conflict when a later commit rewrote a row it had read |
| `Progress.NoWaitCycle` | src/application/concert/use-case/pay-concert-booking.use-case.impl.ts:30-32 | bookings are locked before seats and seats before points, so no chain of waiting transactions of any length closes |
| `Progress.NoDeadlock` | src/application/concert/use-case/pay-concert-booking.use-case.impl.ts:29-39 | while a transaction is unfinished, some transaction can advance, commit or roll back without a crash |
| `Progress.RunsEnd` | src/application/concert/use-case/pay-concert-booking.use-case.impl.ts:29-39 | every run is at most as long as the operations its transactions have left |
| `Progress.StuckMeansFinished` | src/application/concert/use-case/book-concert-seat.use-case.impl.ts:26-31 | a run that cannot go on has finished every transaction |
| `Sales.NoDoubleSale` | src/domain/concert/service/concert.service.ts:93-127 | in every reachable state a seat is paid exactly when it has one and only one paid booking and one and only one payment, which agree on user, booking, concert, schedule and the seat's own price; otherwise it has none |
| `Sales.ReplayConsistent` | src/application/concert/dto/pay-concert-booking.use-case.dto.ts:42-52 | all requests keep the agreement of seats, bookings and payments that makes a sale unique |
| `Sales.SoldIsFinal` | src/domain/concert/model/concert-seat.domain.ts:19-41 | once a seat is paid, no continuation changes its row or pays another booking of it |
| `Sales.VersionCountsCommits` | src/infrastructure/concert/repository/concert-seat.repository.impl.ts:39-50 | a seat's version rises by one for each committed transaction that wrote it and by nothing else |
| `Sales.ScheduleAgreement` | src/application/concert/use-case/book-concert-seat.use-case.impl.ts:24-28 | bookings and seats agree on the schedule after a run if and only if every committed booking request named the seat's own schedule |
| `Sales.WrongScheduleCommits` | src/application/concert/use-case/book-concert-seat.use-case.impl.ts:24-28 | every request that names an open schedule and a free seat of another schedule has a run that commits it and leaves the two in disagreement |
| `Ledger.PointsConserved` | src/domain/point/service/point.service.ts:25-68 | in every run each balance moves by the charges minus the uses recorded, uses equal the payments' prices, and a balance never becomes negative |
| `Ledger.BalanceFromLedger` | src/domain/point/model/point.domain.ts:17-35 | from empty ledgers: balance = opening + charges - uses, at least zero, and uses = payments |
| `Records.RowsKeepTheirFields` | src/infrastructure/concert/mapper/concert-seat.mapper.ts:20-31 | in every reachable state a seat differs from the starting one at most in isPaid, reservedUntil and version, a booking at most in isPaid and version, a point row at most in its amount; histories, payments and outbox rows never change and no row is missing |
| `Records.CommitsOnRecord` | src/application/concert/dto/pay-concert-booking.use-case.dto.ts:42-52 | after any run every committed booking, payment and charge has its rows under its ids, each field the one that the request, the booking or the seat gives, and the outbox message carries the row as it was committed |
| `Records.NothingElseInserted` | src/application/concert/use-case/pay-concert-booking.use-case.impl.ts:29-39 | a booking, history, payment or outbox row is in the tables after a run exactly if it was there before or a committed request inserted it under one of its own ids |
| `Reservations.ReservationSpacing` | src/domain/concert/model/concert-seat.domain.ts:19-29 | successive committed bookings of a seat are at least five minutes apart in their own readings, n further on n times that, without synchronised clocks |
| `Reservations.WindowBound` | src/domain/concert/model/concert-seat.domain.ts:19-29 | for every t, at most floor(w / 5 min) + 1 committed bookings of one seat set their holds between t and t + w, over the whole commit order or any stretch of it |
| `Reservations.PaymentExactly` | src/domain/concert/service/concert.service.ts:93-127 | after any run, with any requests in between: a booking can be paid if and only if it has not expired at the first reading, the hold of the last reserver has not ended at the second, the seat is unsold and its own user can afford it |
| `Reservations.BoundedOverlap` | src/domain/concert/model/concert-booking.domain.ts:18-46 | a payment under an old booking after the seat was booked again comes at most (creation - seat reading) + (seat check - booking check) after the new booking |
| `Reservations.OverlapBound` | src/domain/concert/model/concert-seat.domain.ts:31-41 | it overlaps the last reserver by at most those gaps and never by more than five minutes |
| `Reservations.NoGapNoOverlap` | src/domain/concert/model/concert-booking.domain.ts:24-30 | with no gap between the paired readings only the instant at which the hold ends remains |
| `Reservations.OverlapAttained` | src/domain/concert/service/concert.service.ts:93-109 | after any run, at the instant at which the hold ends another user can book the seat; a payment by the first reserver that passes its own check at the last instant then overlaps the new hold by exactly the gaps, and succeeds if and only if that is at most five minutes |
| `Reservations.OverlapRun` | src/domain/concert/service/concert.service.ts:93-109 | and such an overlap is in a run of the server, whatever was committed before |
| `Races.ExactlyOneWinner` | src/domain/concert/service/concert.service.ts:69-127 | of rival requests run to completion without crash exactly one commits, leaving what it leaves alone, and all others abort |
| `Races.OneBookingWins` | test/concert/integration/book-concert-seat.use-case.integration.spec.ts:139-154 | of any n >= 1 bookings of one available seat with readings less than five minutes apart exactly one commits |
| `Races.OnePaymentWins` | test/concert/integration/pay-concert-booking.use-case.integration.spec.ts:149-164 | of any n >= 1 payments of one valid funded booking exactly one commits |
| `Server.ConcertSeat.Book` | src/domain/concert/model/concert-seat.domain.ts:19-29 | a seat neither held nor sold, and no other, gets a hold: it can be paid up to five minutes after the second reading and booked again from then on; a running hold is reported before a sale |
| `Server.ConcertSeat.Pay` | src/domain/concert/model/concert-seat.domain.ts:31-41 | a seat held and not sold, and no other, is sold, and can never be paid or booked again; a sale is reported before a missing hold |
| `Server.ConcertSeat.IsAvailable` | src/domain/concert/model/concert-seat.domain.ts:43-48 | a seat shows as available exactly when booking it at that time succeeds, and then it cannot be paid later without a new hold |
| `Server.ConcertBooking.Pay` | src/domain/concert/model/concert-booking.domain.ts:32-46 | paid by its own user up to its expiry and then by nobody again; the refusals in their order |
| `Server.PointAccount.Charge` | src/domain/point/model/point.domain.ts:17-23 | adds exactly a positive amount, so that using the same amount restores the account; otherwise nothing changes |
| `Server.PointAccount.Use` | src/domain/point/model/point.domain.ts:25-35 | takes exactly a positive amount that is covered, leaves no negative balance, and charging the same amount restores the account; otherwise nothing changes |
| `Server.ConcertSeatRepository.Update` | src/infrastructure/concert/repository/concert-seat.repository.impl.ts:39-50 | writes if and only if the stored version is the one carried: all fields of the object, the number and the hold included, with the next version |
| `Server.ConcertBookingRepository.Update` | src/infrastructure/concert/repository/concert-booking.repository.impl.ts:33-44 | the same compare-and-set for bookings |
| `Server.ConcertService.BookSeat` | src/domain/concert/service/concert.service.ts:69-85 | find, book, write back: the seat row advances as the domain object says, or the tables stay and the error is the domain's |
| `Server.ConcertService.PaySeat` | src/domain/concert/service/concert.service.ts:93-109 | the same for paying a seat |
| `Server.ConcertService.PayBooking` | src/domain/concert/service/concert.service.ts:111-127 | the same for paying a booking |
| `Server.ConcertService.ValidateScheduleIsBookable` | src/domain/concert/service/concert.service.ts:129-137 | succeeds exactly for a known schedule that has begun at the first reading and not ended at the second; each refusal says which failed first |
| `Server.PointService.Charge` | src/domain/point/service/point.service.ts:25-43 | balance and one CHARGE row together, or neither |
| `Server.PointService.Use` | src/domain/point/service/point.service.ts:45-63 | balance and one USE row together, or neither |
| `Server.BookConcertSeatUseCase.Execute` | src/application/concert/use-case/book-concert-seat.use-case.impl.ts:23-36 | leaves the tables and returns the booking that the serial specification gives and announces its outbox row once, or rolls back everything, announces nothing and returns its error |
| `Server.PayConcertBookingUseCase.Execute` | src/application/concert/use-case/pay-concert-booking.use-case.impl.ts:28-45 | the tables, the payment and the error are those of the serial specification, all or nothing (Records.CommitsOnRecord says what the payment and its message contain); only after the commit the row is announced and the payer's token dropped |
| `Server.ChargePointUseCase.Execute` | src/application/point/use-case/charge-point.use-case.impl.ts:16-20 | the same for a charge |
| `Events.OneEventEach` | src/application/concert/use-case/book-concert-seat.use-case.impl.ts:26-31 | after any run the outbox has grown by exactly one INIT row for each committed booking and payment, and the row carries what that transaction committed |
| `Events.RunsTogether` | src/application/concert/use-case/pay-concert-booking.use-case.impl.ts:37-41 | in every joint run of transactions and relay from an empty outbox, the relay has been given exactly the rows of the committed bookings and payments, and a row not yet published is as it was committed |
| `Events.RelayNeverBlocks` | src/application/concert/use-case/book-concert-seat.use-case.impl.ts:26-33 | whatever the relay has done, every step open to the transactions is open with it beside them, and a committed row has an id never issued before |
| `Events.CommittedAtMostOnce` | src/event/data-platform/data-platform.payment-consumer.ts:16-27 | in every joint run each committed booking or payment has an id of its own, an id is sent to the data platform at most once and only when the one that has it is committed, and SUCCESS means it was sent |
| `Relay.AtMostOnce` | src/event/data-platform/data-platform.booking-consumer.ts:16-27 | under drops, duplicates, reordering, retries and crashes each outbox id is sent to the data platform at most once, SUCCESS means exactly once, and only committed ids are sent |
| `Relay.NothingLostOrInvented` | src/domain/outbox/service/outbox.service.ts:13-48 | messages carry committed ids; a committed row is in the table or was cleaned up after it was published after a delivery; published is never INIT again; a delivery misses only a cleaned-up row |
| `Deliveries.ExactlyOnce` | src/event/data-platform/data-platform.booking-consumer.ts:16-27 | an event delivered at least once, in any order and number, with no handler of it stopped or still at work, was sent exactly once and its row says SUCCESS |
| `Deliveries.DeliveryRegisters` | src/domain/processed/service/processed.service.ts:10-20 | a delivery whose handler is not stopped and has ended leaves its id registered, whatever happens meanwhile |
| `Deliveries.SentExactly` | src/event/payment/payment-completed.handler.ts:12-20 | a message can be delivered exactly if the announcement or a resend has sent it |
| `Deliveries.AnnouncingExactly` | src/application/concert/use-case/pay-concert-booking.use-case.impl.ts:41 | a committed event is waiting to be announced exactly until it is announced or lost with its server |
| `Relay.RowFate` | src/infrastructure/outbox/outbox.repository.impl.ts:36-38 | a row leaves the table exactly when a clean-up finds it PUBLISHED and older than ten days |
| `Relay.RowOrigin` | src/infrastructure/outbox/outbox.repository.impl.ts:15-22 | a row appears exactly by a new commit, under an unused id and as INIT, or by the save of a consumer whose row was cleaned up in between, as PUBLISHED |
| `RowHistories.BackExactly` | src/domain/outbox/service/outbox.service.ts:19-25 | in every run: a deleted row is in the table if and only if a clean-up took it between some handler's find and second look, that handler's save inserted it, and no clean-up has taken it since |
| `Relay.RemovedRowReturns` | src/domain/outbox/service/outbox.service.ts:19-25 | a run in which a cleaned-up row is inserted again |
| `OutboxServices.OutboxService.ToPublished` | src/domain/outbox/service/outbox.service.ts:19-25 | marks exactly the row of the id, or fails with not found and changes nothing |
| `OutboxServices.OutboxService.FindFailed` | src/domain/outbox/service/outbox.service.ts:27-32 | exactly the INIT rows older than three minutes, each once |
| `OutboxServices.OutboxService.RemoveOldPublishedOutboxes` | src/domain/outbox/service/outbox.service.ts:34-38 | removes exactly the PUBLISHED rows older than ten days |
| `OutboxServices.HandleFailedOutboxesUseCase.Execute` | src/application/outbox/handle-failed-outboxes.use-case.ts:12-16 | one message for each failed row and none for any other |
| `OutboxServices.DataPlatformConsumer.Send` | src/event/data-platform/data-platform.payment-consumer.ts:16-27 | a known id is refused without a call; a new one is called once and ends as SUCCESS even if the call fails |
| `OutboxServices.MarkIsSteps` | src/event/outbox/outbox.booking-consumer.ts:10-13 | an undisturbed delivery in the relay has the effect of toPublished, a miss included |
| `OutboxServices.SendIsSteps` | src/domain/processed/service/processed.service.ts:10-20 | an undisturbed delivery in the relay has the effect of the consumer's handler |
| `Resends.RetryComplete` | src/application/outbox/handle-failed-outboxes.use-case.ts:12-16 | when all messages of a resend are delivered, in any order and number, no row older than the cutoff is INIT and all other rows are as before |
| `Resends.ResendCatchesUp` | src/application/outbox/handle-failed-outboxes.use-case.ts:12-16 | in the running relay: a job takes its list and empties it, each message it emits reaches a handler that is not stopped, anything else goes on; then it has emitted exactly the failed rows, all of them were published, the rows older than the cutoff still INIT are exactly the unpublished ones committed after the list was taken, and a row no handler worked on is as before or was cleaned up |
| `Resends.OldInitExactly` | src/infrastructure/outbox/outbox.repository.impl.ts:30-34 | after any run the rows older than a cutoff that are INIT are exactly those that were so or were committed in it, and have not been published |
| `Resends.FirstResend` | src/interface/scheduler/outbox.scheduler.ts:13-16 | with a tick every five minutes a row that stays INIT is first picked up no later than eight minutes after creation |
| `WaitingRoom.EstimateExact` | src/domain/token/model/token-queue.domain.ts:20-24 | told order r, a user waits through any later arrivals behind until the ceil(r / 2000)-th next activation; with ticks every ten seconds the event that takes the user out is a tick with the user in its batch, within the last ten seconds of the estimate |
| `Estimates.LeavesInTime` | src/domain/token/service/token-queue.service.ts:47-57 | however the runs of several instances overlap, a user told order r has left the queue once ceil(r / 2000) runs have completed one after another, if later arrivals sort behind |
| `WaitingRoom.PlaceAfter` | src/domain/token/service/token-queue.service.ts:47-57 | through any mix of later arrivals and activations a user moves 2000 places with each activation until admitted |
| `WaitingRoom.ActivationIsFair` | src/domain/token/service/token-queue.service.ts:47-57 | one activation moves exactly min(2000, size) users and all of them sort before everyone left and joined no later |
| `WaitingRoom.RankCounts` | src/infrastructure/token/waiting-token-queue.repository.impl.ts:16-24 | the index in the sorted set is the number of smaller (score, member) pairs |
| `WaitingRoom.OrderOfService` | src/infrastructure/token/waiting-token-queue.repository.impl.ts:12-18 | whoever joined earlier is ahead; at the same time whoever has the smaller name in dictionary order |
| `WaitingRoom.SizeTold` | src/domain/token/service/token-queue.service.ts:21-24 | the size told to a new user after others have come and gone is never below the place that the user then has, and equals it exactly if the user is then last |
| `ActivationRuns.NoLoss` | src/domain/token/service/token-queue.service.ts:47-57 | however activation runs overlap and other tokens end, somebody waiting or active stays so until their own token ends, if that token has not ended while a run that had set it was in flight |
| `ActivationRuns.NoLossExactly` | src/domain/token/service/token-queue.service.ts:52-56 | in every reachable state: somebody is certain to stay waiting or active until their own token ends if and only if no run in flight has set a token of theirs that is gone |
| `ActivationRuns.DroppedExactly` | src/domain/token/service/token-queue.service.ts:52-56 | in any run: a remove drops somebody from both structures if and only if their token ended after this run had set it and has not been set since |
| `ActivationRuns.VanishesExactly` | src/domain/token/service/token-queue.service.ts:52-56 | a user leaves both structures in a step if and only if a run removes them after their token has ended, or the token of somebody not waiting ends |
| `ActivationRuns.LostWithoutProviso` | src/domain/token/service/token-queue.service.ts:52-56 | a run in which a user is removed from the queue without being admitted |
| `ActivationRuns.TokenKept` | src/infrastructure/token/active-token-queue.repository.impl.ts:13-15 | along every run a live token stays the same token until it ends |
| `ActivationRuns.TokenOrigin` | src/domain/token/service/token-queue.service.ts:52-54 | after any run whoever holds a token holds one of their own, held all along or issued at the time of a set in the run |
| `ActivationRuns.LoneRunActivates` | src/domain/token/service/token-queue.service.ts:47-57 | a run that no other run overlaps, with users joining meanwhile, leaves exactly what one activation at its read and those arrivals after it leave, and admits its batch and nobody else, each with a token of their own issued by the run |
| `WaitingServices.WaitingTokenQueueRepository.Add` | src/infrastructure/token/waiting-token-queue.repository.impl.ts:12-14 | a new member goes to its sorted place, a present one moves nobody |
| `WaitingServices.WaitingTokenQueueRepository.GetOrder` | src/infrastructure/token/waiting-token-queue.repository.impl.ts:16-24 | one plus the number of smaller entries, or none if absent |
| `WaitingServices.WaitingTokenQueueRepository.FindOldest` | src/infrastructure/token/waiting-token-queue.repository.impl.ts:30-32 | the j-th member returned is the one at order j, as many as asked for or all, and everybody else sorts behind all of them |
| `WaitingServices.WaitingTokenQueueRepository.Remove` | src/infrastructure/token/waiting-token-queue.repository.impl.ts:34-36 | removes exactly the given members and keeps the order |
| `WaitingServices.ActiveTokenQueueRepository.Add` | src/infrastructure/token/active-token-queue.repository.impl.ts:13-15 | a live token is kept, otherwise the member gets one of its own issued now; no other token changes |
| `WaitingServices.TokenQueueService.AddWaitingToken` | src/domain/token/service/token-queue.service.ts:18-27 | a waiting user moves nobody and is told the true order; a new one is told the size, never below the true order and equal to it exactly when the entry sorts last; the answer names the user and the estimate for that order |
| `WaitingServices.TokenQueueService.GetWaitingToken` | src/domain/token/service/token-queue.service.ts:29-37 | the true order of a waiting user, or not found exactly if absent |
| `WaitingServices.TokenQueueService.ActivateQueues` | src/domain/token/service/token-queue.service.ts:47-57 | the first 2000 leave the queue and hold tokens, each of their own and issued now unless live already, live tokens stay, nobody else moves |
| `WaitingServices.EnqueueTokenQueueUseCase.Execute` | src/application/token/enqueue-token-queue.use-case.impl.ts:9-15 | a live token is returned without entering the queue; anybody else waits and gets the answer of addWaitingToken: order, estimate and queue |
| `UserQueue.PositionIsUpperBound` | src/domain/user/model/user-queue.domain.ts:17-23 | the reported position is never below the true one and equals it if and only if all ids from the oldest pending one on are pending |
| `UserQueue.PositionExact` | src/domain/user/service/user-queue.service.ts:30-44 | if no id is lost and rows become visible in id order, it is the true position in every reachable state, with overlapping activation runs |
| `UserQueue.GapOverstates` | src/domain/user/model/user-queue.domain.ts:17-23 | one lost id makes the position too large |
| `UserQueue.OpenRowOverstates` | src/infrastructure/user/repository/user-queue.repository.impl.ts:42-46 | so does a row that is visible while one with an earlier id is not |
| `UserQueue.LateRowOverstates` | src/infrastructure/user/repository/user-queue.repository.impl.ts:42-46 | so does a row that becomes visible after one with a later id has been activated, with no id lost |
| `UserQueue.QueueEntry.CalculateCurrentOrder` | src/domain/user/model/user-queue.domain.ts:17-23 | counts the ids from the oldest pending one on: for every table with that oldest row never below the true place, and equal to it exactly if all these ids are pending; 1 if there is none |
| `UserQueue.UserQueueRepository.FindPendingQueues` | src/infrastructure/user/repository/user-queue.repository.impl.ts:20-24 | the lowest pending ids, exactly count of them or all |
| `UserQueue.UserQueueRepository.FindOldestPending` | src/infrastructure/user/repository/user-queue.repository.impl.ts:14-18 | the least pending id, or none if nothing is pending |
| `UserQueue.UserQueueService.CalculateOrder` | src/domain/user/service/user-queue.service.ts:30-36 | an active entry is left alone; any other is told the number of ids from the oldest pending one to its own, at least its true place and equal to it exactly if all these ids are pending, or 1 if nothing is pending |
| `UserQueue.UserQueueService.ActivateQueues` | src/domain/user/service/user-queue.service.ts:38-44 | exactly the 100 oldest pending rows get a ten-minute token and no other row changes |
| `UserQueue.EnqueueUserQueueUseCase.Execute` | src/application/user/use-case/enqueue-user-queue.use-case.impl.ts:10-20 | an unexpired entry is reused and the table stays, otherwise one pending row is added; the entry is the user's row and is told exactly that order, or 0 if it is active |

## Left out

- HTTP controllers, guards, filters, module wiring and configuration: no state of interest.
- Signing and decoding of tokens: a token is an opaque value that its user can be read from.
- The handlers that pass announced events to the bus client: an announced event may never reach the bus, and a message that was handed over may be delivered any number of times or never.
- The binding of message topics to handlers: both topics have the same two consumers, so the relay has one of each kind.
- Concert and schedule creation, seat and schedule scans and their caches: single inserts and reads.
- The two-line insert services for bookings, payments and outbox rows: their inserts are part of the use-case methods.
- Time zones: `setMinutes(getMinutes() + 5)` is taken as adding 300000 ms, which it is except across a daylight-saving change of the server's zone.
- Integer width and floating point: ids, prices and times are unbounded integers; the estimate's `Math.ceil` is exact for them.
- Several point rows of one user: the model has one for each user, as the one-to-one relation declares; the named index on their user id is not unique.
- Refunds and cancellations: no code path produces them.
- `UserQueueService.expire` has no caller.
- WaitingServices.TokenQueueService.AddWaitingToken: is one step here; between the insertion and the size query of the original other users may join or be admitted. WaitingRoom.SizeTold says what the order told then means; it may differ in either direction from the place at the insertion.
- UserQueue.UserQueueService.CalculateOrder: reads the table as it is when the oldest row is queried; a row activated since it was read can be told a position below one.
- ActivationRuns.NoLoss: assumes that the user's own token does not end while a run that has set it is in flight; ActivationRuns.NoLossExactly and ActivationRuns.DroppedExactly say what happens without that.
