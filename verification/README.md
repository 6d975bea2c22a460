# Booking platform: a verified model

A room is booked through two services with a database each. This project models what they do to those databases and
proves what the design promises, for every interleaving of requests, replicas, lost replies, late deliveries and
crashes.

## How it is built

- **Statements.** `SlotTable` and `BookingTables` give the effect of each SQL statement or transaction as a function
  on the tables, with the constraints of the two schemas. `Calendar` states the declared slots of a schedule without
  reference to any loop; `TimeOfDay` is the reading of opening hours; `ConferenceStore` is the link store.
- **Platform.** `Platform` is one transition system: both databases, the link store, and every process that touches
  them. Each statement is one atomic event. An HTTP call is a request, delivered at any later time or never, and a
  reply that is read or lost; a process may stop between any two events. An event whose guard is false changes
  nothing, so every sequence of events is a run, and a theorem about all sequences is about all interleavings.
- **Theorems.** `SagaProofs`, `SagaTheorems` and `HoldTheorems` (reservation, commit, compensation), `CancelTheorems`,
  `JobProofs`, `LeaseProofs`, `DrainProofs`, `QueueProgress` and `CallProofs` (the conference queue),
  `GenerationProofs` (slot generation).
- **Services.** `AvailabilityRepository`, `AvailabilityService`, `BookingRepository` and `BookingService` are classes
  whose methods follow the Go methods statement by statement. The service classes carry the platform state as a ghost
  field, and each of their methods proves that the call, with any faults, is a run of the platform from there; the
  lemmas in `GenerationRuns`, `SagaRuns` and `WorkerRuns` say which. What is proved of reachable states therefore
  holds before and after each call.

## What is assumed

- A statement or a transaction is atomic, the schema's constraints hold, and a claim skips rows that another worker
  is claiming. A fault either precedes the effect (`FailBefore`) or hides it from the caller (`FailAfter`).
- Ids are never reused. One clock, in microseconds and UTC, serves all processes and never goes back. PostgreSQL
  reads the two opening times as `parseTime` does.
- `uuid.New()`, clocks, faults, durations and the rows locked by others are parameters.
- The conference store may lose its entries at any time (a restart); its links depend on the id only.

## What holds, and what does not

Who holds a slot is known exactly: a creation holds its slot from the moment a book request of it takes effect until
an undo or a release of it does, whatever the replies said (`HoldIsExact`, `RowHoldIsExact`).

"A slot is booked exactly when its booking is active" is false in both directions. A lost reply leaves a hold without
a row (`LostReplyLeavesAHold`), for ever (`LeakIsForEver`); a half-done cancellation leaves an active row without a
hold (`HalfCancelLeavesAnActiveRow`). `ActiveEqualsHeldIff` says for a booking, and `BookedEqualsOccupiedIff` for a
slot, when the two agree.

"An active booking holds its slot until it is cancelled" needs an assumption: a commit whose outcome is unknown must
be decided before the lookup that asks for it. `TooEarlyLookupLosesTheHold` exhibits the failure on every free future
slot. `ActiveImpliesHeld` proves the property for all runs that meet the assumption. Without it, an active booking
that no cancellation has released lacks its slot exactly when the undo of its creation took effect, and that creation
had looked itself up too early (`ActiveLacksItsSlotIff`). `NoDoubleOccupancy` and `PlatformRefinesOccupancy` need no such
assumption.

The documentation promises at most five attempts. That bounds the stored counter (`AttemptsAreBounded`), not the calls
to the conference service: a worker that stops between its call and its write-back has made a call that no counter
remembers, so even punctual workers can make any number of calls (`CallsAreUnbounded`).
`CallsAreAttemptsAndLostCalls` says exactly when there are at most five.

There is no owner token on a job. A worker whose lease has expired may still write, and may write an old counter.
`JobsAgreeWithBookings`, `CancellationIsFinal`, `FinishedAtMostOnce` and `AttemptsAreBounded` hold all the same.
`AtMostOneWorker` and the draining of the queue are for workers that write back before their lease ends, which
`ProcessConferenceJobs` does under the stated bound on its calls; `LateRescheduleSharesAJob` shows what happens
otherwise.

Booking and listing disagree at one instant: a slot that starts right now is
bookable but not listed (`ListedIffBookable`).

## Model

| member | source | states |
|---|---|---|
| SagaTheorems.NoDoubleOccupancy | services/booking-service/internal/repository/repository.go:66-98 | in every reachable state, of two active bookings of one room one ends before the other starts, however late a commit lands; each lasts half an hour |
| SagaTheorems.RowsMatchTheirSlots | services/booking-service/internal/service/service.go:111-122 | in every reachable state a booking shows the room, the start and the end of its slot, half an hour apart |
| SagaTheorems.PlatformRefinesOccupancy | services/booking-service/internal/service/service.go:92-175 | every interleaved, crashing run from empty tables is followed by legal steps of an abstract partial map from slots to bookings, which is at all times exactly the active bookings |
| SagaTheorems.RunRefines | services/booking-service/internal/service/service.go:92-175 | the same from any state that the saga invariant allows |
| SagaTheorems.StepRefines | services/booking-service/internal/service/service.go:92-175 | each single event is an insert-if-absent, a removal or a stutter of that map |
| SagaTheorems.ActiveImpliesHeld | services/booking-service/internal/service/service.go:125-169 | on runs whose ambiguous commits are decided before their lookup, an active booking holds its own slot unless a cancellation of that very booking has had its release delivered |
| HoldTheorems.HoldIsExact | services/booking-service/internal/service/service.go:92-175 | in every run a creation holds its slot exactly when a book request of it took effect and no undo and no release of it has, whatever their replies said |
| HoldTheorems.RowHoldIsExact | services/booking-service/internal/service/service.go:92-175 | a booking with a row holds its slot exactly until an undo or a release takes effect; only a creation that looked itself up too early ever undoes a booking that has a row |
| HoldTheorems.ActiveLacksItsSlotIff | services/booking-service/internal/service/service.go:125-169 | an active booking that no cancellation has released lacks its slot exactly when the undo of its own creation took effect, after a lookup that came too early |
| HoldTheorems.ActiveEqualsHeldIff | services/booking-service/internal/service/service.go:92-175 | "active" and "holds its slot" agree for a booking exactly when it is cancelled, or active and never freed, or without a row and without a hold left over |
| HoldTheorems.BookedEqualsOccupiedIff | services/booking-service/internal/service/service.go:92-175 | "slot booked" and "some active booking has it" agree exactly when a hold without a row and a freed active booking both exist for the slot or neither does |
| HoldTheorems.SlotIsBookedIff | services/availability-service/internal/repository/repository.go:151-204 | a slot is booked exactly when some creation for it has taken it and has not been freed |
| HoldTheorems.LostReplyLeavesAHold | services/booking-service/internal/service/service.go:103-107 | on every free future slot a lost book reply leaves the slot booked and no row |
| HoldTheorems.HalfCancelLeavesAnActiveRow | services/booking-service/internal/service/service.go:164-172 | on every free future slot without an active booking a cancellation that stops after its release leaves an active row and a free slot |
| HoldTheorems.LeakIsForEver | services/booking-service/internal/service/service.go:103-141 | the hold of an ended creation without a row, with no undo in flight and no undecided commit, is never given back |
| SagaTheorems.TooEarlyLookupLosesTheHold | services/booking-service/internal/service/service.go:125-141 | the assumption is needed: on every free future slot there is a run with a commit landing after its lookup that ends with an active booking, no cancellation and a free slot |
| SagaTheorems.EveryHoldIsAccountedFor | services/availability-service/internal/repository/repository.go:151-204 | a held slot is booked, its holder holds no other slot, and the holder is an active booking of that slot or a creation without a row that is still running or ended without knowing |
| SagaTheorems.BookedSlotsAreCounted | services/availability-service/internal/repository/repository.go:151-204 | booked slots = active holders + holders without a row |
| SagaTheorems.CreateOutcome | services/booking-service/internal/service/service.go:100-145 | a creation that reports success has its row; one that was rejected, or compensated without looking too early, has no row and no hold |
| SagaTheorems.NeverCompensatesACommit | services/booking-service/internal/service/service.go:123-141 | a release is only ever issued by a creation whose transaction is settled without a row, unless it looked itself up too early |
| SagaTheorems.RowAppearsWithItsSlot | services/booking-service/internal/service/service.go:100-123 | a row appears only by its own creation, for a slot that no active booking has, with the slot's own room and times; the creation holds that slot at that moment unless it looked itself up too early and its undo has been delivered |
| SagaTheorems.OutcomeIsFinal | services/booking-service/internal/service/service.go:92-145 | an ended creation keeps its outcome for ever |
| SagaProofs.NextKeepsSaga | services/booking-service/internal/service/service.go:92-175 | every event of every process keeps the saga invariant over slots, bookings, creations and cancellations |
| SagaProofs.BookTouchesOnlyItsBooking | services/availability-service/internal/repository/repository.go:151-194 | BookSlot gives a slot away exactly when it exists, is free and has not started, and never takes it from its holder |
| SagaProofs.ReleaseTouchesOnlyItsBooking | services/availability-service/internal/repository/repository.go:196-204 | ReleaseSlot frees a slot only from the given booking, which holds it no longer afterwards, and is otherwise without effect |
| CancelTheorems.CancelConverges | services/booking-service/internal/service/service.go:147-175 | after any number of interrupted cancellations of a booking, one more with successful calls reaches the uninterrupted result up to the cancellation time, and yet another changes nothing |
| CancelTheorems.CancelFinishes | services/booking-service/internal/service/service.go:147-175 | in every reachable state one clean cancellation by the owner leaves the booking cancelled and holding nothing, and takes no slot and changes no row of any other booking |
| CancelTheorems.CancelOutcome | services/booking-service/internal/service/service.go:147-175 | under any interleaving a cancellation that reported success has cancelled its booking, which holds nothing, now and in every later state |
| CancelTheorems.UninterruptedEffect | services/booking-service/internal/service/service.go:147-175 | the exact effect of a clean cancellation on both databases, from any state |
| JobProofs.JobsAgreeWithBookings | services/booking-service/internal/repository/repository.go:240-297 | with any number of stale workers: a job exists exactly when one was requested, and for an active booking pending, ready with a link and failed correspond to the job's status in both directions |
| JobProofs.CancellationIsFinal | services/booking-service/internal/repository/repository.go:118-139 | a cancelled booking stays cancelled, without link and with status not_requested, whatever worker writes are in flight |
| JobProofs.PublishedLinkIsFixed | services/booking-service/internal/repository/repository.go:240-297 | a published link is the one its id determines, and stays while the booking is active, whichever worker wins |
| JobProofs.FinishedAtMostOnce | services/booking-service/internal/repository/repository.go:264-307 | in any run at most one finish of a job takes effect, and one has exactly when the job is done or failed |
| JobProofs.FinishedIsAbsorbing | services/booking-service/internal/repository/repository.go:264-297 | a job that is done or failed never changes again |
| JobProofs.LosersLeaveNoTrace | services/booking-service/internal/repository/repository.go:264-307 | once a job is finished it stays as the winner wrote it, and so do the conference columns of its booking while active, whatever other workers still write |
| JobProofs.JobEffect | services/booking-service/internal/repository/repository.go:172-297 | a job appears pending with no attempts, and changes only by a successful claim or by a worker's write that takes effect |
| JobProofs.AttemptsAreBounded | services/booking-service/internal/service/service.go:322-346 | pending and processing jobs have at most 4 attempts, failed jobs exactly 5, done jobs at most 5, although stale workers write old counters |
| JobProofs.BackoffIsBounded | services/booking-service/internal/service/service.go:331-337 | every job sent back to the queue is retried 2, 4, 8 or 16 seconds after the call failed |
| LeaseProofs.BackoffIsWaitedFor | services/booking-service/internal/repository/repository.go:185-193 | once a job has been sent back, nobody claims it earlier than 2, 4, 8 or 16 seconds after the failed call, on any continuation |
| LeaseProofs.ClaimsAreDue | services/booking-service/internal/repository/repository.go:185-193 | a claim takes no pending job before its retry is due and no processing job before its five minutes are over |
| JobProofs.WriteBacksOff | services/booking-service/internal/service/service.go:322-346 | a worker's write sends the job back exactly when the call failed and fewer than 5 attempts are used up |
| JobProofs.NextKeepsJobs | services/booking-service/internal/repository/repository.go:118-297 | every event of every process keeps the job invariant |
| LeaseProofs.AtMostOneWorker | services/booking-service/internal/repository/repository.go:172-227 | if every worker stops acting before claim time + lease, at most one worker has a job in hand, and its write takes effect |
| LeaseProofs.FreshIsFiveMinutes | services/booking-service/internal/service/service.go:42-47 | a worker is within its lease for five minutes from its claim |
| LeaseProofs.ClaimsAreSeparated | services/booking-service/internal/repository/repository.go:172-238 | on every run, two claims returning the same job are separated by a reschedule or by a whole lease |
| CallProofs.LateRescheduleSharesAJob | services/booking-service/internal/repository/repository.go:229-238 | that needs punctual workers: for every claimable job with an attempt to spare, a reschedule after the lease puts it into two hands within their leases |
| LeaseProofs.NextKeepsLease | services/booking-service/internal/repository/repository.go:172-297 | every event keeps the lease invariant as long as write-backs are punctual |
| DrainProofs.NextDrains | services/booking-service/internal/service/service.go:312-348 | the sum over unfinished jobs of 5 - attempts falls with every processed job, whatever the external service answers, and grows only by 5 for a new job |
| DrainProofs.QueueDrains | services/booking-service/internal/service/service.go:312-348 | in a punctual run, processings plus what is left of the sum never exceed 5 times the jobs created |
| DrainProofs.BudgetOutlastsTheQueue | services/booking-service/internal/service/service.go:312-348 | in a punctual run, processings plus jobs still unfinished never exceed 5 times the jobs created |
| QueueProgress.RoundDrains | services/booking-service/internal/service/service.go:312-348 | for every unfinished job, every fresh hand and every answer there is a punctual round of waiting, claim, load, call and write-back that strictly lowers the sum |
| QueueProgress.QueueCanBeDrained | services/booking-service/internal/service/service.go:296-348 | from every reachable state and for every sequence of answers some punctual continuation finishes all jobs within as many processings as the sum |
| QueueProgress.NJobsFinishWithinFiveN | services/booking-service/internal/service/service.go:296-348 | every punctual run with N jobs can be continued, for every sequence of answers, until all N are done or failed, with at most 5 N processings in all |
| CallProofs.CallsAreAttemptsAndLostCalls | services/booking-service/internal/service/service.go:312-348 | in a punctual run the calls made for a job are its attempts plus the calls that were lost before their write-back; so they are at most five exactly when no more are lost than attempts are left |
| CallProofs.LostCallCostsNoAttempt | services/booking-service/internal/service/service.go:320-346 | a worker that stops between its call and its write-back has made a call, costs no attempt and leaves the job claimable after its lease |
| CallProofs.CallsAreUnbounded | services/booking-service/internal/service/service.go:320-346 | any number of calls for one job can be made by punctual workers while its counter stays as it is |
| GenerationProofs.GenerationMeetsSpec | services/availability-service/internal/service/service.go:172-216 | whatever creations, extensions, failed inserts and lowered marks interleave: the table holds declared slots only, and all of them from today up to generated_until |
| GenerationProofs.NextKeepsGen | services/availability-service/internal/service/service.go:172-216 | every event of every process keeps the generation invariant |
| GenerationProofs.AdvanceNeverViolates | services/availability-service/migrations/001_init.up.sql:24-29 | the overlap exclusion never stops a generation run |
| GenerationProofs.SlotsAreImmutable | services/availability-service/internal/repository/repository.go:151-251 | no slot row ever disappears, or changes room or times |
| SlotTable.GridIsDisjoint | services/availability-service/migrations/001_init.up.sql:24-29 | of two different slots of one room one ends before the other starts |
| SlotTable.BookColumns | services/availability-service/internal/repository/repository.go:151-194 | when BookSlot refuses and how, which times it answers, and what it changes, column by column |
| SlotTable.ReleaseColumns | services/availability-service/internal/repository/repository.go:196-204 | ReleaseSlot frees exactly a booked slot of this holder, column by column |
| SlotTable.InsertColumns | services/availability-service/internal/repository/repository.go:232-244 | when the insert is ignored, violates the exclusion or succeeds, and the row it writes |
| SlotTable.ExclusionNeverFires | services/availability-service/internal/repository/repository.go:232-244 | inserting a declared slot inserts it exactly when its start is missing, and never violates the exclusion |
| SlotTable.CoveredThroughSlot | services/availability-service/internal/repository/repository.go:230-247 | one iteration of the inner loop extends the covered stretch by exactly one slot |
| Calendar.DayIsTiled | services/availability-service/internal/repository/repository.go:221-249 | each instant of a selected day's opening hours lies in exactly one slot, and no slot overhangs |
| Calendar.WholeSlotsDoNotOverhang | services/availability-service/internal/service/service.go:92-95 | the last slot of a day ends at closing time exactly when the opening hours are a multiple of 30 minutes |
| Calendar.SelectedIsIsoWeekday | services/availability-service/internal/repository/repository.go:216-221 | the remainder trick on weekdays selects exactly the listed ISO weekdays |
| Calendar.WeekdaysRun | services/availability-service/internal/repository/repository.go:216-221 | ISO weekdays run from 1 to 7 and 1970-01-01 is a Thursday |
| Calendar.DeclaredInMinutes | services/availability-service/internal/repository/repository.go:220-249 | the declared starts in numbers: on a listed weekday, a multiple of 30 minutes after opening and before closing |
| Calendar.DeclaredIsLoopStart | services/availability-service/internal/repository/repository.go:220-249 | every declared start is reached by an iteration of the loop |
| GenerationRuns.CallIsRun | services/availability-service/internal/repository/repository.go:206-275 | a call that generates and then marks, or gives up, is a stretch of a platform run with exactly these tables at its end |
| AvailabilityRepository.NextInsert | services/availability-service/internal/repository/repository.go:232-246 | one insert of the loop, faults included: the grid, the coverage, the row count and the platform run it continues |
| AvailabilityRepository.AvailabilityRepository.GenerateSlots | services/availability-service/internal/repository/repository.go:206-251 | adds exactly free declared slots of [from, until), all of them unless an insert fails, leaves existing rows alone, returns the number of new rows, and is a platform run |
| AvailabilityRepository.AvailabilityRepository.DaysSet | services/availability-service/internal/repository/repository.go:216-221 | the set holds the weekday of a day exactly when the schedule selects the day |
| AvailabilityRepository.AvailabilityRepository.BookSlot | services/availability-service/internal/repository/repository.go:151-194 | not found, past and conflict each exactly when the row says so, the answered room and times are the row's, and the row is booked by this booking; with a commit that may fail before or after taking effect |
| AvailabilityRepository.AvailabilityRepository.ReleaseSlot | services/availability-service/internal/repository/repository.go:196-204 | frees the slot exactly when this booking holds it, and changes nothing else |
| AvailabilityRepository.AvailabilityRepository.CreateSchedule | services/availability-service/internal/repository/repository.go:60-83 | one schedule per room and per id; a conflict is told apart from other errors |
| AvailabilityRepository.AvailabilityRepository.GetFreeSlots | services/availability-service/internal/repository/repository.go:106-134 | exactly the free slots of the day, in order of their start |
| AvailabilityRepository.AvailabilityRepository.UpsertGenerationState | services/availability-service/internal/repository/repository.go:267-275 | the mark is replaced, even by an earlier day |
| AvailabilityRepository.AvailabilityRepository.GetAllSchedules | services/availability-service/internal/repository/repository.go:277-303 | every schedule, and nothing else |
| AvailabilityService.AvailabilityService.CreateSchedule | services/availability-service/internal/service/service.go:57-128 | succeeds exactly for valid days and clock times of a room that exists and has no schedule, and stores those days and times; which error otherwise; the stored schedules in every case, a lost insert reply included; what is generated and marked; and the call is a platform run |
| AvailabilityService.AvailabilityService.Validate | services/availability-service/internal/service/service.go:67-95 | accepts exactly weekdays 1 to 7, at least one, and an end after the start by a multiple of 30 minutes; in particular for all clock times |
| AvailabilityService.AvailabilityService.ExtendSlots | services/availability-service/internal/service/service.go:172-216 | only adds rows; the errors count exactly the rooms that failed, each of which had a fault, and every other room is covered and marked up to the horizon; the call is a platform run |
| AvailabilityService.AvailabilityService.GetFreeSlots | services/availability-service/internal/service/service.go:130-170 | exactly the free strictly-future slots of the day, in order of their start |
| AvailabilityService.ListsPartition | services/availability-service/internal/service/service.go:130-170 | a free future slot is in the list of exactly one day |
| AvailabilityService.ListedIffBookable | services/availability-service/internal/service/service.go:130-170 | a listed slot would be booked at that instant, and the only bookable slot that is not listed starts right then |
| TimeOfDay.ParseTimeMeans | services/availability-service/internal/service/service.go:260-275 | accepts exactly one colon between an hour and a minute in range, inside white space |
| TimeOfDay.ClockIsRead | services/availability-service/internal/service/service.go:260-275 | every time of day is read back from its two-digit text, whatever white space surrounds it |
| TimeOfDay.TrimTakesBlanks | services/availability-service/internal/service/service.go:261 | trimming takes white space off both ends, all of it and nothing else |
| TimeOfDay.NineToFive | services/availability-service/internal/service/service.go:260-275 | 09:00 is minute 540 of the day and 17:00 is minute 1020 |
| TimeOfDay.AtoiReads | services/availability-service/internal/service/service.go:266-273 | a number is read with or without a sign |
| TimeOfDay.AtoiReadsOnly | services/availability-service/internal/service/service.go:266-273 | nothing but digits after an optional sign is read as a number |
| TimeOfDay.SplitJoins | services/availability-service/internal/service/service.go:261-265 | splitting at colons loses nothing |
| ConferenceStore.Store.GetOrCreate | services/conference-mock-service/internal/store/store.go:19-37 | whatever other callers insert between the two locks, the answer is the one link of this id, with its first eight digits, and no entry is replaced |
| ConferenceStore.LinkIsFirstEight | services/conference-mock-service/internal/store/store.go:34 | the link of a UUID ends in the first eight of its 32 hexadecimal digits |
| ConferenceStore.HexReadsBack | services/conference-mock-service/internal/store/store.go:34 | those digits are lower case and read back to the id |
| ConferenceStore.SameLinkIffSameFirstEight | services/conference-mock-service/internal/store/store.go:34 | two bookings share a link exactly when the first eight hexadecimal digits of their ids agree |
| BookingRepository.BookingRepository.CreateWithConferenceJob | services/booking-service/internal/repository/repository.go:66-98 | stored exactly when the id has no row, no job if one is requested, and no active booking has the slot; booking and job together or not at all; and what the caller learns when the commit is in doubt |
| BookingRepository.BookingRepository.Cancel | services/booking-service/internal/repository/repository.go:118-139 | the cancelled row: no link, and not_requested when a conference had been requested |
| BookingRepository.BookingRepository.ClaimConferenceJobs | services/booking-service/internal/repository/repository.go:172-227 | only due jobs are taken, all of them unless the limit is reached, and then the oldest; they are locked now and no other job changes; a commit in doubt may lock them unseen |
| BookingTables.CreateColumns | services/booking-service/internal/repository/repository.go:66-98 | when the creating transaction commits and what it inserts, column by column |
| BookingTables.CancelColumns | services/booking-service/internal/repository/repository.go:118-139 | what the cancelling update changes, column by column |
| BookingTables.ClaimColumns | services/booking-service/internal/repository/repository.go:185-193 | which jobs a claim may take and what it changes in one |
| BookingTables.WriteColumns | services/booking-service/internal/repository/repository.go:229-297 | a worker's write needs a processing job and otherwise changes neither table |
| BookingTables.UpdateColumns | services/booking-service/internal/repository/repository.go:240-262 | what each finishing write does to an active and to a cancelled booking |
| BookingTables.ChoiceColumns | services/booking-service/internal/service/service.go:317-346 | discard, complete, fail after the fifth attempt, or retry after 2, 4, 8 or 16 seconds |
| BookingRepository.BookingRepository.SelectOldest | services/booking-service/internal/repository/repository.go:185-193 | as many candidates as the limit allows, each once with its stored counter, none younger than one left out |
| BookingRepository.BookingRepository.RescheduleConferenceJob | services/booking-service/internal/repository/repository.go:229-238 | applies only to a processing job, and fails otherwise |
| BookingRepository.BookingRepository.CompleteConferenceJob | services/booking-service/internal/repository/repository.go:240-246 | link and ready for an active booking together with the finished job, or nothing |
| BookingRepository.BookingRepository.FailConferenceJob | services/booking-service/internal/repository/repository.go:248-254 | failed for an active booking together with the failed job, or nothing |
| BookingRepository.BookingRepository.DiscardConferenceJob | services/booking-service/internal/repository/repository.go:256-262 | not_requested together with the finished job, or nothing |
| BookingRepository.BookingRepository.FinishConferenceJob | services/booking-service/internal/repository/repository.go:264-307 | the booking update is rolled back when the job is not processing |
| BookingService.BookingService.CreateBooking | services/booking-service/internal/service/service.go:92-145 | all or nothing: with definite answers it succeeds exactly for a non-admin and a free future slot that no active booking has, if the transaction takes effect, and then holds the slot with an active row that shows the slot's room and times; otherwise both databases are as before; both databases and the error under every fault; every call is a platform run |
| BookingService.BookingService.SaveBooking | services/booking-service/internal/service/service.go:123-143 | the transaction and the lookup that resolves an ambiguous commit |
| BookingService.BookingService.CancelBooking | services/booking-service/internal/service/service.go:147-175 | release first and mark second; an unconfirmed release leaves the booking active; a cancelled one is answered without a second release; every call is a platform run |
| BookingService.BookingService.ProcessJob | services/booking-service/internal/service/service.go:312-348 | one write at most, the one that the booking and the answer call for; when it counts as an error; and how long it takes |
| BookingService.BookingService.ProcessConferenceJobs | services/booking-service/internal/service/service.go:296-310 | claims due jobs only, at most 10 and all of them otherwise, settles each once and touches no other row, reports the number of failed loads and writes; a batch ends before its lease whenever 100 s plus repository time stay under 300 s, and is then punctual |
| WorkerRuns.PassStep | services/booking-service/internal/service/service.go:302-307 | handling one claimed job settles it and leaves every other job and booking as it was |
| WorkerRuns.HandledInColumns | services/booking-service/internal/service/service.go:312-348 | what handling one job does to its row and its booking, for an active and for a cancelled booking and every answer |
| WorkerRuns.SettledInColumns | services/booking-service/internal/service/service.go:302-348 | the same columns for every job that a pass has settled |
| WorkerRuns.MishapsCounts | services/booking-service/internal/service/service.go:302-309 | the reported number counts the jobs whose load or write failed |
| WorkerRuns.ClaimsRun | services/booking-service/internal/repository/repository.go:172-227 | claiming the rows of a batch one after the other at one instant is the claim of the batch |
| WorkerRuns.AskRun | services/booking-service/internal/service/service.go:320-346 | the path through load, external call and write-back as a platform run, punctual when it ends before the lease |
| SagaRuns.DoubtRun | services/booking-service/internal/service/service.go:123-135 | an ambiguous commit and its lookup as a platform run |
| SagaRuns.BookThenRelease | services/booking-service/internal/service/service.go:137-140 | compensation undoes a reservation exactly |

## Left out

- HTTP handlers, routing, the gateway, JSON, configuration, logging and shutdown: a remote call is one of its outcomes.
- Authentication, the room service and the user repository: the room check is a parameter with its three outcomes.
- Error texts, `last_error`, `created_at` of bookings and all `updated_at` columns: nothing reads them in the modelled code.
- `ListByUser`, `ListAll`, `GetScheduleByRoomID` and `GetSlotByID`: plain selects.
- The inside of PostgreSQL (locks, isolation, plans): each statement is one step.
- Clock skew between the services and the databases.
- A failing read of the schedules or of the free slots: such a call returns the error without effect.
- The conference service's delays and random failures: any answer may come at any time.
- BookingService.BookingService.CreateBooking: one call alone, so its ambiguous commit is decided before the lookup; the late commit is an event of the platform.
- AvailabilityRepository.AvailabilityRepository.BookSlot: one call alone; concurrent calls are interleaved in the platform.
- BookingRepository.BookingRepository.ClaimConferenceJobs: the order in which the claimed rows are returned is not promised, as in SQL.
- ConferenceStore.Store.GetOrCreate: the two locks are modelled as two atomic sections with other callers' insertions between them; readers that see the first lock while a writer waits add nothing.
