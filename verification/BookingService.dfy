/** booking-service: the creation and cancellation sagas and the conference worker, each one a run of the platform. */
module BookingService {
  import opened Common
  import opened SlotTable
  import opened BookingTables
  import opened ConferenceStore
  import opened Platform
  import opened SagaProofs
  import opened JobProofs
  import opened LeaseProofs
  import opened BookingRepository
  import opened SagaRuns
  import opened WorkerRuns
  import AvailabilityRepository

  datatype CreateError =
    | AdminCannotBook | SlotRequired
    | SlotNotFound | SlotInPast | SlotBooked | AvailabilityFailed
    | NotCreated | CreateOutcomeUnknown | NotCompensated

  datatype CancelError = NotFound | Forbidden | LookupBroken | ReleaseFailed | UpdateFailed

  /** What goes wrong in one CreateBooking call. */
  datatype CreateFaults = CreateFaults(book: Fault, tx: TxFault, lookupFails: bool, undo: Fault)

  /** Every remote call and lookup is answered definitely; only the transaction itself may fail or be in doubt. */
  predicate Definite(f: CreateFaults) {
    f.book == NoFault && !f.lookupFails && f.undo == NoFault
  }

  datatype CancelFaults = CancelFaults(lookupFails: bool, release: Fault, update: Fault)

  class BookingService {
    const avail: AvailabilityRepository.AvailabilityRepository
    const repo: BookingRepository
    const store: Store
    var clock: Instant
    ghost var sys: State

    /** The tables are those of the platform state that the processes so far have led to. */
    ghost predicate Valid()
      reads this, avail, repo, store
    {
      && avail.Valid() && Derived(store.links)
      && Reachable(sys) && SagaInv(sys) && JobInv(sys)
      && Synced()
    }

    ghost predicate Synced()
      reads this, avail, repo, store
    {
      sys.now == clock && sys.slots == avail.slots && sys.db == repo.Contents() && sys.links == store.links
    }

    /** A service joins the platform in some state that a run has led to. */
    constructor (avail: AvailabilityRepository.AvailabilityRepository, repo: BookingRepository, store: Store,
                 clock: Instant, ghost s: State)
      requires avail.Valid() && Derived(store.links) && Reachable(s)
      requires s.now == clock && s.slots == avail.slots && s.db == repo.Contents() && s.links == store.links
      ensures Valid() && sys == s && this.avail == avail && this.repo == repo && this.store == store
    {
      ReachableJobs(s);
      this.avail, this.repo, this.store, this.clock, this.sys := avail, repo, store, clock, s;
    }

    /** Records the events that a call amounts to. */
    ghost method Follow(es: seq<Event>)
      requires Reachable(sys) && SagaInv(sys) && JobInv(sys)
      modifies this`sys
      ensures sys == Run(old(sys), es) && Reachable(sys) && SagaInv(sys) && JobInv(sys)
    {
      RunKeepsJobs(sys, es);
      RunIsReachable(sys, es);
      sys := Run(sys, es);
    }

    /** The bookSlot call of a new creation, from its request to the reading of its answer. */
    method CallBookSlot(id: Id, user: Id, slot: Id, requested: bool, fault: Fault)
      returns (reply: BookReply, ghost es: seq<Event>)
      requires Valid() && id !in sys.creates
      modifies this`sys, avail`slots
      ensures Valid() && sys == Run(old(sys), es)
      ensures reply == FaultyAnswer(fault, BookAnswer(old(avail.slots), slot, clock))
      ensures avail.slots == Faulty(fault, old(avail.slots), Book(old(avail.slots), slot, id, clock))
      ensures id in sys.creates
      ensures reply.BookOk? ==>
                sys.creates[id] == CreateProc(slot, user, requested, Answered(reply), Reserved(reply.meta), NotStarted,
                                              None, false)
    {
      hide Run, Reachable, SagaInv, JobInv, Book, BookAnswer, FaultyAnswer;
      es := BookSlotEvents(id, user, slot, requested, fault);
      BookRun(sys, id, user, slot, requested, fault);
      reply := avail.BookSlot(slot, id, clock, fault);
      Follow(es);
    }

    /** The transaction and, when its outcome is unknown, the lookup that resolves it. */
    method SaveBooking(id: Id, row: Booking, tx: TxFault, lookupFails: bool)
      returns (res: Result<Booking, CreateError>, ghost es: seq<Event>)
      requires Valid() && id in sys.creates && sys.creates[id].phase.Reserved? && id !in repo.bookings
      requires row == NewBooking(sys.creates[id].phase.meta, sys.creates[id].user, sys.creates[id].requested)
      modifies this`sys, repo
      ensures Valid() && sys == Run(old(sys), es)
      ensures var applies := CanCreate(old(repo.Contents()), id, row) && tx in {TxOk, TxUnknown(true)};
              && repo.Contents() == (if applies then Create(old(repo.Contents()), id, row, clock)
                                     else old(repo.Contents()))
              && (applies ==> res == (if tx == TxOk || !lookupFails then Ok(row) else Err(CreateOutcomeUnknown)))
              && (!applies ==> res == Err(if tx.TxUnknown? && lookupFails && CanCreate(old(repo.Contents()), id, row)
                                          then CreateOutcomeUnknown else NotCreated))
      ensures id in sys.creates && sys.creates[id].slot == old(sys.creates[id].slot)
      ensures res == Err(NotCreated) ==>
                sys.creates[id].phase.Compensating? && sys.creates[id].undo == old(sys.creates[id].undo)
    {
      hide Run, Reachable, SagaInv, JobInv, CanCreate, Create, AvailabilityRepository.AvailabilityRepository.Valid;
      CreateInsertsRow(repo.Contents(), id, row, clock);
      var stored := repo.CreateWithConferenceJob(id, row, clock, tx);
      match stored
      case Stored =>
        es := [Cre(id, Commit(CommitRuns))];
        CommitRun(sys, id, sys.creates[id], CommitRuns);
        Follow(es);
        return Ok(row), es;
      case NotStored =>
        var how := if tx == TxFails then CommitRejected else CommitRuns;
        es := [Cre(id, Commit(how))];
        CommitRun(sys, id, sys.creates[id], how);
        Follow(es);
        return Err(NotCreated), es;
      case OutcomeUnknown =>
        es := [Cre(id, Commit(CommitUnknown)), Cre(id, Settle(tx.applied)), Cre(id, Lookup(lookupFails))];
        DoubtRun(sys, id, sys.creates[id], tx.applied, lookupFails);
        Follow(es);
        var found := repo.GetByID(id, lookupFails);
        if found.Ok? {
          return Ok(found.value), es;
        }
        return Err(if found.error == BookingNotFound then NotCreated else CreateOutcomeUnknown), es;
    }

    /** The compensating releaseSlot call. */
    method CallReleaseSlot(id: Id, slot: Id, fault: Fault) returns (ok: bool, ghost es: seq<Event>)
      requires Valid() && id in sys.creates && sys.creates[id].slot == slot
      requires sys.creates[id].phase.Compensating? && sys.creates[id].undo.None?
      modifies this`sys, avail`slots
      ensures Valid() && sys == Run(old(sys), es)
      ensures avail.slots == Faulty(fault, old(avail.slots), Release(old(avail.slots), slot, id))
      ensures ok <==> fault == NoFault
    {
      hide Run, Reachable, SagaInv, JobInv, Release;
      es := [Cre(id, SendUndo), Cre(id, DeliverUndo(fault)), Cre(id, ReadUndo)];
      UndoRun(sys, id, sys.creates[id], fault);
      ok := avail.ReleaseSlot(slot, id, fault);
      Follow(es);
    }

    /** CreateBooking is all or nothing: with definite answers it succeeds exactly when the slot could be booked
        and the transaction took effect, leaving an active row whose slot it holds; otherwise both databases are
        as they were. Every call, faults included, is a run of the platform. */
    method CreateBooking(id: Id, user: Id, isAdmin: bool, slot: Id, requested: bool, f: CreateFaults)
      returns (res: Result<Booking, CreateError>, ghost es: seq<Event>)
      requires Valid() && id !in sys.creates
      modifies this`sys, avail`slots, repo
      ensures Valid() && sys == Run(old(sys), es)
      ensures isAdmin ==> res == Err(AdminCannotBook)
      ensures !isAdmin && slot == 0 ==> res == Err(SlotRequired)
      ensures !isAdmin && slot != 0 ==>
                var answer := FaultyAnswer(f.book, BookAnswer(old(avail.slots), slot, clock));
                && (res == Err(SlotNotFound) <==> answer == BookNotFound)
                && (res == Err(SlotInPast) <==> answer == BookPast)
                && (res == Err(SlotBooked) <==> answer == BookConflict)
                && (res == Err(AvailabilityFailed) <==> answer == BookError)
      ensures !isAdmin && slot != 0 && f.book == NoFault ==>
                && (res == Err(SlotNotFound) <==> slot !in old(avail.slots))
                && (res == Err(SlotInPast) <==> slot in old(avail.slots) && old(avail.slots)[slot].startAt < clock)
                && (res == Err(SlotBooked) <==>
                    && slot in old(avail.slots) && clock <= old(avail.slots)[slot].startAt
                    && old(avail.slots)[slot].status == Booked)
      ensures Definite(f) ==>
                (res.Ok? <==>
                 && !isAdmin && slot != 0 && f.tx in {TxOk, TxUnknown(true)}
                 && slot in old(avail.slots) && clock <= old(avail.slots)[slot].startAt
                 && old(avail.slots)[slot].status == Free
                 && forall b :: b in old(repo.bookings) && old(repo.bookings)[b].status == Active ==>
                      old(repo.bookings)[b].slot != slot)
      ensures res.Ok? ==>
                && slot in old(avail.slots)
                && res.value.slot == slot && res.value.user == user && res.value.room == old(avail.slots)[slot].room
                && res.value.startAt == old(avail.slots)[slot].startAt
                && res.value.endAt == old(avail.slots)[slot].endAt
                && res.value.status == Active && res.value.requested == requested && res.value.link == None
                && res.value.conf == (if requested then Pending else NotRequested)
                && repo.bookings == old(repo.bookings)[id := res.value]
                && (requested ==>
                      && id in repo.jobs && repo.jobs == old(repo.jobs)[id := repo.jobs[id]]
                      && repo.jobs[id].status == JobPending && repo.jobs[id].attempts == 0)
                && (!requested ==> repo.jobs == old(repo.jobs))
      ensures res == Err(AvailabilityFailed) ==>
                && avail.slots == Faulty(f.book, old(avail.slots), Book(old(avail.slots), slot, id, clock))
                && repo.Contents() == old(repo.Contents())
      ensures res == Err(NotCompensated) ==>
                && avail.slots == Faulty(f.undo, Book(old(avail.slots), slot, id, clock), old(avail.slots))
                && repo.Contents() == old(repo.Contents())
      ensures Definite(f) ==>
                (res.Ok? <==> !isAdmin && slot != 0 && BookAnswer(old(avail.slots), slot, clock).BookOk?
                              && CanCreate(old(repo.Contents()), id,
                                           NewBooking(MetaOf(slot, old(avail.slots)[slot]), user, requested))
                              && f.tx in {TxOk, TxUnknown(true)})
      ensures res.Ok? || res.error == CreateOutcomeUnknown ==>
                avail.slots == Book(old(avail.slots), slot, id, clock)
      ensures res.Err? && res.error !in {AvailabilityFailed, CreateOutcomeUnknown, NotCompensated} ==>
                avail.slots == old(avail.slots) && repo.Contents() == old(repo.Contents())
      ensures res == Err(CreateOutcomeUnknown) ==>
                && f.tx.TxUnknown? && f.lookupFails && slot in old(avail.slots)
                && repo.Contents() ==
                   (var row := NewBooking(MetaOf(slot, old(avail.slots)[slot]), user, requested);
                    if f.tx.applied then Create(old(repo.Contents()), id, row, clock) else old(repo.Contents()))
      ensures res.Ok? ==>
                && slot in old(avail.slots)
                && res.value == NewBooking(MetaOf(slot, old(avail.slots)[slot]), user, requested)
                && repo.Contents() == Create(old(repo.Contents()), id, res.value, clock)
                && id in repo.bookings && repo.bookings[id] == res.value && Held(avail.slots, slot, id)
      ensures Definite(f) && res.Err? ==> avail.slots == old(avail.slots) && repo.Contents() == old(repo.Contents())
      ensures res.Err? && repo.Contents() != old(repo.Contents()) ==>
                res.error == CreateOutcomeUnknown && Held(avail.slots, slot, id)
    {
      hide Run, Reachable, SagaInv, JobInv, CanCreate, Create, Book, BookAnswer, Release;
      hide AvailabilityRepository.AvailabilityRepository.Valid;
      es := [];
      if isAdmin {
        RunNothing(sys);
        return Err(AdminCannotBook), es;
      }
      if slot == 0 {
        RunNothing(sys);
        return Err(SlotRequired), es;
      }
      FreshIsNowhere(sys, id);
      FreshHasNoJob(sys, id);
      BookColumns(avail.slots, slot, id, clock);
      if slot in avail.slots {
        SavedColumns(avail.slots, repo.Contents(), slot, id, user, requested, clock);
      }
      ghost var start := sys;
      BookEffect(avail.slots, slot, id, clock);
      if BookAnswer(avail.slots, slot, clock).BookOk? {
        BookThenRelease(avail.slots, slot, id, clock);
      }
      var reply, booked := CallBookSlot(id, user, slot, requested, f.book);
      es := booked;
      match reply
      case BookNotFound => return Err(SlotNotFound), es;
      case BookPast => return Err(SlotInPast), es;
      case BookConflict => return Err(SlotBooked), es;
      case BookError => return Err(AvailabilityFailed), es;
      case BookOk(meta) =>
        CreateInsertsRow(repo.Contents(), id, NewBooking(meta, user, requested), clock);
        var saved, saving := SaveBooking(id, NewBooking(meta, user, requested), f.tx, f.lookupFails);
        RunConcat(start, es, saving);
        es := es + saving;
        if saved.Ok? || saved.error == CreateOutcomeUnknown {
          return saved, es;
        }
        var released, undoing := CallReleaseSlot(id, slot, f.undo);
        RunConcat(start, es, undoing);
        es := es + undoing;
        return Err(if released then NotCreated else NotCompensated), es;
    }

    /** CancelBooking: release first, mark cancelled second. A release that is not confirmed leaves the booking
        active; a cancelled booking is answered without another release. Every call is a run of the platform. */
    method CancelBooking(pid: Id, id: Id, user: Id, f: CancelFaults)
      returns (res: Result<Booking, CancelError>, ghost es: seq<Event>)
      requires Valid() && pid !in sys.cancels
      modifies this`sys, avail`slots, repo`bookings
      ensures Valid() && sys == Run(old(sys), es)
      ensures f.lookupFails || !MayCancel(old(repo.Contents()), id, user) ==>
                && avail.slots == old(avail.slots) && repo.Contents() == old(repo.Contents())
                && (res.Ok? <==> !f.lookupFails && id in repo.bookings && repo.bookings[id].user == user)
                && (res.Ok? ==> res.value == repo.bookings[id] && res.value.status == Cancelled)
      ensures !f.lookupFails && id in old(repo.bookings) && old(repo.bookings)[id].user == user
              && old(repo.bookings)[id].status == Active && f.release == NoFault && f.update == NoFault ==>
                && res.Ok? && id in repo.bookings && repo.bookings == old(repo.bookings)[id := res.value]
                && res.value.status == Cancelled && res.value.cancelledAt == Some(clock) && res.value.link == None
                && res.value.conf == NotRequested && res.value.slot == old(repo.bookings)[id].slot
                && !Held(avail.slots, res.value.slot, id)
                && (forall k :: k in old(avail.slots) && k != res.value.slot ==>
                      k in avail.slots && avail.slots[k] == old(avail.slots)[k])
                && (!Held(old(avail.slots), res.value.slot, id) ==> avail.slots == old(avail.slots))
      ensures !f.lookupFails && id in old(repo.bookings) && old(repo.bookings)[id].user == user
              && old(repo.bookings)[id].status == Cancelled ==>
                res == Ok(old(repo.bookings)[id])
                && avail.slots == old(avail.slots) && repo.bookings == old(repo.bookings)
      ensures f.lookupFails <==> res == Err(LookupBroken)
      ensures !f.lookupFails && id !in old(repo.bookings) ==> res == Err(NotFound)
      ensures !f.lookupFails && id in old(repo.bookings) && old(repo.bookings)[id].user != user ==>
              res == Err(Forbidden)
      ensures !f.lookupFails && MayCancel(old(repo.Contents()), id, user) ==>
                && avail.slots == Faulty(f.release, old(avail.slots),
                                         Release(old(avail.slots), old(repo.bookings)[id].slot, id))
                && (f.release != NoFault ==> res == Err(ReleaseFailed) && repo.Contents() == old(repo.Contents()))
                && (f.release == NoFault ==>
                      && repo.Contents() ==
                         Faulty(f.update, old(repo.Contents()), Cancel(old(repo.Contents()), id, clock))
                      && res == (if f.update == NoFault && id in repo.bookings then Ok(repo.bookings[id])
                                 else Err(UpdateFailed)))
    {
      hide Run, Reachable, SagaInv, JobInv, Release, AvailabilityRepository.AvailabilityRepository.Valid;
      es := [];
      RunNothing(sys);
      var found := repo.GetByID(id, f.lookupFails);
      if found.Err? {
        return Err(if found.error == BookingNotFound then NotFound else LookupBroken), es;
      }
      if found.value.user != user {
        return Err(Forbidden), es;
      }
      if found.value.status == Cancelled {
        return Ok(found.value), es;
      }
      ghost var start := sys;
      RequestedOrNot(sys, id);
      ReleaseInColumns(sys, avail.slots, found.value.slot, id);
      CancelColumns(repo.Contents(), id, clock);
      var released := avail.ReleaseSlot(found.value.slot, id, f.release);
      es := [Can(pid, BeginCancel(id, user)), Can(pid, SendRelease), Can(pid, DeliverRelease(f.release)),
             Can(pid, ReadRelease)];
      CancelRun(sys, pid, id, user, f.release);
      Follow(es);
      if !released {
        return Err(ReleaseFailed), es;
      }
      var cancelled := repo.Cancel(id, clock, f.update);
      ghost var last := [Can(pid, MarkCancelled(f.update))];
      MarkRun(sys, pid, sys.cancels[pid], f.update);
      Follow(last);
      RunConcat(start, es, last);
      es := es + last;
      return if cancelled.Ok? then Ok(cancelled.value) else Err(UpdateFailed), es;
    }

    /** requestConferenceLink, against the conference service's store. */
    method RequestConferenceLink(booking: Id, answer: Fault) returns (link: Option<string>)
      requires Derived(store.links)
      modifies store
      ensures Derived(store.links)
      ensures store.links == Faulty(answer, old(store.links), StoreLink(old(store.links), booking))
      ensures link == if answer == NoFault then Some(LinkFor(booking)) else None
    {
      if answer == FailBefore {
        return None;
      }
      var made := store.GetOrCreate(booking, []);
      return if answer == NoFault then Some(made) else None;
    }

    /** The write that the external answer calls for. */
    method WriteAnswer(job: ClaimedJob, link: Option<string>, at: Instant, fault: Fault) returns (ok: bool)
      modifies repo
      ensures repo.Contents() ==
              Faulty(fault, old(repo.Contents()),
                     Apply(old(repo.Contents()), job.booking,
                           WriteFor(if link.Some? then LinkReady(link.value) else CallFailed(at), job.attempts)))
      ensures ok <==> fault == NoFault && Writable(old(repo.Contents()), job.booking)
    {
      if link.None? {
        var attempts := job.attempts + 1;
        if attempts >= MAX_ATTEMPTS {
          ok := repo.FailConferenceJob(job.booking, attempts, fault);
        } else {
          ok := repo.RescheduleConferenceJob(job.booking, attempts, at + Backoff(attempts), fault);
        }
      } else {
        ok := repo.CompleteConferenceJob(job.booking, link.value, job.attempts + 1, fault);
      }
    }

    /** processJob: discard when the booking is cancelled; otherwise ask for the link and complete, reschedule or
        fail. Exactly one write is attempted, it is the one that the booking and the answer call for, and the job
        is done before the given times have passed. */
    method ProcessJob(hid: Id, job: ClaimedJob, r: JobRun) returns (err: bool, ghost es: seq<Event>)
      requires Valid() && hid in sys.hands && sys.hands[hid].phase == Claimed
      requires sys.hands[hid].booking == job.booking && sys.hands[hid].attempts == job.attempts
      modifies this`sys, this`clock, repo, store
      ensures Valid() && sys == Run(old(sys), es)
      ensures var before := old(repo.Contents());
              && job.booking in before.bookings
              && repo.Contents() == Handled(before, job, r, old(clock))
              && (err <==> r.loadFails || r.writeFault != NoFault || !Writable(before, job.booking))
      ensures clock == old(clock) + Duration(old(repo.Contents()), job.booking, r)
      ensures old(clock) + r.load + r.call + r.write < old(sys.hands[hid].claimedAt) + LEASE ==> Punctual(old(sys), es)
      ensures OnlyHand(old(sys), sys, hid, clock - old(clock))
    {
      hide Run, Reachable, SagaInv, JobInv, Apply, WriteFor, Punctual, StoreLink, Derived, LinkFor, Writable;
      hide Discarding, AvailabilityRepository.AvailabilityRepository.Valid;
      HeldJobHasBooking(sys, hid);
      var found := repo.GetByID(job.booking, r.loadFails);
      if found.Err? {
        es := [Tick(r.load), Wrk(hid, Drop)];
        DropRun(sys, hid, r.load);
        Follow(es);
        clock := clock + r.load;
        return true, es;
      }
      if found.value.status == Cancelled {
        es := [Tick(r.load), Wrk(hid, Load), Tick(r.write), Wrk(hid, WriteBack(r.writeFault))];
        DiscardRun(sys, hid, sys.hands[hid], r);
        clock := clock + r.load + r.write;
        DiscardingFor(job.attempts);
        var ok := repo.DiscardConferenceJob(job.booking, job.attempts, r.writeFault);
        Follow(es);
        return !ok, es;
      }
      es := [Tick(r.load), Wrk(hid, Load), Tick(r.call), Wrk(hid, Ask(r.answer)), Tick(r.write),
             Wrk(hid, WriteBack(r.writeFault))];
      AskRun(sys, hid, sys.hands[hid], r);
      var link := RequestConferenceLink(job.booking, r.answer);
      var ok := WriteAnswer(job, link, clock + r.load + r.call, r.writeFault);
      clock := clock + r.load + r.call + r.write;
      Follow(es);
      return !ok, es;
    }

    /** ClaimConferenceJobs as the service calls it: one transaction, recorded as one claim event per row. */
    method ClaimBatch(base: Id, locked: set<Id>, fault: Fault, elapsed: nat)
      returns (r: Result<seq<ClaimedJob>, ()>, ghost taken: seq<ClaimedJob>, ghost es: seq<Event>)
      requires Valid() && forall k :: k in sys.hands ==> k < base
      modifies this`sys, this`clock, repo`jobs
      ensures Valid() && sys == Run(old(sys), es) && Punctual(old(sys), es)
      ensures clock == old(clock) + elapsed && repo.bookings == old(repo.bookings)
      ensures r == if fault == NoFault then Ok(taken) else Err(())
      ensures fault == FailBefore ==> taken == []
      ensures fault != FailBefore ==>
                OldestFirst(old(repo.jobs), old(repo.Candidates(clock, LEASE, locked)), BATCH, taken)
      ensures Distinct(taken) && PassedTo(old(repo.Contents()), repo.Contents(), taken, [], 0, old(clock), clock)
      ensures InHands(sys.hands, taken, base, 0, old(clock))
    {
      hide Run, Reachable, SagaInv, JobInv, Punctual, InHands, PassedTo, OnlyLocked, ClaimEvents;
      hide AvailabilityRepository.AvailabilityRepository.Valid;
      r, taken := repo.ClaimConferenceJobs(BATCH, LEASE, clock, locked, fault);
      NothingLocked(taken, old(repo.jobs), clock);
      MayClaimAll(sys, taken, locked);
      es := ClaimEvents(taken, base) + [Tick(elapsed)];
      ClaimsRun(sys, taken, base);
      ClaimsAreQuiet(taken, base);
      SameLocks(old(repo.jobs), repo.jobs, Run(sys, ClaimEvents(taken, base)).db.jobs, taken, clock);
      NonePassed(sys, repo.jobs, taken, clock, clock + elapsed);
      QuietIsPunctual(sys, es);
      RunSnoc(sys, ClaimEvents(taken, base), Tick(elapsed));
      Follow(es);
      clock := clock + elapsed;
    }

    /** One pass of the conference worker. It claims the oldest jobs that may be claimed, at most 10, writes each of
        them back once as its booking and its answer call for, changes no other job or booking, and reports exactly
        the failed loads and writes. A batch fits the lease: when the claim takes claimTime, external calls are cut
        off by the client's timeout and repository calls take at most d, the pass ends before the lease does whenever
        claimTime + 10 (10 s + 2 d) is less than 5 minutes, and then every write in it is punctual. */
    method ProcessConferenceJobs(base: Id, locked: set<Id>, claim: Fault, claimTime: nat, runs: seq<JobRun>,
                                 ghost d: nat)
      returns (res: Result<nat, ()>, ghost taken: seq<ClaimedJob>, ghost es: seq<Event>)
      requires Valid() && forall k :: k in sys.hands ==> k < base
      modifies this`sys, this`clock, repo, store
      ensures Valid() && sys == Run(old(sys), es)
      ensures if claim == FailBefore then taken == []
              else OldestFirst(old(repo.jobs), old(repo.Candidates(clock, LEASE, locked)), BATCH, taken)
      ensures PassedTo(old(repo.Contents()), repo.Contents(), taken, runs,
                       if claim == NoFault then |taken| else 0, old(clock), clock)
      ensures res == if claim == NoFault then Ok(Mishaps(runs, |taken|)) else Err(())
      ensures res.Ok? ==>
                res.value ==
                |set i | 0 <= i < |taken| && (RunAt(runs, i).loadFails || RunAt(runs, i).writeFault != NoFault)|
      ensures |taken| <= 10
      ensures forall i :: 0 <= i < |taken| ==>
                && taken[i].booking in old(repo.jobs) && taken[i].booking !in locked
                && (var j := old(repo.jobs)[taken[i].booking];
                    && Unfinished(j) && taken[i].attempts == j.attempts
                    && (j.status == JobPending && j.nextRetry.Some? ==> j.nextRetry.value <= old(clock))
                    && (j.status == JobProcessing && j.lockedAt.Some? ==> j.lockedAt.value + 300_000_000 <= old(clock)))
      ensures claim != FailBefore && |taken| < 10 ==>
                forall id :: id in old(repo.jobs) && id !in locked && !IsClaimed(taken, id) ==>
                  var j := old(repo.jobs)[id];
                  && (j.status == JobPending ==> j.nextRetry.Some? && old(clock) < j.nextRetry.value)
                  && (j.status == JobProcessing ==> j.lockedAt.Some? && old(clock) < j.lockedAt.value + 300_000_000)
      ensures (forall r :: r in runs ==> r.load <= d && r.write <= d && r.call <= 10_000_000)
              && claimTime + 10 * (10_000_000 + 2 * d) < 300_000_000 ==>
                clock < old(clock) + 300_000_000 && Punctual(old(sys), es)
    {
      hide Run, Punctual, Handled, PassedTo, Within, InHands, Duration, Distinct, OnlyHand, Valid;
      hide OldestFirst, Claimable, IsClaimed, Unfinished;
      ghost var start, began, original := sys, clock, repo.Contents();
      var claimed;
      claimed, taken, es := ClaimBatch(base, locked, claim, claimTime);
      AnyRuns(original, repo.Contents(), taken, runs, began, clock);
      WhatIsTaken(original.jobs, began, locked, taken);
      MishapsCounts(runs, |taken|);
      LimitsInNumbers(runs, d, claimTime);
      if claimed.Err? {
        return Err(()), taken, es;
      }
      var jobs := claimed.value;
      ghost var fits := (forall r :: r in runs ==> Within(r, d)) && claimTime + BATCH * (HTTP_TIMEOUT + 2 * d) < LEASE;
      var errors := 0;
      for i := 0 to |jobs|
        invariant Valid() && sys == Run(start, es) && began <= clock
        invariant InHands(sys.hands, jobs, base, i, began)
        invariant PassedTo(original, repo.Contents(), jobs, runs, i, began, clock)
        invariant fits ==> clock <= began + claimTime + i * (HTTP_TIMEOUT + 2 * d) && Punctual(start, es)
        invariant errors == Mishaps(runs, i)
      {
        var r := RunAt(runs, i);
        ghost var u, before, now := sys, repo.Contents(), clock;
        NextWaits(original, before, jobs, runs, i, began, clock);
        NextInHand(u.hands, jobs, base, i, began);
        var err, more := ProcessJob(base + i, jobs[i], r);
        PassStep(original, before, repo.Contents(), jobs, runs, i, began, now);
        OthersStayInHands(u, sys, jobs, base, i, began, clock - now);
        RunConcat(start, es, more);
        DurationIsBounded(before, jobs[i].booking, r);
        if fits {
          RunIsWithin(runs, i, d);
          BatchArithmetic(i, claimTime, d, r);
          PunctualConcat(start, es, more);
        }
        es := es + more;
        errors := errors + if err then 1 else 0;
      }
      if fits {
        BatchBound(|jobs|, HTTP_TIMEOUT + 2 * d);
      }
      return Ok(errors), taken, es;
    }
  }
}
