/** The calls of CreateBooking and CancelBooking as stretches of a platform run. */
module SagaRuns {
  import opened Common
  import opened SlotTable
  import opened BookingTables
  import opened Platform
  import opened SagaProofs

  lemma BookEffect(slots: Slots, slot: Id, booking: Id, now: Instant)
    ensures var reply, after := BookAnswer(slots, slot, now), Book(slots, slot, booking, now);
            && reply != BookError
            && (reply.BookOk? ==>
                  slot in slots && reply.meta == MetaOf(slot, slots[slot]) && Held(after, slot, booking))
            && (!reply.BookOk? ==> after == slots)
  {
  }

  /** Compensation undoes a reservation exactly. */
  lemma BookThenRelease(slots: Slots, slot: Id, booking: Id, now: Instant)
    requires HoldersMatchStatus(slots) && BookAnswer(slots, slot, now).BookOk?
    ensures Release(Book(slots, slot, booking, now), slot, booking) == slots
  {
  }

  /** A release for a booking with a row frees what it holds, and nothing else. */
  lemma ReleaseInColumns(s: State, slots: Slots, slot: Id, id: Id)
    requires SagaInv(s) && slots == s.slots
    ensures var after := Release(slots, slot, id);
            && !Held(after, slot, id)
            && (forall k :: k in slots && k != slot ==> k in after && after[k] == slots[k])
            && (!Held(slots, slot, id) ==> after == slots)
  {
    ReleaseTouchesOnlyItsBooking(slots, slot, id);
  }

  /** The row that CreateBooking saves for a slot: when there is room for it, and what its columns are. */
  lemma SavedColumns(slots: Slots, db: Db, slot: Id, id: Id, user: Id, requested: bool, now: Instant)
    requires slot in slots && id !in db.bookings && id !in db.jobs
    ensures var row := NewBooking(MetaOf(slot, slots[slot]), user, requested);
            && (CanCreate(db, id, row) <==>
                forall b :: b in db.bookings && db.bookings[b].status == Active ==> db.bookings[b].slot != slot)
            && row.slot == slot && row.user == user && row.room == slots[slot].room
            && row.startAt == slots[slot].startAt && row.endAt == slots[slot].endAt
            && row.status == Active && row.requested == requested && row.link == None && row.cancelledAt == None
            && row.conf == (if requested then Pending else NotRequested)
            && (CanCreate(db, id, row) ==>
                  var after := Create(db, id, row, now);
                  && after.bookings == db.bookings[id := row]
                  && (requested ==>
                        && id in after.jobs && after.jobs == db.jobs[id := after.jobs[id]]
                        && after.jobs[id].status == JobPending && after.jobs[id].attempts == 0
                        && after.jobs[id].nextRetry == None && after.jobs[id].createdAt == now)
                  && (!requested ==> after.jobs == db.jobs))
  {
  }

  lemma CreateInsertsRow(db: Db, id: Id, row: Booking, now: Instant)
    requires id !in db.bookings
    ensures CanCreate(db, id, row) ==>
              id in Create(db, id, row, now).bookings && Create(db, id, row, now).bookings[id] == row
    ensures !CanCreate(db, id, row) ==> Create(db, id, row, now) == db
  {
  }

  /** A booking id that no creation has used has no row. */
  lemma FreshIsNowhere(s: State, id: Id)
    requires SagaInv(s) && id !in s.creates
    ensures id !in s.db.bookings && HoldersMatchStatus(s.slots)
  {
  }

  /** The events of a bookSlot call. */
  function BookSlotEvents(id: Id, user: Id, slot: Id, requested: bool, fault: Fault): seq<Event> {
    [Cre(id, BeginCreate(slot, user, requested)), Cre(id, DeliverBook(fault)), Cre(id, ReadBook)]
  }

  predicate SameClockAndLinks(s: State, t: State) {
    t.now == s.now && t.links == s.links
  }

  lemma BookRun(s: State, id: Id, user: Id, slot: Id, requested: bool, fault: Fault)
    requires id !in s.creates
    ensures var t := Run(s, BookSlotEvents(id, user, slot, requested, fault));
            var reply := FaultyAnswer(fault, BookAnswer(s.slots, slot, s.now));
            && SameClockAndLinks(s, t) && t.db == s.db && t.cancels == s.cancels
            && t.slots == Faulty(fault, s.slots, Book(s.slots, slot, id, s.now))
            && id in t.creates
            && (reply.BookOk? ==>
                  t.creates[id] == CreateProc(slot, user, requested, Answered(reply), Reserved(reply.meta), NotStarted,
                                              None, false))
  {
    hide Run, NextWorker, NextCancel, NextGen, Create, CanCreate;
    RunThree(s, Cre(id, BeginCreate(slot, user, requested)), Cre(id, DeliverBook(fault)), Cre(id, ReadBook));
  }

  lemma CommitRun(s: State, id: Id, p: CreateProc, how: CommitOutcome)
    requires id in s.creates && s.creates[id] == p && p.phase.Reserved? && how != CommitUnknown
    ensures var t := Run(s, [Cre(id, Commit(how))]);
            var row := NewBooking(p.phase.meta, p.user, p.requested);
            && SameClockAndLinks(s, t) && t.slots == s.slots && t.cancels == s.cancels
            && t.db == (if how == CommitRuns then Create(s.db, id, row, s.now) else s.db)
            && id in t.creates && t.creates[id].slot == p.slot && t.creates[id].undo == p.undo
            && (how == CommitRejected || !CanCreate(s.db, id, row) ==> t.creates[id].phase.Compensating?)
  {
    RunThree(s, Cre(id, Commit(how)), Tick(0), Tick(0));
  }

  lemma DoubtRun(s: State, id: Id, p: CreateProc, applied: bool, fails: bool)
    requires id in s.creates && s.creates[id] == p && p.phase.Reserved? && id !in s.db.bookings
    ensures var t := Run(s, [Cre(id, Commit(CommitUnknown)), Cre(id, Settle(applied)), Cre(id, Lookup(fails))]);
            var row := NewBooking(p.phase.meta, p.user, p.requested);
            && SameClockAndLinks(s, t) && t.slots == s.slots
            && t.db == (if applied then Create(s.db, id, row, s.now) else s.db)
            && id in t.creates && t.creates[id].slot == p.slot && t.creates[id].undo == p.undo
            && (!fails && id !in t.db.bookings ==> t.creates[id].phase.Compensating?)
  {
    RunThree(s, Cre(id, Commit(CommitUnknown)), Cre(id, Settle(applied)), Cre(id, Lookup(fails)));
  }

  lemma UndoRun(s: State, id: Id, p: CreateProc, fault: Fault)
    requires id in s.creates && s.creates[id] == p && p.phase.Compensating? && p.undo.None?
    ensures var t := Run(s, [Cre(id, SendUndo), Cre(id, DeliverUndo(fault)), Cre(id, ReadUndo)]);
            && SameClockAndLinks(s, t) && t.db == s.db
            && t.slots == Faulty(fault, s.slots, Release(s.slots, p.slot, id))
  {
    hide Run, NextWorker, NextCancel, NextGen, Release;
    RunThree(s, Cre(id, SendUndo), Cre(id, DeliverUndo(fault)), Cre(id, ReadUndo));
  }

  lemma CancelRun(s: State, pid: Id, id: Id, user: Id, fault: Fault)
    requires pid !in s.cancels && MayCancel(s.db, id, user)
    ensures var t := Run(s, [Can(pid, BeginCancel(id, user)), Can(pid, SendRelease), Can(pid, DeliverRelease(fault)),
                             Can(pid, ReadRelease)]);
            && SameClockAndLinks(s, t) && t.db == s.db
            && t.slots == Faulty(fault, s.slots, Release(s.slots, s.db.bookings[id].slot, id))
            && pid in t.cancels && t.cancels[pid].booking == id && (fault == NoFault ==> t.cancels[pid].phase.Released?)
  {
    hide Run, NextWorker, NextCreate, NextGen, Release, Cancel;
    var a, b, c, d := Can(pid, BeginCancel(id, user)), Can(pid, SendRelease), Can(pid, DeliverRelease(fault)),
                      Can(pid, ReadRelease);
    RunThree(s, a, b, c);
    RunSnoc(s, [a, b, c], d);
    assert [a, b, c] + [d] == [a, b, c, d];
  }

  lemma MarkRun(s: State, pid: Id, p: CancelProc, fault: Fault)
    requires pid in s.cancels && s.cancels[pid] == p && p.phase.Released?
    ensures var t := Run(s, [Can(pid, MarkCancelled(fault))]);
            SameClockAndLinks(s, t) && t.slots == s.slots && t.db == Faulty(fault, s.db, Cancel(s.db, p.booking, s.now))
  {
    RunThree(s, Can(pid, MarkCancelled(fault)), Tick(0), Tick(0));
  }
}
