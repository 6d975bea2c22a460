/** What every interleaving of creations, cancellations, lost replies, late deliveries and crashes keeps. */
module SagaProofs {
  import opened Common
  import opened SlotTable
  import opened BookingTables
  import opened Platform

  predicate Held(slots: Slots, slot: Id, booking: Id) {
    slot in slots && slots[slot].holder == Some(booking)
  }

  /** The release request of some cancellation of this booking has reached availability-service. */
  ghost predicate CancelDelivered(cancels: map<Id, CancelProc>, booking: Id) {
    exists pid :: pid in cancels && cancels[pid].booking == booking && Delivered(cancels[pid].call)
  }

  predicate Delivered(call: Option<Call<bool>>) {
    call.Some? && call.value.Answered?
  }

  predicate ReservationSeen(p: CreateProc) {
    p.book.Answered? && p.book.reply.BookOk?
  }

  /** A holder is a creation for that very slot whose book request has been delivered. */
  ghost predicate SlotsOwned(slots: Slots, creates: map<Id, CreateProc>) {
    forall slot {:trigger slots[slot].holder} :: slot in slots && slots[slot].holder.Some? ==>
      && slots[slot].holder.value in creates
      && creates[slots[slot].holder.value].slot == slot
      && creates[slots[slot].holder.value].book.Answered?
  }

  /** How far a creation may be, given what it has seen. */
  predicate PhaseOk(p: CreateProc) {
    && (p.phase.Reserving? || !ReservationSeen(p) ==> p.tx.NotStarted? && p.undo.None?)
    && (!ReservationSeen(p) ==> p.phase.Reserving? || p.phase.Ended?)
    && (p.phase.Reserved? ==> p.book == Answered(BookOk(p.phase.meta)) && p.tx.NotStarted? && p.undo.None?)
    && (p.phase.InDoubt? ==> p.book == Answered(BookOk(p.phase.meta)) && !p.tx.NotStarted? && p.undo.None?)
    && (p.phase.Compensating? ==> !p.tx.NotStarted?)
    && (p.undo.Some? ==> p.phase.Compensating? || (p.phase.Ended? && p.phase.outcome !in {Created, Rejected}))
    && (p.phase == Ended(Rejected) ==> p.book.Answered? && p.book.reply in {BookNotFound, BookPast, BookConflict})
    && (p.phase == Ended(Compensated) ==> p.undo == Some(Answered(true)))
    && (p.tx.Undecided? ==> ReservationSeen(p) && p.tx.row == NewBooking(p.book.reply.meta, p.user, p.requested))
  }

  /** A creation against the booking rows: when its row can exist. */
  predicate RowOk(bookings: map<Id, Booking>, id: Id, p: CreateProc) {
    && (!p.tx.Settled? ==> id !in bookings)
    && (p.phase == Ended(Created) ==> id in bookings)
    && ((p.phase.Compensating? || p.undo.Some?) && !p.hasty ==> p.tx.Settled? && id !in bookings)
  }

  /** A creation against the slots: what it read is still true, and who may have taken its hold away. */
  ghost predicate HoldOk(slots: Slots, cancels: map<Id, CancelProc>, id: Id, p: CreateProc) {
    && (ReservationSeen(p) ==>
          && p.slot in slots
          && p.book.reply.meta == MetaOf(p.slot, slots[p.slot])
          && (Held(slots, p.slot, id) || Delivered(p.undo) || CancelDelivered(cancels, id)))
    && (p.book.Answered? && p.book.reply in {BookNotFound, BookPast, BookConflict} ==> !Held(slots, p.slot, id))
    && (p.undo == Some(Answered(true)) ==> !Held(slots, p.slot, id))
  }

  /** A booking row: copied from its slot, and holding nothing once cancelled. */
  predicate BookingOk(slots: Slots, creates: map<Id, CreateProc>, id: Id, row: Booking) {
    && id in creates
    && row.slot == creates[id].slot && row.user == creates[id].user && row.requested == creates[id].requested
    && ReservationSeen(creates[id])
    && row.slot in slots
    && MetaOf(row.slot, slots[row.slot]) == SlotMeta(row.slot, row.room, row.startAt, row.endAt)
    && (row.status == Cancelled ==> !Held(slots, row.slot, id))
  }

  predicate CancelOk(slots: Slots, bookings: map<Id, Booking>, p: CancelProc) {
    && p.booking in bookings
    && p.slot == bookings[p.booking].slot
    && (p.phase.Released? ==> p.call == Some(Answered(true)))
    && (p.call == Some(Answered(true)) ==> !Held(slots, p.slot, p.booking))
  }

  ghost predicate SagaInv(s: State) {
    && HoldersMatchStatus(s.slots)
    && SlotsOwned(s.slots, s.creates)
    && UniqueActive(s.db.bookings)
    && (forall id :: id in s.creates ==>
          PhaseOk(s.creates[id]) && RowOk(s.db.bookings, id, s.creates[id])
            && HoldOk(s.slots, s.cancels, id, s.creates[id]))
    && (forall id :: id in s.db.bookings ==> BookingOk(s.slots, s.creates, id, s.db.bookings[id]))
    && (forall pid :: pid in s.cancels ==> CancelOk(s.slots, s.db.bookings, s.cancels[pid]))
  }

  // ---------- the slot statements and the holds of everybody else ----------

  /** A statement run for one booking id: no other id gains or loses a hold. */
  ghost predicate OnlyTouches(slots: Slots, after: Slots, booking: Id) {
    && SameGeometry(slots, after)
    && HoldersMatchStatus(after)
    && (forall slot {:trigger after[slot].holder} :: slot in slots ==>
          after[slot].holder == slots[slot].holder
          || (slots[slot].holder == None && after[slot].holder == Some(booking))
          || (slots[slot].holder == Some(booking) && after[slot].holder == None))
  }

  /** BookSlot never takes a slot from its holder, and answers OK exactly when it gave the slot away. */
  lemma BookTouchesOnlyItsBooking(slots: Slots, slot: Id, booking: Id, now: Instant)
    requires HoldersMatchStatus(slots)
    ensures OnlyTouches(slots, Book(slots, slot, booking, now), booking)
    ensures BookAnswer(slots, slot, now).BookOk? <==>
            slot in slots && slots[slot].holder == None && now <= slots[slot].startAt
    ensures BookAnswer(slots, slot, now).BookOk? ==> Held(Book(slots, slot, booking, now), slot, booking)
  {
  }

  /** ReleaseSlot frees a slot only from the given booking, and afterwards that booking does not hold it. */
  lemma ReleaseTouchesOnlyItsBooking(slots: Slots, slot: Id, booking: Id)
    requires HoldersMatchStatus(slots)
    ensures OnlyTouches(slots, Release(slots, slot, booking), booking)
    ensures !Held(Release(slots, slot, booking), slot, booking)
    ensures !Held(slots, slot, booking) ==> Release(slots, slot, booking) == slots
    ensures OnlyFrees(slots, Release(slots, slot, booking))
  {
  }

  ghost predicate OnlyFrees(slots: Slots, after: Slots) {
    forall slot {:trigger after[slot].holder} :: slot in after && after[slot].holder.Some? ==>
      slot in slots && slots[slot].holder == after[slot].holder
  }

  // ---------- one step ----------

  /** A slot statement for one booking leaves what the others know intact. */
  lemma OthersKeepTheirHolds(s: State, after: Slots, booking: Id)
    requires SagaInv(s) && OnlyTouches(s.slots, after, booking)
    ensures forall id :: id in s.creates && id != booking ==> HoldOk(after, s.cancels, id, s.creates[id])
    ensures forall id :: id in s.db.bookings && id != booking ==> BookingOk(after, s.creates, id, s.db.bookings[id])
    ensures forall pid :: pid in s.cancels && s.cancels[pid].booking != booking ==>
            CancelOk(after, s.db.bookings, s.cancels[pid])
  {
    forall slot, id | id != booking
      ensures Held(after, slot, id) <==> Held(s.slots, slot, id)
    {
    }
  }

  /** A creation's own step keeps its phase discipline and its relation to its row. */
  lemma PhaseStep(s: State, id: Id, p: CreateProc, c: CreateStep)
    requires PhaseOk(p)
    ensures PhaseOk(CreateNext(s, id, p, c))
  {
  }

  lemma RowStep(s: State, id: Id, p: CreateProc, c: CreateStep)
    requires PhaseOk(p) && RowOk(s.db.bookings, id, p)
    ensures RowOk(CreateDb(s, id, p, c).bookings, id, CreateNext(s, id, p, c))
  {
  }

  lemma HoldStep(s: State, id: Id, p: CreateProc, c: CreateStep)
    requires HoldersMatchStatus(s.slots) && PhaseOk(p) && HoldOk(s.slots, s.cancels, id, p)
    requires p.book.InFlight? ==> !Held(s.slots, p.slot, id)
    ensures HoldOk(CreateSlots(s, id, p, c), s.cancels, id, CreateNext(s, id, p, c))
    ensures OnlyTouches(s.slots, CreateSlots(s, id, p, c), id)
    ensures p.book.Answered? && !Held(s.slots, p.slot, id) ==> !Held(CreateSlots(s, id, p, c), p.slot, id)
  {
    match c
    case DeliverBook(fault) =>
      hide Book, BookAnswer, PhaseOk;
      BookTouchesOnlyItsBooking(s.slots, p.slot, id, s.now);
      BookedMeta(s.slots, p.slot, id, s.now);
    case DeliverUndo(fault) =>
      hide Release;
      ReleaseTouchesOnlyItsBooking(s.slots, p.slot, id);
    case _ =>
  }

  lemma BookedMeta(slots: Slots, slot: Id, booking: Id, now: Instant)
    ensures BookAnswer(slots, slot, now).BookOk? ==> BookAnswer(slots, slot, now).meta == MetaOf(slot, slots[slot])
    ensures !BookAnswer(slots, slot, now).BookOk? ==> Book(slots, slot, booking, now) == slots
    ensures BookAnswer(slots, slot, now) in {BookNotFound, BookPast, BookConflict}
            || BookAnswer(slots, slot, now).BookOk?
  {
  }

  /** What a creation is for never changes, and a reservation once seen stays seen. */
  lemma IdentityStep(s: State, id: Id, p: CreateProc, c: CreateStep)
    ensures var q := CreateNext(s, id, p, c);
            && q.slot == p.slot && q.user == p.user && q.requested == p.requested
            && (p.book.Answered? ==> q.book == p.book)
  {
  }

  /** Who can hold a slot after a creation's step. */
  lemma OwnersStep(s: State, id: Id, c: CreateStep)
    requires SlotsOwned(s.slots, s.creates) && id in s.creates
    ensures var p := s.creates[id];
            SlotsOwned(CreateSlots(s, id, p, c), s.creates[id := CreateNext(s, id, p, c)])
  {
    var p := s.creates[id];
    IdentityStep(s, id, p, c);
    match c
    case DeliverBook(fault) =>
    case DeliverUndo(fault) =>
    case _ => assert CreateSlots(s, id, p, c) == s.slots;
  }

  /** The booking transaction inserts at most its own row, and never beside an active rival. */
  lemma RowsStep(s: State, id: Id, p: CreateProc, c: CreateStep)
    requires UniqueActive(s.db.bookings)
    ensures var after := CreateDb(s, id, p, c).bookings;
            && UniqueActive(after)
            && (forall k :: k in s.db.bookings ==> k in after && after[k] == s.db.bookings[k])
            && (forall k :: k in after && k !in s.db.bookings ==>
                  k == id && ((p.phase.Reserved? && after[k] == NewBooking(p.phase.meta, p.user, p.requested))
                              || (p.tx.Undecided? && after[k] == p.tx.row)))
  {
    var after := CreateDb(s, id, p, c).bookings;
    forall a, b | a in after && b in after && Rivals(after[a], after[b])
      ensures a == b
    {
      if a in s.db.bookings && b in s.db.bookings {
        assert Rivals(s.db.bookings[a], s.db.bookings[b]);
      }
    }
  }

  lemma CreateStepKeeps(s: State, id: Id, c: CreateStep)
    requires SagaInv(s)
    ensures SagaInv(NextCreate(s, id, c))
  {
    hide CreateNext, CreateSlots, CreateDb, PhaseOk, RowOk, HoldOk, BookingOk, CancelOk, UniqueActive;
    var t := NextCreate(s, id, c);
    if id in s.creates {
      var p := s.creates[id];
      PhaseStep(s, id, p, c);
      RowStep(s, id, p, c);
      HoldStep(s, id, p, c);
      OwnersStep(s, id, c);
      RowsStep(s, id, p, c);
      OthersKeepTheirHolds(s, t.slots, id);
      CreateStepRows(s, id, c);
      CreateStepCancels(s, id, c);
      CreateStepPeers(s, id, c);
    } else {
      NewCreation(s, id, c);
    }
  }

  lemma CreateStepPeers(s: State, id: Id, c: CreateStep)
    requires SagaInv(s) && id in s.creates
    ensures var t := NextCreate(s, id, c);
            forall k :: k in s.creates && k != id ==> RowOk(t.db.bookings, k, s.creates[k])
  {
    hide CreateNext, CreateSlots, CreateDb;
    RowsStep(s, id, s.creates[id], c);
  }

  lemma NewCreation(s: State, id: Id, c: CreateStep)
    requires SagaInv(s) && id !in s.creates
    ensures SagaInv(NextCreate(s, id, c))
  {
    hide CreateNext, CreateSlots, CreateDb, UniqueActive, CancelOk, HoldOk;
    assert id !in s.db.bookings;
    if c.BeginCreate? {
      NothingSeen(s.slots, s.cancels, id,
                  CreateProc(c.slot, c.user, c.requested, InFlight, Reserving, NotStarted, None, false));
    }
  }

  lemma NothingSeen(slots: Slots, cancels: map<Id, CancelProc>, id: Id, p: CreateProc)
    requires p.book.InFlight? && p.undo.None?
    ensures HoldOk(slots, cancels, id, p)
  {
  }

  lemma CreateStepRows(s: State, id: Id, c: CreateStep)
    requires SagaInv(s) && id in s.creates
    ensures var t := NextCreate(s, id, c);
            forall k :: k in t.db.bookings ==> BookingOk(t.slots, t.creates, k, t.db.bookings[k])
  {
    hide CreateNext, CreateSlots, CreateDb, CancelOk;
    var p, t := s.creates[id], NextCreate(s, id, c);
    HoldStep(s, id, p, c);
    RowsStep(s, id, p, c);
    IdentityStep(s, id, p, c);
    OthersKeepTheirHolds(s, t.slots, id);
  }

  lemma CreateStepCancels(s: State, id: Id, c: CreateStep)
    requires SagaInv(s) && id in s.creates
    ensures var t := NextCreate(s, id, c);
            forall pid :: pid in t.cancels ==> CancelOk(t.slots, t.db.bookings, t.cancels[pid])
  {
    hide CreateNext, CreateSlots, CreateDb, HoldOk;
    var p, t := s.creates[id], NextCreate(s, id, c);
    HoldStep(s, id, p, c);
    RowsStep(s, id, p, c);
    OthersKeepTheirHolds(s, t.slots, id);
  }

  lemma CancelIdentityStep(p: CancelProc, x: CancelStep)
    ensures var q := CancelNext(p, x);
            q.booking == p.booking && q.slot == p.slot && (Delivered(p.call) ==> q.call == p.call)
  {
  }

  /** A delivered release stays delivered. */
  lemma CancelDeliveredStays(s: State, pid: Id, x: CancelStep, booking: Id)
    requires CancelDelivered(s.cancels, booking)
    ensures CancelDelivered(NextCancel(s, pid, x).cancels, booking)
  {
    hide CancelSlots, CancelDb, CancelNext, MayCancel;
    var k :| k in s.cancels && s.cancels[k].booking == booking && Delivered(s.cancels[k].call);
    var t := NextCancel(s, pid, x);
    CancelIdentityStep(s.cancels[k], x);
    assert k in t.cancels && t.cancels[k].booking == booking && Delivered(t.cancels[k].call);
  }

  /** A cancelled row differs from the old one in status, link, conference status and cancellation time only. */
  lemma CancelRowsStep(s: State, p: CancelProc, x: CancelStep)
    requires UniqueActive(s.db.bookings)
    ensures var after := CancelDb(s.db, p, x, s.now).bookings;
            && after.Keys == s.db.bookings.Keys
            && UniqueActive(after)
            && (forall k :: k in after && k != p.booking ==> after[k] == s.db.bookings[k])
            && (p.booking in after ==> after[p.booking] == s.db.bookings[p.booking]
                                       || (p.phase.Released?
                                           && after[p.booking] == CancelRow(s.db.bookings[p.booking], s.now)))
  {
    var after := CancelDb(s.db, p, x, s.now).bookings;
    forall a, b | a in after && b in after && Rivals(after[a], after[b])
      ensures a == b
    {
      assert Rivals(s.db.bookings[a], s.db.bookings[b]);
    }
  }

  lemma CancelProcStep(s: State, p: CancelProc, x: CancelStep)
    requires HoldersMatchStatus(s.slots) && CancelOk(s.slots, s.db.bookings, p)
    ensures CancelOk(CancelSlots(s.slots, p, x), CancelDb(s.db, p, x, s.now).bookings, CancelNext(p, x))
    ensures OnlyTouches(s.slots, CancelSlots(s.slots, p, x), p.booking)
    ensures CancelSlots(s.slots, p, x) == s.slots
            || (Delivered(CancelNext(p, x).call) && !Held(CancelSlots(s.slots, p, x), p.slot, p.booking))
    ensures OnlyFrees(s.slots, CancelSlots(s.slots, p, x))
  {
    ReleaseTouchesOnlyItsBooking(s.slots, p.slot, p.booking);
  }

  lemma CancelStepHolds(s: State, pid: Id, x: CancelStep)
    requires SagaInv(s) && pid in s.cancels
    ensures var t := NextCancel(s, pid, x);
            && SlotsOwned(t.slots, t.creates)
            && (forall id :: id in t.creates ==> HoldOk(t.slots, t.cancels, id, t.creates[id]))
  {
    hide CancelSlots, CancelDb, CancelNext, PhaseOk, RowOk, BookingOk;
    var p, t := s.cancels[pid], NextCancel(s, pid, x);
    CancelProcStep(s, p, x);
    CancelIdentityStep(p, x);
    OthersKeepTheirHolds(s, t.slots, p.booking);
    forall id | id in t.creates
      ensures HoldOk(t.slots, t.cancels, id, t.creates[id])
    {
      if CancelDelivered(s.cancels, id) {
        CancelDeliveredStays(s, pid, x, id);
      }
      if id == p.booking && t.slots != s.slots {
        assert t.cancels[pid].booking == id && Delivered(t.cancels[pid].call);
        assert CancelDelivered(t.cancels, id);
      }
    }
  }

  lemma CancelStepRows(s: State, pid: Id, x: CancelStep)
    requires SagaInv(s) && pid in s.cancels
    ensures var t := NextCancel(s, pid, x);
            forall k :: k in t.db.bookings ==> BookingOk(t.slots, t.creates, k, t.db.bookings[k])
  {
    var p, t := s.cancels[pid], NextCancel(s, pid, x);
    CancelProcStep(s, p, x);
    CancelRowsStep(s, p, x);
    OthersKeepTheirHolds(s, t.slots, p.booking);
    assert BookingOk(s.slots, s.creates, p.booking, s.db.bookings[p.booking]);
    assert BookingOk(t.slots, t.creates, p.booking, t.db.bookings[p.booking]);
  }

  lemma CancelStepPeers(s: State, pid: Id, x: CancelStep)
    requires SagaInv(s) && pid in s.cancels
    ensures var t := NextCancel(s, pid, x);
            forall k :: k in t.cancels ==> CancelOk(t.slots, t.db.bookings, t.cancels[k])
  {
    var p, t := s.cancels[pid], NextCancel(s, pid, x);
    CancelProcStep(s, p, x);
    CancelRowsStep(s, p, x);
    OthersKeepTheirHolds(s, t.slots, p.booking);
    forall k | k in t.cancels && k != pid
      ensures CancelOk(t.slots, t.db.bookings, t.cancels[k])
    {
      assert CancelOk(s.slots, s.db.bookings, s.cancels[k]);
      assert s.cancels[k].booking == p.booking ==> s.cancels[k].slot == p.slot;
    }
  }

  lemma CancelStepKeeps(s: State, pid: Id, x: CancelStep)
    requires SagaInv(s)
    ensures SagaInv(NextCancel(s, pid, x))
  {
    hide CancelNext, CancelSlots, CancelDb, PhaseOk, HoldOk, BookingOk, CancelOk, UniqueActive;
    if pid in s.cancels {
      assert CancelOk(s.slots, s.db.bookings, s.cancels[pid]);
      CancelProcStep(s, s.cancels[pid], x);
      CancelRowsStep(s, s.cancels[pid], x);
      CancelStepHolds(s, pid, x);
      CancelStepRows(s, pid, x);
      CancelStepPeers(s, pid, x);
    } else {
      NewCancellation(s, pid, x);
    }
  }

  lemma NewCancellation(s: State, pid: Id, x: CancelStep)
    requires SagaInv(s) && pid !in s.cancels
    ensures SagaInv(NextCancel(s, pid, x))
  {
    hide PhaseOk, RowOk, BookingOk, UniqueActive;
    forall id | id in s.creates && CancelDelivered(s.cancels, id)
      ensures CancelDelivered(NextCancel(s, pid, x).cancels, id)
    {
      CancelDeliveredStays(s, pid, x, id);
    }
  }

  // ---------- generation and workers ----------

  /** Only new, free rows. */
  ghost predicate AddsFreeRows(before: Slots, after: Slots) {
    && (forall k :: k in before ==> k in after && after[k] == before[k])
    && (forall k :: k in after && k !in before ==> after[k].status == Free && after[k].holder == None)
  }

  lemma InsertAddsFreeRow(slots: Slots, id: Id, row: Slot)
    requires id !in slots && row.status == Free && row.holder == None
    ensures AddsFreeRows(slots, Insert(slots, id, row))
  {
  }

  /** A generation step adds free rows at most. */
  lemma GenStepAddsFreeRows(s: State, run: Id, g: GenStep)
    ensures AddsFreeRows(s.slots, GenSlots(s, run, g))
  {
    if g.Advance? && MayAdvance(s, run, g.slot) {
      InsertAddsFreeRow(s.slots, g.slot, RowAt(s.schedules[s.runs[run].room], s.runs[run]));
    }
  }

  lemma FreeRowsKeepSaga(s: State, t: State)
    requires SagaInv(s)
    requires t.db == s.db && t.creates == s.creates && t.cancels == s.cancels
    requires AddsFreeRows(s.slots, t.slots)
    ensures SagaInv(t)
  {
    hide PhaseOk, RowOk, UniqueActive;
    assert forall slot, id :: Held(t.slots, slot, id) <==> Held(s.slots, slot, id);
  }

  /** The same rows up to their conference columns. */
  ghost predicate SameBut(before: map<Id, Booking>, after: map<Id, Booking>) {
    && after.Keys == before.Keys
    && (forall k {:trigger after[k]} :: k in before ==>
          after[k] == before[k].(link := after[k].link, conf := after[k].conf))
  }

  /** A worker's write touches a booking's conference columns only. */
  lemma ApplyKeepsSagaColumns(db: Db, id: Id, w: JobWrite)
    ensures SameBut(db.bookings, Apply(db, id, w).bookings)
  {
  }

  lemma WorkerRowsStep(s: State, hid: Id, w: WorkerStep)
    ensures SameBut(s.db.bookings, NextWorker(s, hid, w).db.bookings)
  {
    hide HandNext, HandLinks, WriteFor, Apply, SameBut;
    SameRows(s.db.bookings);
    if hid in s.hands {
      var h := s.hands[hid];
      if w.WriteBack? && h.phase.Decided? {
        ApplyKeepsSagaColumns(s.db, h.booking, WriteFor(h.phase.verdict, h.attempts));
      }
    }
  }

  lemma SameRows(bookings: map<Id, Booking>)
    ensures SameBut(bookings, bookings)
  {
  }

  lemma ConferenceColumnsKeepSaga(s: State, t: State)
    requires SagaInv(s)
    requires t.slots == s.slots && t.creates == s.creates && t.cancels == s.cancels
    requires SameBut(s.db.bookings, t.db.bookings)
    ensures SagaInv(t)
  {
    hide PhaseOk, HoldOk;
    forall a, b | a in t.db.bookings && b in t.db.bookings && Rivals(t.db.bookings[a], t.db.bookings[b])
      ensures a == b
    {
      assert Rivals(s.db.bookings[a], s.db.bookings[b]);
    }
  }

  lemma NextKeepsSaga(s: State, e: Event)
    requires SagaInv(s)
    ensures SagaInv(Next(s, e))
  {
    hide NextCreate, NextCancel, NextWorker;
    match e
    case Gen(run, g) =>
      GenStepAddsFreeRows(s, run, g);
      FreeRowsKeepSaga(s, Next(s, e));
    case Cre(id, c) => CreateStepKeeps(s, id, c);
    case Can(pid, x) => CancelStepKeeps(s, pid, x);
    case Wrk(hid, w) =>
      WorkerFrame(s, hid, w);
      WorkerRowsStep(s, hid, w);
      ConferenceColumnsKeepSaga(s, Next(s, e));
    case _ =>
  }

  lemma {:induction false} RunKeepsSaga(s: State, es: seq<Event>)
    requires SagaInv(s)
    ensures SagaInv(Run(s, es))
    decreases |es|
  {
    if es != [] {
      RunKeepsSaga(s, es[..|es| - 1]);
      NextKeepsSaga(Run(s, es[..|es| - 1]), es[|es| - 1]);
    }
  }

  lemma ReachableSaga(s: State)
    requires Reachable(s)
    ensures SagaInv(s)
  {
    var now: Instant, es: seq<Event> :| s == Run(Init(now), es);
    RunKeepsSaga(Init(now), es);
  }
}
