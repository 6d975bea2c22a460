/** Who holds which slot, exactly: a hold is what has happened to it. */
module HoldTheorems {
  import opened Common
  import opened SlotTable
  import opened BookingTables
  import opened Platform
  import opened SagaProofs
  import opened SagaRuns
  import opened SagaTheorems

  // ---------- what can happen to a booking's hold ----------

  /** A book request of this booking takes effect. */
  predicate Takes(s: State, e: Event, id: Id) {
    && e.Cre? && e.id == id && e.c.DeliverBook? && e.c.bookFault != FailBefore
    && id in s.creates && s.creates[id].book.InFlight?
    && BookAnswer(s.slots, s.creates[id].slot, s.now).BookOk?
  }

  /** The undo of this booking's creation takes effect, whether its reply gets through or not. */
  predicate Undoes(s: State, e: Event, id: Id) {
    && e.Cre? && e.id == id && e.c.DeliverUndo? && e.c.undoFault != FailBefore
    && id in s.creates && s.creates[id].undo == Some(InFlight)
  }

  /** The release of a cancellation of this booking takes effect, whether its reply gets through or not. */
  predicate Releases(s: State, e: Event, id: Id) {
    && e.Can? && e.x.DeliverRelease? && e.x.releaseFault != FailBefore
    && e.pid in s.cancels && s.cancels[e.pid].booking == id && s.cancels[e.pid].call == Some(InFlight)
  }

  datatype Past = Past(taken: bool, undone: bool, released: bool) {
    predicate Freed() {
      undone || released
    }

    predicate Holds() {
      taken && !Freed()
    }
  }

  function PastAfter(s: State, e: Event, id: Id, past: Past): Past {
    Past(past.taken || Takes(s, e, id), past.undone || Undoes(s, e, id), past.released || Releases(s, e, id))
  }

  /** What a run has done to the hold of a booking. */
  function PastOf(s: State, es: seq<Event>, id: Id): Past {
    if es == [] then Past(false, false, false)
    else
      PastAfter(Run(s, es[..|es| - 1]), es[|es| - 1], id, PastOf(s, es[..|es| - 1], id))
  }

  /** Some run from empty tables to s has this past for the booking. */
  ghost predicate Lived(s: State, id: Id, past: Past) {
    exists now: Instant, es: seq<Event> :: s == Run(Init(now), es) && past == PastOf(Init(now), es, id)
  }

  // ---------- one event ----------

  lemma OwnStepOnHold(s: State, id: Id, c: CreateStep)
    requires SagaInv(s) && id in s.creates
    ensures var p, e := s.creates[id], Cre(id, c);
            Held(CreateSlots(s, id, p, c), p.slot, id) <==>
            Takes(s, e, id) || (Held(s.slots, p.slot, id) && !Undoes(s, e, id))
  {
    hide HoldOk, BookingOk, CancelOk, PhaseOk, RowOk, UniqueActive;
    var p := s.creates[id];
    match c
    case DeliverBook(fault) => BookTouchesOnlyItsBooking(s.slots, p.slot, id, s.now);
    case DeliverUndo(fault) => ReleaseTouchesOnlyItsBooking(s.slots, p.slot, id);
    case _ =>
  }

  lemma PeerStepOnHold(s: State, cid: Id, c: CreateStep, id: Id)
    requires SagaInv(s) && cid in s.creates && id in s.creates && cid != id
    ensures var p := s.creates[id];
            Held(CreateSlots(s, cid, s.creates[cid], c), p.slot, id) <==> Held(s.slots, p.slot, id)
  {
    hide CreateSlots, CreateNext;
    HoldStep(s, cid, s.creates[cid], c);
  }

  lemma CreateStepOnHold(s: State, cid: Id, c: CreateStep, id: Id)
    requires SagaInv(s) && id in s.creates
    ensures var p, t, e := s.creates[id], NextCreate(s, cid, c), Cre(cid, c);
            && id in t.creates && t.creates[id].slot == p.slot
            && (p.book.Answered? ==> t.creates[id].book == p.book)
            && (Held(t.slots, p.slot, id) <==> Takes(s, e, id) || (Held(s.slots, p.slot, id) && !Undoes(s, e, id)))
  {
    hide SagaInv, CreateSlots, CreateNext, CreateDb;
    if cid in s.creates {
      IdentityStep(s, cid, s.creates[cid], c);
      if cid == id {
        OwnStepOnHold(s, id, c);
      } else {
        PeerStepOnHold(s, cid, c, id);
      }
    }
  }

  lemma CancelStepOnHold(s: State, pid: Id, x: CancelStep, id: Id)
    requires SagaInv(s) && id in s.creates
    ensures var slot, t := s.creates[id].slot, NextCancel(s, pid, x);
            Held(t.slots, slot, id) <==> Held(s.slots, slot, id) && !Releases(s, Can(pid, x), id)
  {
    hide CancelNext, CancelDb, HoldOk, PhaseOk, RowOk, UniqueActive;
    if pid in s.cancels {
      var p := s.cancels[pid];
      assert CancelOk(s.slots, s.db.bookings, p);
      assert BookingOk(s.slots, s.creates, p.booking, s.db.bookings[p.booking]);
      ReleaseTouchesOnlyItsBooking(s.slots, p.slot, p.booking);
    }
  }

  /** The slots of a booking's creation change hands by these three kinds of event and by no other. */
  lemma HoldEffect(s: State, e: Event, id: Id)
    requires SagaInv(s) && id in s.creates
    ensures var p, t := s.creates[id], Next(s, e);
            && id in t.creates && t.creates[id].slot == p.slot
            && (p.book.Answered? ==> t.creates[id].book == p.book)
            && (Held(t.slots, p.slot, id) <==>
                Takes(s, e, id) || (Held(s.slots, p.slot, id) && !Undoes(s, e, id) && !Releases(s, e, id)))
  {
    hide NextCreate, NextCancel, NextWorker, SagaInv, GenSlots, GenRuns;
    match e
    case Gen(run, g) => GenKeepsHolds(s, run, g, id);
    case Cre(cid, c) => CreateStepOnHold(s, cid, c, id);
    case Can(pid, x) =>
      CancelFrame(s, pid, x);
      CancelStepOnHold(s, pid, x, id);
    case Wrk(hid, w) => WorkerFrame(s, hid, w);
    case _ =>
  }

  lemma GenKeepsHolds(s: State, run: Id, g: GenStep, id: Id)
    requires SagaInv(s)
    ensures forall slot :: Held(GenSlots(s, run, g), slot, id) <==> Held(s.slots, slot, id)
  {
    hide GenSlots;
    GenStepAddsFreeRows(s, run, g);
  }

  // ---------- whole runs ----------

  /** What is known of a booking with this past. */
  predicate PastOk(s: State, id: Id, past: Past) {
    if id !in s.creates then past == Past(false, false, false)
    else
      var p := s.creates[id];
      && (Held(s.slots, p.slot, id) <==> past.Holds())
      && (ReservationSeen(p) ==> past.taken)
      && (past.taken || past.Freed() ==> p.book.Answered?)
      && (past.undone ==> Delivered(p.undo))
  }

  /** A booking whose creation has not begun cannot have a past, and begins without a hold. */
  lemma PastBegins(s: State, e: Event, id: Id)
    requires SagaInv(s) && id !in s.creates
    ensures PastOk(Next(s, e), id, PastAfter(s, e, id, Past(false, false, false)))
  {
    hide Next, SagaInv, Takes, Undoes, Releases, PastAfter;
    NothingYet(s, e, id);
    BeginsUnseen(s, e, id);
  }

  lemma NothingYet(s: State, e: Event, id: Id)
    requires SagaInv(s) && id !in s.creates
    ensures PastAfter(s, e, id, Past(false, false, false)) == Past(false, false, false)
  {
    hide PhaseOk, RowOk, HoldOk, UniqueActive;
  }

  lemma BeginsUnseen(s: State, e: Event, id: Id)
    requires SagaInv(s) && id !in s.creates
    ensures id in Next(s, e).creates ==>
              var q := Next(s, e).creates[id];
              q.book.InFlight? && q.undo.None? && !Held(Next(s, e).slots, q.slot, id)
  {
    hide NextWorker, NextCancel, NextGen, CreateNext, CreateSlots, CreateDb, PhaseOk, RowOk, HoldOk;
    hide BookingOk, CancelOk, UniqueActive;
    match e
    case Wrk(hid, w) => WorkerFrame(s, hid, w);
    case Can(pid, x) => CancelFrame(s, pid, x);
    case Gen(run, g) => GenFrame(s, run, g);
    case _ =>
  }

  /** What a creation sees and has undone, one event on. */
  lemma SightsStep(s: State, e: Event, id: Id)
    requires id in s.creates && id in Next(s, e).creates
    ensures var p, q := s.creates[id], Next(s, e).creates[id];
            && (ReservationSeen(q) ==> ReservationSeen(p) || Takes(s, e, id))
            && (Takes(s, e, id) ==> q.book.Answered?)
            && (Delivered(p.undo) || Undoes(s, e, id) ==> Delivered(q.undo))
  {
    hide Next, CreateNext, ReservationSeen, Delivered;
    OwnStepOnly(s, e, id);
    if e.Cre? && e.id == id {
      SightsOfStep(s, id, s.creates[id], e.c);
    }
  }

  /** A creation's record changes by its own steps only. */
  lemma OwnStepOnly(s: State, e: Event, id: Id)
    requires id in s.creates
    ensures id in Next(s, e).creates
    ensures Next(s, e).creates[id] ==
            if e.Cre? && e.id == id then CreateNext(s, id, s.creates[id], e.c) else s.creates[id]
  {
    hide NextWorker, NextCancel, GenSlots, GenRuns, CreateNext, CreateSlots, CreateDb;
    match e
    case Wrk(hid, w) => WorkerFrame(s, hid, w);
    case Can(pid, x) => CancelFrame(s, pid, x);
    case _ =>
  }

  lemma SightsOfStep(s: State, id: Id, p: CreateProc, c: CreateStep)
    requires id in s.creates && s.creates[id] == p
    ensures var q := CreateNext(s, id, p, c);
            && (ReservationSeen(q) ==> ReservationSeen(p) || Takes(s, Cre(id, c), id))
            && (Takes(s, Cre(id, c), id) ==> q.book.Answered?)
            && (Delivered(p.undo) || Undoes(s, Cre(id, c), id) ==> Delivered(q.undo))
  {
  }

  /** A hold can only be freed once the request for it has been answered. */
  lemma FreedAfterAnswer(s: State, e: Event, id: Id)
    requires SagaInv(s) && id in s.creates && (Undoes(s, e, id) || Releases(s, e, id))
    ensures s.creates[id].book.Answered?
  {
    hide RowOk, HoldOk, UniqueActive;
    assert PhaseOk(s.creates[id]);
    if Releases(s, e, id) {
      assert CancelOk(s.slots, s.db.bookings, s.cancels[e.pid]);
      assert BookingOk(s.slots, s.creates, id, s.db.bookings[id]);
    }
  }

  lemma PastStep(s: State, e: Event, id: Id, past: Past)
    requires SagaInv(s) && PastOk(s, id, past)
    ensures PastOk(Next(s, e), id, PastAfter(s, e, id, past))
  {
    hide Next, SagaInv;
    if id in s.creates {
      HoldEffect(s, e, id);
      SightsStep(s, e, id);
      if Undoes(s, e, id) || Releases(s, e, id) {
        FreedAfterAnswer(s, e, id);
      }
    } else {
      PastBegins(s, e, id);
    }
  }

  lemma {:induction false} PastOfRun(now: Instant, es: seq<Event>, id: Id)
    ensures SagaInv(Run(Init(now), es)) && PastOk(Run(Init(now), es), id, PastOf(Init(now), es, id))
    decreases |es|
  {
    hide Next, SagaInv, PastOk, Takes, Undoes, Releases;
    if es == [] {
      NothingHasHappened(now, id);
    } else {
      var u, e := Run(Init(now), es[..|es| - 1]), es[|es| - 1];
      PastOfRun(now, es[..|es| - 1], id);
      PastStep(u, e, id, PastOf(Init(now), es[..|es| - 1], id));
      NextKeepsSaga(u, e);
    }
  }

  lemma NothingHasHappened(now: Instant, id: Id)
    ensures SagaInv(Init(now)) && PastOk(Init(now), id, Past(false, false, false))
  {
  }

  lemma LivedPast(s: State, id: Id, past: Past)
    requires Lived(s, id, past)
    ensures SagaInv(s) && PastOk(s, id, past)
  {
    var now: Instant, es: seq<Event> :| s == Run(Init(now), es) && past == PastOf(Init(now), es, id);
    PastOfRun(now, es, id);
  }

  // ---------- main results ----------

  /** The hold of every creation, exactly: it is there when a book request took effect and no undo and no
      release of it has. */
  lemma HoldIsExact(s: State, id: Id, past: Past)
    requires Lived(s, id, past) && id in s.creates
    ensures Held(s.slots, s.creates[id].slot, id) <==> past.taken && !past.undone && !past.released
  {
    LivedPast(s, id, past);
  }

  /** The hold of every booking with a row, exactly: it is there until an undo or a release takes effect; and
      only a creation that looked itself up too early ever undoes a booking that has a row. */
  lemma RowHoldIsExact(s: State, id: Id, past: Past)
    requires Lived(s, id, past) && id in s.db.bookings
    ensures Held(s.slots, s.db.bookings[id].slot, id) <==> !past.Freed()
    ensures past.undone ==> id in s.creates && s.creates[id].hasty
  {
    LivedPast(s, id, past);
    assert BookingOk(s.slots, s.creates, id, s.db.bookings[id]);
    assert RowOk(s.db.bookings, id, s.creates[id]);
  }

  /** An active booking that no cancellation has released lacks its slot exactly when its own creation's undo took
      effect, which needs a lookup that came too early. */
  lemma ActiveLacksItsSlotIff(s: State, id: Id, past: Past)
    requires Lived(s, id, past) && id in s.db.bookings && s.db.bookings[id].status == Active && !past.released
    ensures !Held(s.slots, s.db.bookings[id].slot, id) <==> past.undone
    ensures past.undone ==> id in s.creates && s.creates[id].hasty && Delivered(s.creates[id].undo)
  {
    hide Lived, SagaInv;
    RowHoldIsExact(s, id, past);
    LivedPast(s, id, past);
  }

  /** When "active" and "holds its slot" agree for a booking, exactly: it is cancelled, or active and never freed,
      or without a row and without a hold left over. */
  lemma ActiveEqualsHeldIff(s: State, id: Id, past: Past)
    requires Lived(s, id, past) && id in s.creates
    ensures var active := id in s.db.bookings && s.db.bookings[id].status == Active;
            (active <==> Held(s.slots, s.creates[id].slot, id)) <==>
            if id in s.db.bookings then s.db.bookings[id].status == Cancelled || !past.Freed()
            else !past.taken || past.undone || past.released
  {
    LivedPast(s, id, past);
    if id in s.db.bookings {
      assert BookingOk(s.slots, s.creates, id, s.db.bookings[id]);
    }
  }

  /** When a slot is booked, exactly. */
  lemma SlotIsBookedIff(now: Instant, es: seq<Event>, slot: Id)
    requires slot in Run(Init(now), es).slots
    ensures var s := Run(Init(now), es);
            s.slots[slot].status == Booked <==>
            exists id :: id in s.creates && s.creates[id].slot == slot && PastOf(Init(now), es, id).Holds()
  {
    hide Run, PastOf, PhaseOk, RowOk, HoldOk, BookingOk, CancelOk, UniqueActive, Past.Holds;
    var s := Run(Init(now), es);
    PastOfRun(now, es, 0);
    if s.slots[slot].holder.Some? {
      PastOfRun(now, es, s.slots[slot].holder.value);
    }
    forall id | id in s.creates && s.creates[id].slot == slot && PastOf(Init(now), es, id).Holds()
      ensures s.slots[slot].holder == Some(id)
    {
      PastOfRun(now, es, id);
    }
  }

  /** An active booking has this slot. */
  predicate Occupied(bookings: map<Id, Booking>, slot: Id) {
    exists id :: id in bookings && bookings[id].slot == slot && bookings[id].status == Active
  }

  /** A creation without a row holds this slot. */
  ghost predicate Orphaned(now: Instant, es: seq<Event>, slot: Id) {
    var s := Run(Init(now), es);
    exists id :: id in s.creates && id !in s.db.bookings && s.creates[id].slot == slot
      && PastOf(Init(now), es, id).Holds()
  }

  /** An active booking has this slot, and its hold has been freed. */
  ghost predicate Bereft(now: Instant, es: seq<Event>, slot: Id) {
    var s := Run(Init(now), es);
    exists id :: id in s.db.bookings && s.db.bookings[id].slot == slot && s.db.bookings[id].status == Active
                 && PastOf(Init(now), es, id).Freed()
  }

  lemma OrphanedIff(now: Instant, es: seq<Event>, slot: Id)
    requires slot in Run(Init(now), es).slots
    ensures var s := Run(Init(now), es);
            Orphaned(now, es, slot) <==>
            s.slots[slot].holder.Some? && s.slots[slot].holder.value !in s.db.bookings
  {
    hide Run, PastOf, PhaseOk, RowOk, HoldOk, BookingOk, CancelOk, UniqueActive, Past.Holds;
    var s := Run(Init(now), es);
    PastOfRun(now, es, 0);
    if s.slots[slot].holder.Some? {
      PastOfRun(now, es, s.slots[slot].holder.value);
    }
    if Orphaned(now, es, slot) {
      var id :| id in s.creates && id !in s.db.bookings && s.creates[id].slot == slot
                && PastOf(Init(now), es, id).Holds();
      PastOfRun(now, es, id);
    }
  }

  lemma BereftIff(now: Instant, es: seq<Event>, slot: Id)
    requires slot in Run(Init(now), es).slots
    ensures var s := Run(Init(now), es);
            && (Bereft(now, es, slot) <==>
                Occupied(s.db.bookings, slot)
                && !(s.slots[slot].holder.Some? && s.slots[slot].holder.value in s.db.bookings))
            && (s.slots[slot].holder.Some? && s.slots[slot].holder.value in s.db.bookings ==>
                  Occupied(s.db.bookings, slot))
  {
    hide Run, PastOf, PhaseOk, RowOk, HoldOk, CancelOk;
    var s := Run(Init(now), es);
    PastOfRun(now, es, 0);
    if s.slots[slot].holder.Some? && s.slots[slot].holder.value in s.db.bookings {
      var h := s.slots[slot].holder.value;
      assert BookingOk(s.slots, s.creates, h, s.db.bookings[h]);
    }
    forall id | id in s.db.bookings && s.db.bookings[id].slot == slot && s.db.bookings[id].status == Active
      ensures PastOf(Init(now), es, id).Freed() <==> s.slots[slot].holder != Some(id)
      ensures s.slots[slot].holder.Some? && s.slots[slot].holder.value in s.db.bookings ==>
                s.slots[slot].holder == Some(id)
    {
      PastOfRun(now, es, id);
      assert BookingOk(s.slots, s.creates, id, s.db.bookings[id]);
      if s.slots[slot].holder.Some? && s.slots[slot].holder.value in s.db.bookings {
        assert Rivals(s.db.bookings[s.slots[slot].holder.value], s.db.bookings[id]);
      }
    }
  }

  /** When "slot booked" and "some active booking has it" agree, exactly: an orphaned hold and a bereft booking
      either both exist for the slot, and hide each other, or neither does. */
  lemma BookedEqualsOccupiedIff(now: Instant, es: seq<Event>, slot: Id)
    requires slot in Run(Init(now), es).slots
    ensures var s := Run(Init(now), es);
            (s.slots[slot].status == Booked <==> Occupied(s.db.bookings, slot)) <==>
            (Orphaned(now, es, slot) <==> Bereft(now, es, slot))
  {
    hide Run, PastOf, SagaInv, Orphaned, Bereft, Occupied;
    PastOfRun(now, es, 0);
    assert HoldersMatchStatus(Run(Init(now), es).slots) by { MatchOfSaga(Run(Init(now), es)); }
    OrphanedIff(now, es, slot);
    BereftIff(now, es, slot);
  }

  lemma MatchOfSaga(s: State)
    requires SagaInv(s)
    ensures HoldersMatchStatus(s.slots)
  {
  }

  // ---------- the hold that is never given back ----------

  /** A creation that has ended without a row, with no undo and no transaction outstanding, and still holds. */
  predicate Leaked(s: State, id: Id) {
    && id in s.creates && s.creates[id].phase.Ended?
    && s.creates[id].undo != Some(InFlight) && !s.creates[id].tx.Undecided?
    && id !in s.db.bookings && Held(s.slots, s.creates[id].slot, id)
  }

  lemma LeakStep(s: State, e: Event, id: Id)
    requires SagaInv(s) && Leaked(s, id)
    ensures Leaked(Next(s, e), id) && Next(s, e).creates[id].slot == s.creates[id].slot
  {
    hide Next, SagaInv, CreateNext;
    OwnStepOnly(s, e, id);
    if e.Cre? {
      EndedRecord(s, id, s.creates[id], e);
    }
    HoldEffect(s, e, id);
    NoReleaseWithoutRow(s, e, id);
    if InsertsRow(s, e, id) {
      OnlyCreationsInsert(s, e, id);
      RowNeedsTransaction(s, e, id);
    }
  }

  lemma EndedRecord(s: State, id: Id, p: CreateProc, e: Event)
    requires e.Cre? && p.phase.Ended? && p.undo != Some(InFlight) && !p.tx.Undecided?
    ensures var q := CreateNext(s, id, p, e.c);
            q.phase.Ended? && q.undo == p.undo && q.tx == p.tx && q.slot == p.slot
  {
  }

  lemma NoReleaseWithoutRow(s: State, e: Event, id: Id)
    requires SagaInv(s) && id !in s.db.bookings
    ensures !Releases(s, e, id)
  {
    hide PhaseOk, RowOk, HoldOk, BookingOk, UniqueActive;
  }

  lemma RowNeedsTransaction(s: State, e: Event, id: Id)
    requires SagaInv(s) && InsertsRow(s, e, id) && e.Cre? && e.id == id && id in s.creates
    ensures s.creates[id].phase.Reserved? || s.creates[id].tx.Undecided?
  {
    hide RowOk, HoldOk, BookingOk, CancelOk, UniqueActive, CreateNext, CreateSlots, CreateDb;
    InsertNeedsRoom(s, id, s.creates[id], e.c);
  }

  /** The saga's leak: nothing ever gives such a hold back, and no row ever comes to explain it. */
  lemma LeakIsForEver(s: State, t: State, id: Id)
    requires Reachable(s) && Later(s, t) && Leaked(s, id)
    ensures id !in t.db.bookings && Held(t.slots, s.creates[id].slot, id)
  {
    ReachableSaga(s);
    var more :| t == Run(s, more);
    LeakRun(s, more, id);
  }

  lemma {:induction false} LeakRun(s: State, es: seq<Event>, id: Id)
    requires SagaInv(s) && Leaked(s, id)
    ensures SagaInv(Run(s, es)) && Leaked(Run(s, es), id) && Run(s, es).creates[id].slot == s.creates[id].slot
    decreases |es|
  {
    hide Next, SagaInv;
    if es == [] {
    } else {
      LeakRun(s, es[..|es| - 1], id);
      LeakStep(Run(s, es[..|es| - 1]), es[|es| - 1], id);
      NextKeepsSaga(Run(s, es[..|es| - 1]), es[|es| - 1]);
    }
  }

  // ---------- "booked exactly when active" fails in both directions ----------

  /** A creation whose book reply is lost. */
  function LostReply(slot: Id, id: Id, user: Id): seq<Event> {
    BookSlotEvents(id, user, slot, false, FailAfter)
  }

  /** On every free future slot: a lost reply leaves the slot booked and no row, for ever. */
  lemma LostReplyLeavesAHold(s: State, slot: Id, id: Id, user: Id)
    requires Reachable(s) && id !in s.creates
    requires slot in s.slots && s.slots[slot].status == Free && s.slots[slot].startAt >= s.now
    ensures var t := Run(s, LostReply(slot, id, user));
            && slot in t.slots && t.slots[slot].status == Booked && Held(t.slots, slot, id)
            && t.db == s.db && id !in t.db.bookings && Leaked(t, id)
  {
    hide Reachable, SagaInv, Run;
    ReachableSaga(s);
    FreshIsNowhere(s, id);
    BookRun(s, id, user, slot, false, FailAfter);
    LostRecord(s, slot, id, user);
  }

  lemma LostRecord(s: State, slot: Id, id: Id, user: Id)
    requires id !in s.creates && BookAnswer(s.slots, slot, s.now).BookOk?
    ensures var t := Run(s, LostReply(slot, id, user));
            && id in t.creates
            && t.creates[id] ==
               CreateProc(slot, user, false, Answered(BookError), Ended(Uncertain), NotStarted, None, false)
  {
    hide Run, NextWorker, NextCancel, NextGen, Create, CanCreate, Book, BookAnswer;
    RunThree(s, Cre(id, BeginCreate(slot, user, false)), Cre(id, DeliverBook(FailAfter)), Cre(id, ReadBook));
  }

  /** A whole creation, and a cancellation of it that stops once its release has succeeded. */
  function HalfCancel(slot: Id, id: Id, user: Id, pid: Id): seq<Event> {
    BookSlotEvents(id, user, slot, false, NoFault) + [Cre(id, Commit(CommitRuns))]
    + [Can(pid, BeginCancel(id, user)), Can(pid, SendRelease), Can(pid, DeliverRelease(NoFault)), Can(pid, ReadRelease)]
  }

  /** On every free future slot that no active booking has: a half-done cancellation leaves an active row and a
      free slot. */
  lemma HalfCancelLeavesAnActiveRow(s: State, slot: Id, id: Id, user: Id, pid: Id)
    requires Reachable(s) && id !in s.creates && pid !in s.cancels && !Occupied(s.db.bookings, slot)
    requires slot in s.slots && s.slots[slot].status == Free && s.slots[slot].startAt >= s.now
    ensures var t := Run(s, HalfCancel(slot, id, user, pid));
            && id in t.db.bookings && t.db.bookings[id].status == Active && t.db.bookings[id].slot == slot
            && t.slots == s.slots && !Held(t.slots, slot, id)
  {
    hide Reachable, SagaInv, Run, Book, Release, Create, CanCreate;
    ReachableSaga(s);
    FreshIsNowhere(s, id);
    var meta := MetaOf(slot, s.slots[slot]);
    var row := NewBooking(meta, user, false);
    var booking, commit := BookSlotEvents(id, user, slot, false, NoFault), [Cre(id, Commit(CommitRuns))];
    BookRun(s, id, user, slot, false, NoFault);
    var u := Run(s, booking);
    CommitRun(u, id, u.creates[id], CommitRuns);
    RunConcat(s, booking, commit);
    var v := Run(s, booking + commit);
    RoomForRow(s.db, id, row);
    CreateInsertsRow(s.db, id, row, s.now);
    CancelRun(v, pid, id, user, NoFault);
    RunConcat(s, booking + commit,
              [Can(pid, BeginCancel(id, user)), Can(pid, SendRelease), Can(pid, DeliverRelease(NoFault)),
               Can(pid, ReadRelease)]);
    BookThenRelease(s.slots, slot, id, s.now);
  }
}
