/** The booking saga's guarantees in every reachable state. */
module SagaTheorems {
  import opened Common
  import opened SlotTable
  import opened BookingTables
  import opened Platform
  import opened SagaProofs
  import GenerationProofs

  // ---------- exclusivity ----------

  predicate BookingsOverlap(a: Booking, b: Booking) {
    a.room == b.room && a.startAt < b.endAt && b.startAt < a.endAt
  }

  /** No double occupancy, end to end: whatever commits late, no two active bookings of one room overlap in time. */
  lemma NoDoubleOccupancy(s: State, a: Id, b: Id)
    requires Reachable(s) && a != b
    requires a in s.db.bookings && s.db.bookings[a].status == Active
    requires b in s.db.bookings && s.db.bookings[b].status == Active
    ensures !BookingsOverlap(s.db.bookings[a], s.db.bookings[b])
    ensures var x, y := s.db.bookings[a], s.db.bookings[b];
            && x.endAt == x.startAt + 1_800_000_000 && y.endAt == y.startAt + 1_800_000_000
            && (x.room == y.room ==> x.endAt <= y.startAt || y.endAt <= x.startAt)
  {
    ReachableSaga(s);
    GenerationProofs.ReachableGen(s);
    var x, y := s.db.bookings[a], s.db.bookings[b];
    assert BookingOk(s.slots, s.creates, a, x) && BookingOk(s.slots, s.creates, b, y);
    assert !Rivals(x, y);
    GridIsDisjoint(s.schedules, s.slots, x.slot, y.slot);
  }

  /** In every reachable state a booking shows the room and the times of its slot, which last half an hour. */
  lemma RowsMatchTheirSlots(s: State, id: Id)
    requires Reachable(s) && id in s.db.bookings
    ensures var row := s.db.bookings[id];
            && row.slot in s.slots
            && row.room == s.slots[row.slot].room
            && row.startAt == s.slots[row.slot].startAt
            && row.endAt == s.slots[row.slot].endAt == row.startAt + 1_800_000_000
  {
    hide Reachable, Run;
    ReachableSaga(s);
    GenerationProofs.ReachableGen(s);
    assert BookingOk(s.slots, s.creates, id, s.db.bookings[id]);
  }

  // ---------- active bookings hold their slot ----------

  /** An active booking holds its slot until a release of that very booking is delivered: a cancellation's,
      or the undo of a creation that looked itself up before its commit was decided. Conversely, once any
      of these has been answered with success the booking holds nothing. */
  lemma ActiveHoldsUntilReleased(s: State, id: Id)
    requires Reachable(s) && id in s.db.bookings && s.db.bookings[id].status == Active
    ensures Held(s.slots, s.db.bookings[id].slot, id)
            || CancelDelivered(s.cancels, id)
            || (id in s.creates && s.creates[id].hasty && Delivered(s.creates[id].undo))
    ensures Held(s.slots, s.db.bookings[id].slot, id) ==>
              && id in s.creates && s.creates[id].undo != Some(Answered(true))
              && forall pid :: pid in s.cancels && s.cancels[pid].booking == id ==>
                 s.cancels[pid].call != Some(Answered(true))
  {
    ReachableSaga(s);
    assert BookingOk(s.slots, s.creates, id, s.db.bookings[id]);
  }

  /** No lookup of the run is answered "not found" while the commit it asks about is still undecided. */
  predicate DecidedBeforeLookup(s: State, es: seq<Event>) {
    es == [] ||
    (var prefix, e := es[..|es| - 1], es[|es| - 1];
     var u := Run(s, prefix);
     && DecidedBeforeLookup(s, prefix)
     && (e.Cre? && e.c == Lookup(false) && e.id in u.creates && u.creates[e.id].phase.InDoubt?
         ==> !u.creates[e.id].tx.Undecided?))
  }

  lemma HasteComesFromLookups(s: State, e: Event, id: Id)
    requires id in Next(s, e).creates && Next(s, e).creates[id].hasty
    ensures (id in s.creates && s.creates[id].hasty)
            || (e == Cre(id, Lookup(false)) && id in s.creates && s.creates[id].phase.InDoubt?
                && s.creates[id].tx.Undecided?)
  {
    hide NextWorker, NextCancel, NextCreate;
    match e
    case Wrk(hid, w) => OthersKeepCreates(s, e);
    case Can(pid, x) => OthersKeepCreates(s, e);
    case Cre(cid, c) => HasteOfStep(s, cid, c, id);
    case _ => assert Next(s, e).creates == s.creates;
  }

  lemma HasteOfStep(s: State, cid: Id, c: CreateStep, id: Id)
    requires id in NextCreate(s, cid, c).creates && NextCreate(s, cid, c).creates[id].hasty
    ensures (id in s.creates && s.creates[id].hasty)
            || (c == Lookup(false) && cid == id && id in s.creates && s.creates[id].phase.InDoubt?
                && s.creates[id].tx.Undecided?)
  {
    hide CreateSlots, CreateDb;
  }

  lemma OthersKeepCreates(s: State, e: Event)
    requires e.Wrk? || e.Can?
    ensures Next(s, e).creates == s.creates
  {
    hide NextWorker, NextCancel;
    if e.Wrk? {
      WorkerFrame(s, e.hid, e.w);
    } else {
      CancelFrame(s, e.pid, e.x);
    }
  }

  lemma {:induction false} NoHaste(now: Instant, es: seq<Event>, id: Id)
    requires DecidedBeforeLookup(Init(now), es) && id in Run(Init(now), es).creates
    ensures !Run(Init(now), es).creates[id].hasty
    decreases |es|
  {
    hide Next;
    if es != [] {
      var prefix, e := es[..|es| - 1], es[|es| - 1];
      var u := Run(Init(now), prefix);
      if Next(u, e).creates[id].hasty {
        HasteComesFromLookups(u, e, id);
        if id in u.creates {
          NoHaste(now, prefix, id);
        }
      }
    }
  }

  /** Some run whose ambiguous commits are all decided before their lookup ends in this state. */
  ghost predicate ReachableUnhurried(s: State) {
    exists now: Instant, es: seq<Event> :: s == Run(Init(now), es) && DecidedBeforeLookup(Init(now), es)
  }

  /** Active implies held, on every run whose ambiguous commits are decided before their lookup: an active
      booking holds its own slot unless a cancellation of that very booking has released it. */
  lemma ActiveImpliesHeld(s: State, id: Id)
    requires ReachableUnhurried(s) && id in s.db.bookings && s.db.bookings[id].status == Active
    ensures Held(s.slots, s.db.bookings[id].slot, id) || CancelDelivered(s.cancels, id)
  {
    var now: Instant, es: seq<Event> :| s == Run(Init(now), es) && DecidedBeforeLookup(Init(now), es);
    assert Reachable(s);
    ReachableSaga(s);
    ActiveHoldsUntilReleased(s, id);
    assert BookingOk(s.slots, s.creates, id, s.db.bookings[id]);
    NoHaste(now, es, id);
  }

  // ---------- hold accounting ----------

  /** A creation that has no row and may still believe in its hold, or ended without knowing. */
  predicate MayHoldRowless(p: CreateProc) {
    !p.phase.Ended? || p.phase.outcome == Uncertain || p.phase.outcome == Crashed
  }

  /** Every hold has exactly one explanation, each booking has at most one hold, and a cancelled one has none. */
  lemma EveryHoldIsAccountedFor(s: State, slot: Id, id: Id)
    requires Reachable(s) && Held(s.slots, slot, id)
    ensures s.slots[slot].status == Booked
    ensures forall other :: Held(s.slots, other, id) ==> other == slot
    ensures id in s.db.bookings ==> s.db.bookings[id].status == Active && s.db.bookings[id].slot == slot
    ensures id !in s.db.bookings ==> id in s.creates && s.creates[id].slot == slot && MayHoldRowless(s.creates[id])
  {
    ReachableSaga(s);
    assert s.slots[slot].holder == Some(id);
    if id in s.db.bookings {
      assert BookingOk(s.slots, s.creates, id, s.db.bookings[id]);
    }
  }

  function BookedSlots(slots: Slots): set<Id> {
    set slot | slot in slots && slots[slot].status == Booked
  }

  function Holders(slots: Slots): set<Id> {
    set slot | slot in slots && slots[slot].holder.Some? :: slots[slot].holder.value
  }

  function ActiveHolders(s: State): set<Id> {
    set id | id in s.db.bookings && s.db.bookings[id].status == Active && Held(s.slots, s.db.bookings[id].slot, id)
  }

  function RowlessHolders(s: State): set<Id> {
    set id | id in s.creates && id !in s.db.bookings && Held(s.slots, s.creates[id].slot, id)
  }

  /** Distinct slots with distinct holders are as many as their holders. */
  lemma {:induction false} AsManyHoldersAsSlots(slots: Slots, some: set<Id>)
    requires forall slot :: slot in some ==> slot in slots && slots[slot].holder.Some?
    requires forall x, y :: x in some && y in some && slots[x].holder == slots[y].holder ==> x == y
    ensures |some| == |set slot | slot in some :: slots[slot].holder.value|
  {
    var holders := set slot | slot in some :: slots[slot].holder.value;
    if some != {} {
      var x :| x in some;
      var rest := set slot | slot in some - {x} :: slots[slot].holder.value;
      AsManyHoldersAsSlots(slots, some - {x});
      assert holders == rest + {slots[x].holder.value};
    }
  }

  lemma HoldersAreActiveOrRowless(s: State)
    requires Reachable(s)
    ensures Holders(s.slots) == ActiveHolders(s) + RowlessHolders(s)
  {
    hide Reachable;
    forall id | id in Holders(s.slots)
      ensures id in ActiveHolders(s) + RowlessHolders(s)
    {
      var slot :| slot in s.slots && s.slots[slot].holder == Some(id);
      EveryHoldIsAccountedFor(s, slot, id);
    }
  }

  /** Conservation: the booked slots are the active holders plus the holders without a row. */
  lemma BookedSlotsAreCounted(s: State)
    requires Reachable(s)
    ensures |BookedSlots(s.slots)| == |ActiveHolders(s)| + |RowlessHolders(s)|
  {
    ReachableSaga(s);
    var booked := BookedSlots(s.slots);
    assert HoldersMatchStatus(s.slots);
    OneSlotPerHolder(s);
    AsManyHoldersAsSlots(s.slots, booked);
    assert Holders(s.slots) == set slot | slot in booked :: s.slots[slot].holder.value;
    HoldersAreActiveOrRowless(s);
    assert ActiveHolders(s) !! RowlessHolders(s);
  }

  lemma OneSlotPerHolder(s: State)
    requires Reachable(s)
    ensures forall x, y ::
              x in s.slots && y in s.slots && s.slots[x].holder.Some? && s.slots[x].holder == s.slots[y].holder
              ==> x == y
  {
    ReachableSaga(s);
  }

  // ---------- creation outcomes ----------

  /** What the end of a CreateBooking process says about both databases. */
  lemma CreateOutcome(s: State, id: Id)
    requires Reachable(s) && id in s.creates && s.creates[id].phase.Ended?
    ensures var p := s.creates[id];
            && (p.phase.outcome == Created ==> id in s.db.bookings && s.db.bookings[id].slot == p.slot)
            && (p.phase.outcome == Rejected ==> id !in s.db.bookings && forall slot :: !Held(s.slots, slot, id))
            && (p.phase.outcome == Compensated && !p.hasty ==>
                  id !in s.db.bookings && forall slot :: !Held(s.slots, slot, id))
  {
    ReachableSaga(s);
    var p := s.creates[id];
    assert PhaseOk(p) && RowOk(s.db.bookings, id, p) && HoldOk(s.slots, s.cancels, id, p);
    if id in s.db.bookings {
      assert BookingOk(s.slots, s.creates, id, s.db.bookings[id]);
    }
    assert forall slot :: Held(s.slots, slot, id) ==> s.slots[slot].holder.Some? && slot == p.slot;
  }

  /** A process that has not looked itself up too early never compensates a committed booking. */
  lemma NeverCompensatesACommit(s: State, id: Id)
    requires Reachable(s) && id in s.creates && s.creates[id].undo.Some? && !s.creates[id].hasty
    ensures id !in s.db.bookings && s.creates[id].tx.Settled?
  {
    ReachableSaga(s);
    assert RowOk(s.db.bookings, id, s.creates[id]);
  }

  /** The event that makes a booking's row appear. */
  predicate InsertsRow(s: State, e: Event, id: Id) {
    id !in s.db.bookings && id in Next(s, e).db.bookings
  }

  /** A row appears active, for a slot its creation holds at that moment (unless it looked itself up too early
      and its undo has been delivered), that no other active booking has, with the slot's own room and times. */
  lemma RowAppearsWithItsSlot(s: State, e: Event, id: Id)
    requires Reachable(s) && InsertsRow(s, e, id)
    ensures e.Cre? && e.id == id && id in s.creates
    ensures var p, row := s.creates[id], Next(s, e).db.bookings[id];
            && (Held(s.slots, p.slot, id) || (p.hasty && Delivered(p.undo)))
            && p.slot in s.slots && row == NewBooking(MetaOf(p.slot, s.slots[p.slot]), p.user, p.requested)
            && row.slot == p.slot && row.user == p.user && row.requested == p.requested && row.status == Active
            && row.room == s.slots[p.slot].room
            && row.startAt == s.slots[p.slot].startAt && row.endAt == s.slots[p.slot].endAt
            && (forall k :: k in s.db.bookings && s.db.bookings[k].status == Active ==> s.db.bookings[k].slot != p.slot)
  {
    ReachableSaga(s);
    OnlyCreationsInsert(s, e, id);
    var p := s.creates[id];
    assert PhaseOk(p) && RowOk(s.db.bookings, id, p) && HoldOk(s.slots, s.cancels, id, p);
    NoCancelWithoutRow(s, id);
    RowsStep(s, id, p, e.c);
    InsertNeedsRoom(s, id, p, e.c);
  }

  lemma InsertNeedsRoom(s: State, id: Id, p: CreateProc, c: CreateStep)
    requires PhaseOk(p) && id !in s.db.bookings && id in CreateDb(s, id, p, c).bookings
    ensures ReservationSeen(p) && CanCreate(s.db, id, NewBooking(p.book.reply.meta, p.user, p.requested))
    ensures CreateDb(s, id, p, c).bookings[id] == NewBooking(p.book.reply.meta, p.user, p.requested)
    ensures !p.tx.Settled? && (p.phase.Reserved? || p.tx.Undecided?)
  {
  }

  lemma OnlyCreationsInsert(s: State, e: Event, id: Id)
    requires InsertsRow(s, e, id)
    ensures e.Cre? && e.id == id && id in s.creates
  {
    hide NextWorker, NextCancel, NextCreate, NextGen;
    match e
    case Wrk(hid, w) => WorkerRowsStep(s, hid, w);
    case Can(pid, x) => CancelInsertsNothing(s, pid, x);
    case Gen(run, g) => GenFrame(s, run, g);
    case Cre(cid, c) => CreateInsertsItsOwn(s, cid, c, id);
    case _ =>
  }

  lemma CancelInsertsNothing(s: State, pid: Id, x: CancelStep)
    ensures forall id :: id in NextCancel(s, pid, x).db.bookings <==> id in s.db.bookings
  {
    hide NextCancel, CancelRow;
    CancelTables(s, pid, x);
  }

  lemma CreateInsertsItsOwn(s: State, cid: Id, c: CreateStep, id: Id)
    requires id !in s.db.bookings && id in NextCreate(s, cid, c).db.bookings
    ensures cid == id && id in s.creates
  {
    hide CreateNext, CreateSlots, CreateDb;
    if cid in s.creates {
      CommitInsertsItsOwn(s, cid, s.creates[cid], c, id);
    }
  }

  lemma CommitInsertsItsOwn(s: State, cid: Id, p: CreateProc, c: CreateStep, id: Id)
    ensures id in CreateDb(s, cid, p, c).bookings ==> id in s.db.bookings || id == cid
  {
    hide CanCreate, NewBooking;
  }

  lemma NoCancelWithoutRow(s: State, id: Id)
    requires SagaInv(s) && id !in s.db.bookings
    ensures !CancelDelivered(s.cancels, id)
  {
  }

  /** An ended process stays as it ended, so what CreateOutcome says of it stays said. */
  lemma {:induction false} OutcomeIsFinal(s: State, more: seq<Event>, id: Id)
    requires id in s.creates && s.creates[id].phase.Ended?
    ensures id in Run(s, more).creates
    ensures var p, q := s.creates[id], Run(s, more).creates[id];
            q.phase == p.phase && q.hasty == p.hasty && q.slot == p.slot
    decreases |more|
  {
    hide Next;
    if more != [] {
      OutcomeIsFinal(s, more[..|more| - 1], id);
      EndedStays(Run(s, more[..|more| - 1]), more[|more| - 1], id);
    }
  }

  lemma EndedStays(s: State, e: Event, id: Id)
    requires id in s.creates && s.creates[id].phase.Ended?
    ensures id in Next(s, e).creates
    ensures var p, q := s.creates[id], Next(s, e).creates[id];
            q.phase == p.phase && q.hasty == p.hasty && q.slot == p.slot
  {
    hide NextWorker, NextCancel, NextCreate;
    match e
    case Wrk(hid, w) => OthersKeepCreates(s, e);
    case Can(pid, x) => OthersKeepCreates(s, e);
    case Cre(cid, c) => EndedStaysOnStep(s, cid, c, id);
    case _ => assert Next(s, e).creates == s.creates;
  }

  lemma EndedStaysOnStep(s: State, cid: Id, c: CreateStep, id: Id)
    requires id in s.creates && s.creates[id].phase.Ended?
    ensures id in NextCreate(s, cid, c).creates
    ensures var p, q := s.creates[id], NextCreate(s, cid, c).creates[id];
            q.phase == p.phase && q.hasty == p.hasty && q.slot == p.slot
  {
    hide CreateSlots, CreateDb;
  }

  // ---------- why the assumption is needed ----------

  /** A creation whose commit lands after its lookup said "not found" and its undo was carried out. */
  function TooEarly(slot: Id, id: Id, user: Id): seq<Event> {
    [Cre(id, BeginCreate(slot, user, false)), Cre(id, DeliverBook(NoFault)), Cre(id, ReadBook),
     Cre(id, Commit(CommitUnknown)), Cre(id, Lookup(false)), Cre(id, SendUndo), Cre(id, DeliverUndo(NoFault)),
     Cre(id, Settle(true))]
  }

  /** A state with one creation's record replaced. */
  function With(s: State, id: Id, p: CreateProc): State {
    s.(creates := s.creates[id := p])
  }

  lemma Reserves(s: State, slot: Id, id: Id, user: Id)
    requires slot in s.slots && s.slots[slot].status == Free && s.slots[slot].startAt >= s.now && id !in s.creates
    ensures var meta := MetaOf(slot, s.slots[slot]);
            Next(Next(s, Cre(id, BeginCreate(slot, user, false))), Cre(id, DeliverBook(NoFault))) ==
            With(s, id, CreateProc(slot, user, false, Answered(BookOk(meta)), Reserving, NotStarted, None, false))
              .(slots := s.slots[slot := s.slots[slot].(status := Booked, holder := Some(id))])
  {
  }

  lemma CommitsInDoubt(s: State, id: Id, p: CreateProc)
    requires id in s.creates && s.creates[id] == p && p.phase.Reserving? && ReservationSeen(p)
    ensures var meta := p.book.reply.meta;
            Next(Next(s, Cre(id, ReadBook)), Cre(id, Commit(CommitUnknown))) ==
            With(s, id, p.(phase := InDoubt(meta), tx := Undecided(NewBooking(meta, p.user, p.requested))))
  {
  }

  lemma LooksTooEarly(s: State, id: Id, p: CreateProc)
    requires id in s.creates && s.creates[id] == p && p.phase.InDoubt? && p.tx.Undecided? && p.undo.None?
    requires id !in s.db.bookings
    ensures Next(Next(s, Cre(id, Lookup(false))), Cre(id, SendUndo)) ==
            With(s, id, p.(phase := Compensating, hasty := true, undo := Some(InFlight)))
  {
  }

  lemma UndoesThenCommits(s: State, id: Id, p: CreateProc)
    requires id in s.creates && s.creates[id] == p && p.undo == Some(InFlight) && p.tx.Undecided?
    requires Held(s.slots, p.slot, id) && s.slots[p.slot].status == Booked && CanCreate(s.db, id, p.tx.row)
    ensures var t := Next(Next(s, Cre(id, DeliverUndo(NoFault))), Cre(id, Settle(true)));
            && t.db.bookings == s.db.bookings[id := p.tx.row]
            && t.slots == s.slots[p.slot := s.slots[p.slot].(status := Free, holder := None)]
            && t.cancels == s.cancels
  {
  }

  /** Without the assumption "active implies held" fails, on every free future slot: the booking ends
      active, nobody has cancelled it, and its slot is free for the next customer. */
  lemma TooEarlyLookupLosesTheHold(s: State, slot: Id, id: Id, user: Id)
    requires slot in s.slots && s.slots[slot].status == Free && s.slots[slot].startAt >= s.now
    requires id !in s.creates && id !in s.db.bookings
    requires forall b :: b in s.db.bookings && s.db.bookings[b].status == Active ==> s.db.bookings[b].slot != slot
    ensures var t := Run(s, TooEarly(slot, id, user));
            && id in t.db.bookings && t.db.bookings[id].status == Active && t.db.bookings[id].slot == slot
            && slot in t.slots && t.slots[slot].status == Free && !Held(t.slots, slot, id)
            && t.cancels == s.cancels
    ensures !DecidedBeforeLookup(s, TooEarly(slot, id, user))
  {
    hide Next, Run, DecidedBeforeLookup, CanCreate;
    var es := TooEarly(slot, id, user);
    var s4 := HoldsInDoubt(s, slot, id, user, es);
    Unroll(s, es, 4);
    Unroll(s, es, 5);
    LooksTooEarly(s4, id, s4.creates[id]);
    var s6 := Run(s, es[..6]);
    Unroll(s, es, 6);
    Unroll(s, es, 7);
    RoomForRow(s6.db, id, s6.creates[id].tx.row);
    UndoesThenCommits(s6, id, s6.creates[id]);
    assert es[..8] == es;
    TooEarlyIsHasty(s, es, s4, id);
  }

  /** Halfway: the slot is held and the commit undecided. */
  lemma HoldsInDoubt(s: State, slot: Id, id: Id, user: Id, es: seq<Event>) returns (u: State)
    requires slot in s.slots && s.slots[slot].status == Free && s.slots[slot].startAt >= s.now
    requires id !in s.creates && es == TooEarly(slot, id, user)
    ensures u == Run(s, es[..4]) && u.db == s.db && u.cancels == s.cancels && id in u.creates
    ensures slot in u.slots && u.slots[slot].holder == Some(id) && u.slots[slot].status == Booked
    ensures var p := u.creates[id];
            && p.slot == slot && p.phase.InDoubt? && p.undo.None?
            && p.tx == Undecided(NewBooking(MetaOf(slot, s.slots[slot]), user, false))
  {
    hide Next, Run;
    Unroll(s, es, 0);
    Unroll(s, es, 1);
    Reserves(s, slot, id, user);
    var s2 := Run(s, es[..2]);
    Unroll(s, es, 2);
    Unroll(s, es, 3);
    CommitsInDoubt(s2, id, s2.creates[id]);
    u := Run(s, es[..4]);
  }

  lemma RoomForRow(db: Db, id: Id, row: Booking)
    requires id !in db.bookings && !row.requested
    requires forall b :: b in db.bookings && db.bookings[b].status == Active ==> db.bookings[b].slot != row.slot
    ensures CanCreate(db, id, row)
  {
  }

  lemma TooEarlyIsHasty(s: State, es: seq<Event>, u: State, id: Id)
    requires |es| == 8 && Run(s, es[..4]) == u && es[4] == Cre(id, Lookup(false))
    requires id in u.creates && u.creates[id].phase.InDoubt? && u.creates[id].tx.Undecided?
    ensures !DecidedBeforeLookup(s, es)
  {
    hide Next;
    assert es[..5][..4] == es[..4];
    assert !DecidedBeforeLookup(s, es[..5]);
    if DecidedBeforeLookup(s, es) {
      PrefixDecided(s, es, 5);
    }
  }

  lemma {:induction false} PrefixDecided(s: State, es: seq<Event>, n: nat)
    requires DecidedBeforeLookup(s, es) && n <= |es|
    ensures DecidedBeforeLookup(s, es[..n])
    decreases |es|
  {
    if n < |es| {
      PrefixDecided(s, es[..|es| - 1], n);
      assert es[..|es| - 1][..n] == es[..n];
    } else {
      assert es[..n] == es;
    }
  }

  // ---------- refinement ----------

  /** The abstract system: which active booking has which slot. */
  datatype Label = Take(slot: Id, booking: Id) | Vacate(booking: Id) | Stutter

  function Occupancy(bookings: map<Id, Booking>): map<Id, Id>
    requires UniqueActive(bookings)
  {
    map id | id in bookings && bookings[id].status == Active :: bookings[id].slot := id
  }

  function AbstractNext(m: map<Id, Id>, l: Label): map<Id, Id> {
    match l
    case Take(slot, booking) => m[slot := booking]
    case Vacate(booking) => map slot | slot in m && m[slot] != booking :: m[slot]
    case Stutter => m
  }

  /** The abstract commit is an insert-if-absent. */
  predicate Legal(m: map<Id, Id>, l: Label) {
    l.Take? ==> l.slot !in m && l.booking !in m.Values
  }

  /** The only two kinds of event that the abstract system sees. */
  function LabelOf(s: State, e: Event): Label {
    if e.Cre? && InsertsRow(s, e, e.id) then Take(Next(s, e).db.bookings[e.id].slot, e.id)
    else if e.Can? && e.pid in s.cancels && e.x.MarkCancelled? && e.x.cancelFault != FailBefore
            && s.cancels[e.pid].phase.Released?
    then Vacate(s.cancels[e.pid].booking)
    else Stutter
  }

  lemma OccupancyOf(bookings: map<Id, Booking>, id: Id)
    requires UniqueActive(bookings) && id in bookings && bookings[id].status == Active
    ensures bookings[id].slot in Occupancy(bookings) && Occupancy(bookings)[bookings[id].slot] == id
  {
  }

  /** Occupancy sees slots and statuses only. */
  lemma SameOccupancy(before: map<Id, Booking>, after: map<Id, Booking>)
    requires UniqueActive(before) && UniqueActive(after) && before.Keys == after.Keys
    requires forall id {:trigger after[id]} :: id in before ==>
               after[id].slot == before[id].slot && after[id].status == before[id].status
    ensures Occupancy(after) == Occupancy(before)
  {
    forall slot | slot in Occupancy(before)
      ensures slot in Occupancy(after) && Occupancy(after)[slot] == Occupancy(before)[slot]
    {
      OccupancyOf(after, Occupancy(before)[slot]);
    }
    forall slot | slot in Occupancy(after)
      ensures slot in Occupancy(before)
    {
      OccupancyOf(before, Occupancy(after)[slot]);
    }
  }

  lemma TakeOccupies(before: map<Id, Booking>, after: map<Id, Booking>, id: Id)
    requires UniqueActive(before) && UniqueActive(after) && id !in before && id in after
             && after == before[id := after[id]]
    requires after[id].status == Active
    ensures Legal(Occupancy(before), Take(after[id].slot, id))
    ensures Occupancy(after) == AbstractNext(Occupancy(before), Take(after[id].slot, id))
  {
    OccupancyOf(after, id);
    forall slot | slot in Occupancy(before)
      ensures slot != after[id].slot && slot in Occupancy(after) && Occupancy(after)[slot] == Occupancy(before)[slot]
    {
      assert Rivals(after[Occupancy(before)[slot]], after[id]) <==> slot == after[id].slot;
      OccupancyOf(after, Occupancy(before)[slot]);
    }
    forall slot | slot in Occupancy(after) && slot != after[id].slot
      ensures slot in Occupancy(before)
    {
      OccupancyOf(before, Occupancy(after)[slot]);
    }
  }

  lemma VacateFrees(before: map<Id, Booking>, after: map<Id, Booking>, id: Id)
    requires UniqueActive(before) && UniqueActive(after) && id in before && id in after
             && after == before[id := after[id]]
    requires after[id].status == Cancelled
    ensures Occupancy(after) == AbstractNext(Occupancy(before), Vacate(id))
  {
    var rest := AbstractNext(Occupancy(before), Vacate(id));
    forall slot | slot in rest
      ensures slot in Occupancy(after) && Occupancy(after)[slot] == rest[slot]
    {
      OccupancyOf(after, rest[slot]);
    }
    forall slot | slot in Occupancy(after)
      ensures slot in rest
    {
      OccupancyOf(before, Occupancy(after)[slot]);
    }
  }

  /** Refinement, one step: every event of the platform is a commit, a cancellation or a stutter of the
      abstract system, and a commit only ever takes a vacant slot. */
  lemma StepRefines(s: State, e: Event)
    requires SagaInv(s)
    ensures SagaInv(Next(s, e))
    ensures Legal(Occupancy(s.db.bookings), LabelOf(s, e))
    ensures Occupancy(Next(s, e).db.bookings) == AbstractNext(Occupancy(s.db.bookings), LabelOf(s, e))
  {
    NextKeepsSaga(s, e);
    hide SagaInv;
    match e
    case Cre(id, c) => CreateRefines(s, id, c);
    case Can(pid, x) => CancelRefines(s, pid, x);
    case Wrk(hid, w) =>
      WorkerRowsStep(s, hid, w);
      SameOccupancy(s.db.bookings, Next(s, e).db.bookings);
    case _ => SameOccupancy(s.db.bookings, Next(s, e).db.bookings);
  }

  lemma CreateRefines(s: State, id: Id, c: CreateStep)
    requires SagaInv(s) && SagaInv(Next(s, Cre(id, c)))
    ensures Legal(Occupancy(s.db.bookings), LabelOf(s, Cre(id, c)))
    ensures Occupancy(Next(s, Cre(id, c)).db.bookings) == AbstractNext(Occupancy(s.db.bookings), LabelOf(s, Cre(id, c)))
  {
    hide CreateNext, CreateSlots, CreateDb, HoldOk, BookingOk, CancelOk, Occupancy, AbstractNext, Legal;
    var before, after := s.db.bookings, Next(s, Cre(id, c)).db.bookings;
    if id in s.creates {
      RowsStep(s, id, s.creates[id], c);
      if InsertsRow(s, Cre(id, c), id) {
        InsertNeedsRoom(s, id, s.creates[id], c);
        assert after == before[id := after[id]];
        TakeOccupies(before, after, id);
      } else {
        assert after == before;
        Stutters(before);
      }
    } else {
      Stutters(before);
    }
  }

  lemma Stutters(bookings: map<Id, Booking>)
    requires UniqueActive(bookings)
    ensures Legal(Occupancy(bookings), Stutter) && AbstractNext(Occupancy(bookings), Stutter) == Occupancy(bookings)
  {
  }

  lemma CancelRefines(s: State, pid: Id, x: CancelStep)
    requires SagaInv(s) && SagaInv(Next(s, Can(pid, x)))
    ensures LabelOf(s, Can(pid, x)) != Stutter ==> LabelOf(s, Can(pid, x)).Vacate?
    ensures Occupancy(Next(s, Can(pid, x)).db.bookings) ==
            AbstractNext(Occupancy(s.db.bookings), LabelOf(s, Can(pid, x)))
  {
    hide NextCancel, NextCreate, NextWorker, NextGen;
    hide PhaseOk, RowOk, HoldOk, BookingOk, Occupancy, AbstractNext;
    CancelTables(s, pid, x);
    var before, after := s.db.bookings, Next(s, Can(pid, x)).db.bookings;
    if LabelOf(s, Can(pid, x)).Vacate? {
      var id := s.cancels[pid].booking;
      assert CancelOk(s.slots, before, s.cancels[pid]);
      VacateFrees(before, after, id);
    } else {
      assert after == before;
      Stutters(before);
    }
  }

  function Labels(s: State, es: seq<Event>): (ls: seq<Label>)
    ensures |ls| == |es|
  {
    if es == [] then [] else Labels(s, es[..|es| - 1]) + [LabelOf(Run(s, es[..|es| - 1]), es[|es| - 1])]
  }

  function AbstractRun(m: map<Id, Id>, ls: seq<Label>): map<Id, Id> {
    if ls == [] then m else AbstractNext(AbstractRun(m, ls[..|ls| - 1]), ls[|ls| - 1])
  }

  ghost predicate AllLegal(m: map<Id, Id>, ls: seq<Label>) {
    forall n :: 0 <= n < |ls| ==> Legal(AbstractRun(m, ls[..n]), ls[n])
  }

  /** Refinement, whole runs: the active bookings of every interleaved, crashing run are those of a run of
      the abstract partial map from slots to bookings. */
  lemma {:induction false} RunRefines(s: State, es: seq<Event>)
    requires SagaInv(s)
    ensures SagaInv(Run(s, es))
    ensures AllLegal(Occupancy(s.db.bookings), Labels(s, es))
    ensures Occupancy(Run(s, es).db.bookings) == AbstractRun(Occupancy(s.db.bookings), Labels(s, es))
    decreases |es|
  {
    hide Next, LabelOf, Legal, AbstractNext, PhaseOk, RowOk, HoldOk, BookingOk, CancelOk, UniqueActive;
    if es != [] {
      var prefix, e := es[..|es| - 1], es[|es| - 1];
      var m := Occupancy(s.db.bookings);
      RunRefines(s, prefix);
      StepRefines(Run(s, prefix), e);
      var ls := Labels(s, es);
      assert ls[..|ls| - 1] == Labels(s, prefix);
      forall n | 0 <= n < |ls|
        ensures Legal(AbstractRun(m, ls[..n]), ls[n])
      {
        if n < |ls| - 1 {
          assert ls[..n] == Labels(s, prefix)[..n];
        }
      }
    }
  }

  /** The labels of some run from empty tables to s. */
  ghost predicate Traced(s: State, ls: seq<Label>) {
    exists now: Instant, es: seq<Event> :: s == Run(Init(now), es) && ls == Labels(Init(now), es)
  }

  /** m maps the slot of every active booking to that booking, and no other slot. */
  ghost predicate Represents(m: map<Id, Id>, bookings: map<Id, Booking>) {
    && (forall id :: id in bookings && bookings[id].status == Active ==>
          bookings[id].slot in m && m[bookings[id].slot] == id)
    && (forall slot :: slot in m ==>
          m[slot] in bookings && bookings[m[slot]].status == Active && bookings[m[slot]].slot == slot)
  }

  /** Refinement, end to end: the abstract system, started empty, follows every run of the platform by legal
      steps, and its map is at all times exactly the active bookings. */
  lemma PlatformRefinesOccupancy(s: State, ls: seq<Label>)
    requires Traced(s, ls)
    ensures AllLegal(map[], ls) && Represents(AbstractRun(map[], ls), s.db.bookings)
  {
    var now: Instant, es: seq<Event> :| s == Run(Init(now), es) && ls == Labels(Init(now), es);
    hide Run, Labels, SagaInv, AllLegal, AbstractRun;
    EmptyTables(now);
    RunRefines(Init(now), es);
    OccupancyRepresents(s);
  }

  lemma EmptyTables(now: Instant)
    ensures SagaInv(Init(now)) && UniqueActive(Init(now).db.bookings) && Occupancy(Init(now).db.bookings) == map[]
  {
  }

  lemma OccupancyRepresents(s: State)
    requires SagaInv(s)
    ensures UniqueActive(s.db.bookings) && Represents(Occupancy(s.db.bookings), s.db.bookings)
  {
    forall id | id in s.db.bookings && s.db.bookings[id].status == Active
      ensures s.db.bookings[id].slot in Occupancy(s.db.bookings)
              && Occupancy(s.db.bookings)[s.db.bookings[id].slot] == id
    {
      OccupancyOf(s.db.bookings, id);
    }
  }
}
