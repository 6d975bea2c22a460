/** Cancelling again after a crash or a lost reply. */
module CancelTheorems {
  import opened Common
  import opened SlotTable
  import opened BookingTables
  import opened Platform
  import opened SagaProofs
  import opened JobProofs

  /** One CancelBooking call in which nothing goes wrong. */
  function Uninterrupted(pid: Id, booking: Id, user: Id): seq<Event> {
    [Can(pid, BeginCancel(booking, user)), Can(pid, SendRelease), Can(pid, DeliverRelease(NoFault)),
     Can(pid, ReadRelease), Can(pid, MarkCancelled(NoFault))]
  }

  /** Equal up to the time at which the booking was cancelled. */
  ghost predicate SameUpToTime(a: Db, b: Db, booking: Id) {
    && a.jobs == b.jobs
    && booking in a.bookings && booking in b.bookings
    && a.bookings == b.bookings[booking := b.bookings[booking].(cancelledAt := a.bookings[booking].cancelledAt)]
  }

  lemma BeginAndSend(s: State, pid: Id, booking: Id, user: Id)
    requires pid !in s.cancels && MayCancel(s.db, booking, user)
    ensures Next(Next(s, Can(pid, BeginCancel(booking, user))), Can(pid, SendRelease)) ==
            s.(cancels := s.cancels[pid := CancelProc(booking, s.db.bookings[booking].slot, Some(InFlight), Releasing)])
  {
  }

  lemma ReleaseAndRead(s: State, pid: Id, p: CancelProc)
    requires pid in s.cancels && s.cancels[pid] == p && p.call == Some(InFlight) && p.phase.Releasing?
    ensures Next(Next(s, Can(pid, DeliverRelease(NoFault))), Can(pid, ReadRelease)) ==
            s.(slots := Release(s.slots, p.slot, p.booking),
               cancels := s.cancels[pid := p.(call := Some(Answered(true)), phase := Released)])
  {
  }

  lemma Refused(s: State, pid: Id, booking: Id, user: Id, n: nat)
    requires pid !in s.cancels && !MayCancel(s.db, booking, user) && n <= 5
    ensures Run(s, Uninterrupted(pid, booking, user)[..n]) == s
    decreases n
  {
    if n > 0 {
      Unroll(s, Uninterrupted(pid, booking, user), n - 1);
      Refused(s, pid, booking, user, n - 1);
    }
  }

  /** From any state whatever, an uninterrupted cancellation releases exactly this booking's hold and marks
      exactly this booking cancelled; if it may not cancel, or already has, it changes nothing. */
  lemma UninterruptedEffect(s: State, pid: Id, booking: Id, user: Id)
    requires pid !in s.cancels
    ensures var t := Run(s, Uninterrupted(pid, booking, user));
            && t.slots == (if MayCancel(s.db, booking, user) then Release(s.slots, s.db.bookings[booking].slot, booking)
                           else s.slots)
            && t.db == (if MayCancel(s.db, booking, user) then Cancel(s.db, booking, s.now) else s.db)
            && (!MayCancel(s.db, booking, user) ==> t == s)
  {
    hide Next, Run, Release, Cancel;
    var es := Uninterrupted(pid, booking, user);
    assert es[..5] == es;
    if MayCancel(s.db, booking, user) {
      Unroll(s, es, 0);
      Unroll(s, es, 1);
      BeginAndSend(s, pid, booking, user);
      var s2 := Run(s, es[..2]);
      Unroll(s, es, 2);
      Unroll(s, es, 3);
      ReleaseAndRead(s2, pid, s2.cancels[pid]);
      var s4 := Run(s, es[..4]);
      Unroll(s, es, 4);
      FinalUpdate(s4, pid, s4.cancels[pid]);
    } else {
      Refused(s, pid, booking, user, 5);
    }
  }

  lemma FinalUpdate(s: State, pid: Id, p: CancelProc)
    requires pid in s.cancels && s.cancels[pid] == p && p.phase.Released?
    ensures var t := Next(s, Can(pid, MarkCancelled(NoFault)));
            t.slots == s.slots && t.db == Cancel(s.db, p.booking, s.now)
  {
  }

  /** In every reachable state, whatever crashed, was lost or took the slot since: one clean cancellation by the
      owner leaves the booking cancelled and holding nothing, and takes nothing from any other booking. */
  lemma CancelFinishes(s: State, pid: Id, booking: Id, user: Id)
    requires Reachable(s) && pid !in s.cancels
    requires booking in s.db.bookings && s.db.bookings[booking].user == user
    ensures var t := Run(s, Uninterrupted(pid, booking, user));
            && booking in t.db.bookings && t.db.bookings[booking].status == Cancelled
            && (forall slot :: !Held(t.slots, slot, booking))
            && (forall slot, other :: other != booking ==> (Held(t.slots, slot, other) <==> Held(s.slots, slot, other)))
            && t.db.jobs == s.db.jobs
            && t.db.bookings == s.db.bookings[booking := t.db.bookings[booking]]
  {
    hide Run, Uninterrupted, Reachable;
    ReachableSaga(s);
    OnlyItsOwnSlot(s, booking);
    UninterruptedEffect(s, pid, booking, user);
    ReleaseTouchesOnlyItsBooking(s.slots, s.db.bookings[booking].slot, booking);
  }

  /** A booking holds its own slot or none, and none once cancelled. */
  lemma OnlyItsOwnSlot(s: State, booking: Id)
    requires SagaInv(s) && booking in s.db.bookings
    ensures HoldersMatchStatus(s.slots)
    ensures forall slot :: Held(s.slots, slot, booking) ==>
              slot == s.db.bookings[booking].slot && s.db.bookings[booking].status == Active
  {
    assert BookingOk(s.slots, s.creates, booking, s.db.bookings[booking]);
    forall slot | Held(s.slots, slot, booking)
      ensures slot == s.db.bookings[booking].slot
    {
      assert s.slots[slot].holder.Some?;
    }
  }

  // ---------- interrupted cancellations ----------

  /** Only new cancellations of this booking take steps, with any faults and stops; time passes. */
  predicate OnlyCancels(s: State, es: seq<Event>, booking: Id) {
    forall e :: e in es ==>
      e.Tick? || (e.Can? && e.pid !in s.cancels && (e.x.BeginCancel? ==> e.x.booking == booking))
  }

  /** How far interrupted cancellations of an active booking can have got in the tables: nothing,
      released, or released and marked cancelled. */
  ghost predicate Reached(slots0: Slots, db0: Db, booking: Id, slots: Slots, db: Db) {
    && booking in db0.bookings && db0.bookings[booking].status == Active
    && (var freed := Release(slots0, db0.bookings[booking].slot, booking);
        && (slots == slots0 || slots == freed)
        && (db == db0 || (slots == freed && SameUpToTime(db, Cancel(db0, booking, 0), booking))))
  }

  /** A cancellation that got a 200 for its release knows that the slot is freed. */
  predicate Informed(freed: Slots, slot: Id, booking: Id, slots: Slots, p: CancelProc) {
    && p.booking == booking && p.slot == slot
    && (p.call == Some(Answered(true)) || p.phase.Released? ==> slots == freed)
  }

  lemma ReleaseTwice(slots: Slots, slot: Id, booking: Id)
    requires HoldersMatchStatus(slots)
    ensures Release(Release(slots, slot, booking), slot, booking) == Release(slots, slot, booking)
  {
    ReleaseTouchesOnlyItsBooking(slots, slot, booking);
    ReleaseTouchesOnlyItsBooking(Release(slots, slot, booking), slot, booking);
  }

  lemma CancelTwice(db0: Db, db: Db, booking: Id, now: Instant)
    requires booking in db0.bookings
    requires db == db0 || SameUpToTime(db, Cancel(db0, booking, 0), booking)
    ensures SameUpToTime(Cancel(db, booking, now), Cancel(db0, booking, 0), booking)
  {
    var c, d := Cancel(db, booking, now), Cancel(db0, booking, 0);
    assert c.bookings == d.bookings[booking := d.bookings[booking].(cancelledAt := c.bookings[booking].cancelledAt)];
  }

  lemma InterruptedStep(slots0: Slots, db0: Db, booking: Id, slots: Slots, db: Db, p: CancelProc, x: CancelStep,
                        now: Instant)
    requires HoldersMatchStatus(slots0) && Reached(slots0, db0, booking, slots, db)
    requires var slot := db0.bookings[booking].slot; Informed(Release(slots0, slot, booking), slot, booking, slots, p)
    ensures Reached(slots0, db0, booking, CancelSlots(slots, p, x), CancelDb(db, p, x, now))
    ensures var slot := db0.bookings[booking].slot;
            var freed := Release(slots0, slot, booking);
            && Informed(freed, slot, booking, CancelSlots(slots, p, x), CancelNext(p, x))
            && (slots == freed ==> CancelSlots(slots, p, x) == freed)
  {
    hide Release, Cancel, SameUpToTime;
    ReleaseTwice(slots0, db0.bookings[booking].slot, booking);
    CancelTwice(db0, db, booking, now);
  }

  ghost predicate Between(s: State, u: State, booking: Id) {
    && Reached(s.slots, s.db, booking, u.slots, u.db)
    && (var slot := s.db.bookings[booking].slot;
        forall pid :: pid in u.cancels && pid !in s.cancels ==>
          Informed(Release(s.slots, slot, booking), slot, booking, u.slots, u.cancels[pid]))
  }

  lemma BetweenStep(s: State, u: State, pid: Id, x: CancelStep, booking: Id)
    requires HoldersMatchStatus(s.slots)
    requires Between(s, u, booking) && pid !in s.cancels && (x.BeginCancel? ==> x.booking == booking)
    ensures Between(s, NextCancel(u, pid, x), booking)
  {
    hide CancelSlots, CancelDb, CancelNext, Release, Reached;
    if pid in u.cancels {
      assert booking in s.db.bookings by { ReachedActive(s.slots, s.db, booking, u.slots, u.db); }
      InterruptedStep(s.slots, s.db, booking, u.slots, u.db, u.cancels[pid], x, u.now);
    } else if x.BeginCancel? && MayCancel(u.db, booking, x.user) {
      ReachedActive(s.slots, s.db, booking, u.slots, u.db);
    }
  }

  lemma ReachedActive(slots0: Slots, db0: Db, booking: Id, slots: Slots, db: Db)
    requires Reached(slots0, db0, booking, slots, db)
    ensures booking in db0.bookings && booking in db.bookings && db.bookings[booking].slot == db0.bookings[booking].slot
  {
  }

  lemma {:induction false} BetweenRun(s: State, es: seq<Event>, booking: Id)
    requires SagaInv(s) && OnlyCancels(s, es, booking)
    requires booking in s.db.bookings && s.db.bookings[booking].status == Active
    ensures Between(s, Run(s, es), booking)
    decreases |es|
  {
    hide NextCancel, Between;
    if es == [] {
      NothingYet(s, booking);
    } else {
      var prefix, e := es[..|es| - 1], es[|es| - 1];
      assert e in es;
      assert forall k :: k in prefix ==> k in es;
      BetweenRun(s, prefix, booking);
      if e.Can? {
        BetweenStep(s, Run(s, prefix), e.pid, e.x, booking);
      } else {
        TimePasses(s, Run(s, prefix), e.elapsed, booking);
      }
    }
  }

  lemma NothingYet(s: State, booking: Id)
    requires booking in s.db.bookings && s.db.bookings[booking].status == Active
    ensures Between(s, s, booking)
  {
  }

  lemma TimePasses(s: State, u: State, elapsed: nat, booking: Id)
    requires Between(s, u, booking)
    ensures Between(s, u.(now := u.now + elapsed), booking)
  {
  }

  /** From each of the three points, one clean cancellation ends in the same tables. */
  lemma FinishFrom(slots0: Slots, db0: Db, slots: Slots, db: Db, booking: Id, user: Id, now0: Instant, now: Instant)
    requires HoldersMatchStatus(slots0) && MayCancel(db0, booking, user) && Reached(slots0, db0, booking, slots, db)
    ensures var freed := Release(slots0, db0.bookings[booking].slot, booking);
            var ends := Cancel(db0, booking, now0);
            if MayCancel(db, booking, user)
            then booking in db.bookings && Release(slots, db.bookings[booking].slot, booking) == freed
                 && SameUpToTime(Cancel(db, booking, now), ends, booking)
            else slots == freed && SameUpToTime(db, ends, booking)
  {
    hide Release;
    ReleaseTwice(slots0, db0.bookings[booking].slot, booking);
  }

  /** Cancel converges: from whatever state any number of interrupted cancellations of a booking leave,
      one more with successful calls reaches what an uninterrupted one would have reached, up to the
      cancellation time, and yet another changes nothing. */
  lemma CancelConverges(s: State, es: seq<Event>, pid: Id, again: Id, booking: Id, user: Id)
    requires Reachable(s) && OnlyCancels(s, es, booking) && MayCancel(s.db, booking, user)
    requires pid !in s.cancels && pid !in Run(s, es).cancels
    requires again !in Run(Run(s, es), Uninterrupted(pid, booking, user)).cancels
    ensures var direct := Run(s, Uninterrupted(pid, booking, user));
            var repeated := Run(Run(s, es), Uninterrupted(pid, booking, user));
            && repeated.slots == direct.slots
            && SameUpToTime(repeated.db, direct.db, booking)
            && direct.db.bookings[booking].status == Cancelled
            && !Held(direct.slots, s.db.bookings[booking].slot, booking)
            && Run(repeated, Uninterrupted(again, booking, user)) == repeated
  {
    hide Run, Release, Reached, Uninterrupted, OnlyCancels, Reachable;
    ReachableSaga(s);
    BetweenRun(s, es, booking);
    var u := Run(s, es);
    var repeated := Run(u, Uninterrupted(pid, booking, user));
    UninterruptedEffect(s, pid, booking, user);
    UninterruptedEffect(u, pid, booking, user);
    FinishFrom(s.slots, s.db, u.slots, u.db, booking, user, s.now, u.now);
    UninterruptedEffect(repeated, again, booking, user);
    ReleaseTouchesOnlyItsBooking(s.slots, s.db.bookings[booking].slot, booking);
  }

  // ---------- what a cancellation that reports success says ----------

  ghost predicate SuccessesTrue(s: State) {
    forall pid :: pid in s.cancels && s.cancels[pid].phase == CancelEnded(true) ==>
      IsCancelled(s.db.bookings, s.cancels[pid].booking)
  }

  predicate IsCancelled(bookings: map<Id, Booking>, id: Id) {
    id in bookings && bookings[id].status == Cancelled
  }

  lemma OwnCancelStep(s: State, p: CancelProc, x: CancelStep)
    requires p.booking in s.db.bookings
    requires p.phase == CancelEnded(true) ==> IsCancelled(s.db.bookings, p.booking)
    ensures var q := CancelNext(p, x);
            q.phase == CancelEnded(true) ==> IsCancelled(CancelDb(s.db, p, x, s.now).bookings, q.booking)
  {
  }

  lemma CancelStepKeepsSuccesses(s: State, pid: Id, x: CancelStep)
    requires SagaInv(s) && SuccessesTrue(s) && DbGrows(s.db, NextCancel(s, pid, x).db)
    ensures SuccessesTrue(NextCancel(s, pid, x))
  {
    hide CancelNext, CancelDb, CancelSlots, PhaseOk, RowOk, HoldOk, BookingOk, UniqueActive, MayCancel;
    if pid in s.cancels {
      assert CancelOk(s.slots, s.db.bookings, s.cancels[pid]);
      OwnCancelStep(s, s.cancels[pid], x);
    }
  }

  lemma NextKeepsSuccesses(s: State, e: Event)
    requires SagaInv(s) && JobInv(s) && SuccessesTrue(s)
    ensures SuccessesTrue(Next(s, e))
  {
    hide NextCreate, NextCancel, NextWorker, NextGen, SagaInv, JobInv;
    NextKeepsJobs(s, e);
    match e
    case Can(pid, x) => CancelStepKeepsSuccesses(s, pid, x);
    case Cre(id, c) => CreateFrame(s, id, c);
    case Wrk(hid, w) => WorkerFrame(s, hid, w);
    case Gen(run, g) => GenFrame(s, run, g);
    case _ =>
  }

  lemma {:induction false} RunKeepsSuccesses(s: State, es: seq<Event>)
    requires SagaInv(s) && JobInv(s) && SuccessesTrue(s)
    ensures SuccessesTrue(Run(s, es))
    decreases |es|
  {
    hide Next, SagaInv, JobInv, SuccessesTrue;
    if es == [] {
    } else {
      RunKeepsSuccesses(s, es[..|es| - 1]);
      RunKeepsJobs(s, es[..|es| - 1]);
      NextKeepsSuccesses(Run(s, es[..|es| - 1]), es[|es| - 1]);
    }
  }

  /** Under any interleaving, a cancellation that reported success has cancelled its booking, which holds nothing,
      now and in every later state. */
  lemma CancelOutcome(s: State, t: State, pid: Id)
    requires Reachable(s) && Later(s, t) && pid in s.cancels && s.cancels[pid].phase == CancelEnded(true)
    ensures var id := s.cancels[pid].booking;
            IsCancelled(t.db.bookings, id) && forall slot :: !Held(t.slots, slot, id)
  {
    hide Run, Next, SagaInv, JobInv, Held;
    var now: Instant, es: seq<Event> :| s == Run(Init(now), es);
    InitIsOk(now);
    RunKeepsSuccesses(Init(now), es);
    var more :| t == Run(s, more);
    RunIsReachable(s, more);
    ReachableSaga(t);
    CancellationIsFinal(s, t, s.cancels[pid].booking);
    OnlyItsOwnSlot(t, s.cancels[pid].booking);
  }

  lemma InitIsOk(now: Instant)
    ensures SagaInv(Init(now)) && JobInv(Init(now)) && SuccessesTrue(Init(now))
  {
  }
}
