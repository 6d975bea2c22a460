/** Concurrent, failing slot generation against the declared slot set. */
module GenerationProofs {
  import opened Common
  import opened Calendar
  import opened SlotTable
  import opened Platform

  /** What a live generation run has achieved: everything declared from today up to its loop position. */
  ghost predicate RunSound(s: State, r: GenRun) {
    && r.room in s.schedules
    && Covered(s.slots, s.schedules[r.room], Today(s) * DAY, SlotStart(s.schedules[r.room], r.day, r.k))
  }

  /** What generated_until promises for a room. */
  ghost predicate MarkSound(s: State, room: Id) {
    && room in s.marks && room in s.schedules
    && Covered(s.slots, s.schedules[room], Today(s) * DAY, s.marks[room] * DAY)
  }

  ghost predicate GenInv(s: State) {
    && ValidSchedules(s.schedules)
    && OnGrid(s.schedules, s.slots)
    && (forall run :: run in s.runs ==> RunSound(s, s.runs[run]))
    && (forall room :: room in s.marks ==> MarkSound(s, room))
  }

  /** Schedules are only added, rows only gain holders, and days only pass. */
  ghost predicate Grows(s: State, t: State) {
    && (forall room :: room in s.schedules ==> room in t.schedules && t.schedules[room] == s.schedules[room])
    && (forall id :: id in s.slots ==> id in t.slots && SameKey(s.slots[id], t.slots[id]))
    && s.now <= t.now
  }

  lemma CoveredStays(s: State, t: State, room: Id, hi: Instant)
    requires Grows(s, t) && room in s.schedules
    requires Covered(s.slots, s.schedules[room], Today(s) * DAY, hi)
    ensures Covered(t.slots, t.schedules[room], Today(t) * DAY, hi)
  {
    hide Declared;
    TodayAdvances(s, t);
    CoveredGrows(s.slots, t.slots, s.schedules[room], Today(s) * DAY, hi);
  }

  lemma TodayAdvances(s: State, t: State)
    requires s.now <= t.now
    ensures Today(s) * DAY <= Today(t) * DAY
  {
  }

  lemma RunsAndMarksStay(s: State, t: State)
    requires GenInv(s) && Grows(s, t)
    ensures forall run :: run in s.runs ==> RunSound(t, s.runs[run])
    ensures forall room :: room in s.marks && room in t.marks && t.marks[room] == s.marks[room] ==> MarkSound(t, room)
  {
    forall run | run in s.runs
      ensures RunSound(t, s.runs[run])
    {
      var r := s.runs[run];
      CoveredStays(s, t, r.room, SlotStart(s.schedules[r.room], r.day, r.k));
    }
    forall room | room in s.marks && room in t.marks && t.marks[room] == s.marks[room]
      ensures MarkSound(t, room)
    {
      CoveredStays(s, t, room, s.marks[room] * DAY);
    }
  }

  /** A run that starts at a day not after today, or at a sound mark, owes nothing yet. */
  lemma FreshRunSound(s: State, room: Id, from: int)
    requires GenInv(s) && room in s.schedules
    requires from <= Today(s) || (room in s.marks && from == s.marks[room])
    ensures Covered(s.slots, s.schedules[room], Today(s) * DAY, SlotStart(s.schedules[room], from, 0))
  {
    CoveredFromMidnight(s.slots, s.schedules[room], Today(s) * DAY, from);
    if from <= Today(s) {
      assert from * 86_400_000_000 <= Today(s) * 86_400_000_000;
    }
  }

  /** Enough to re-establish the invariant after a step: the grid, and the runs and marks that are new. */
  lemma Rebuild(s: State, t: State)
    requires GenInv(s) && Grows(s, t)
    requires ValidSchedules(t.schedules) && OnGrid(t.schedules, t.slots)
    requires forall run :: run in t.runs ==> RunSound(t, t.runs[run]) || (run in s.runs && s.runs[run] == t.runs[run])
    requires forall room :: room in t.marks ==>
               MarkSound(t, room) || (room in s.marks && s.marks[room] == t.marks[room])
    ensures GenInv(t)
  {
    RunsAndMarksStay(s, t);
  }

  /** The insert that a run is about to do, given that no constraint stops it. */
  lemma InsertOutcomeOf(s: State, run: Id, slot: Id)
    requires GenInv(s) && MayAdvance(s, run, slot) && AtSlot(s.schedules[s.runs[run].room], s.runs[run])
    ensures var r := s.runs[run]; var sch := s.schedules[r.room];
            && Declared(sch, SlotStart(sch, r.day, r.k))
            && NextGen(s, run, Advance(slot)) ==
               s.(slots := Insert(s.slots, slot, RowAt(sch, r)), runs := s.runs[run := r.(k := r.k + 1)])
  {
    var r := s.runs[run];
    var sch := s.schedules[r.room];
    LoopStartIsDeclared(sch, r.day, r.k);
    ExclusionNeverFires(s.schedules, s.slots, sch, SlotStart(sch, r.day, r.k));
  }

  lemma InsertKeepsInv(s: State, run: Id, slot: Id, r: GenRun, sch: Schedule, t: State)
    requires GenInv(s) && run in s.runs && r == s.runs[run] && r.room in s.schedules && sch == s.schedules[r.room]
    requires slot !in s.slots && AtSlot(sch, r) && Declared(sch, SlotStart(sch, r.day, r.k))
    requires t == s.(slots := Insert(s.slots, slot, RowAt(sch, r)), runs := s.runs[run := r.(k := r.k + 1)])
    ensures GenInv(t) && Grows(s, t)
  {
    var at := SlotStart(sch, r.day, r.k);
    InsertKeepsGrid(s.schedules, s.slots, slot, sch, at);
    assert Grows(s, t);
    CoveredStays(s, t, r.room, at);
    CoveredThroughSlot(t.slots, sch, Today(t) * DAY, r.day, r.k);
    assert RunSound(t, t.runs[run]);
    Rebuild(s, t);
  }

  lemma DayStepKeepsInv(s: State, run: Id, r: GenRun, sch: Schedule, t: State)
    requires GenInv(s) && run in s.runs && r == s.runs[run] && r.room in s.schedules && sch == s.schedules[r.room]
    requires !AtSlot(sch, r)
    requires t == s.(runs := s.runs[run := r.(day := r.day + 1, k := 0)])
    ensures GenInv(t) && Grows(s, t)
  {
    DayDone(s.slots, sch, Today(s) * DAY, r.day, r.k);
    Rebuild(s, t);
  }

  lemma AdvanceKeeps(s: State, run: Id, slot: Id)
    requires GenInv(s)
    ensures GenInv(NextGen(s, run, Advance(slot))) && Grows(s, NextGen(s, run, Advance(slot)))
  {
    var t := NextGen(s, run, Advance(slot));
    if MayAdvance(s, run, slot) {
      var r := s.runs[run];
      var sch := s.schedules[r.room];
      if AtSlot(sch, r) {
        InsertOutcomeOf(s, run, slot);
        InsertKeepsInv(s, run, slot, r, sch, t);
      } else {
        DayStepKeepsInv(s, run, r, sch, t);
      }
    } else {
      assert t == s;
    }
  }

  lemma DayDone(slots: Slots, s: Schedule, lo: Instant, day: int, k: int)
    requires ValidSchedule(s) && 0 <= k
    requires s.start + 30 * k >= s.end || !Selected(s.days, day)
    requires Covered(slots, s, lo, SlotStart(s, day, k))
    ensures Covered(slots, s, lo, SlotStart(s, day + 1, 0))
  {
    if s.start + 30 * k >= s.end {
      CoveredThroughDay(slots, s, lo, day, k);
    } else {
      assert SlotStart(s, day, 0) <= SlotStart(s, day, k);
      CoveredThroughDay(slots, s, lo, day, 0);
    }
  }

  lemma PublishKeeps(s: State, run: Id, sch: Schedule)
    requires GenInv(s)
    ensures var t := NextGen(s, run, Publish(sch)); GenInv(t) && Grows(s, t)
  {
    var t := NextGen(s, run, Publish(sch));
    if t != s {
      CoveredFromMidnight(t.slots, sch, Today(t) * DAY, Today(t));
      Rebuild(s, t);
    }
  }

  lemma MarkKeeps(s: State, run: Id)
    requires GenInv(s)
    ensures var t := NextGen(s, run, Mark); GenInv(t) && Grows(s, t)
  {
    var t := NextGen(s, run, Mark);
    if t != s {
      var r := s.runs[run];
      assert RunSound(s, r);
      assert r.target * 86_400_000_000 <= r.day * 86_400_000_000;
      assert MarkSound(t, r.room);
      Rebuild(s, t);
    }
  }

  lemma GenStepKeeps(s: State, run: Id, g: GenStep)
    requires GenInv(s)
    ensures GenInv(NextGen(s, run, g)) && Grows(s, NextGen(s, run, g))
  {
    var t := NextGen(s, run, g);
    match g
    case Advance(slot) => AdvanceKeeps(s, run, slot);
    case Publish(sch) => PublishKeeps(s, run, sch);
    case Extend(room, since) =>
      if t != s {
        FreshRunSound(s, room, ExtendFrom(s.marks, room, since));
        Rebuild(s, t);
      }
    case Abort => Rebuild(s, t);
    case Mark => MarkKeeps(s, run);
  }

  ghost predicate CatalogStays(s: State, t: State) {
    && t.schedules == s.schedules && t.marks == s.marks && t.runs == s.runs && s.now <= t.now
    && SameGeometry(s.slots, t.slots)
  }

  lemma CreateKeepsGeometry(s: State, id: Id, c: CreateStep)
    ensures CatalogStays(s, NextCreate(s, id, c))
  {
    hide CreateNext, CreateDb;
    CreateFrame(s, id, c);
    if id in s.creates {
      CreateSlotsGeometry(s, id, s.creates[id], c);
    }
  }

  lemma CreateSlotsGeometry(s: State, id: Id, p: CreateProc, c: CreateStep)
    ensures SameGeometry(s.slots, CreateSlots(s, id, p, c))
  {
  }

  lemma CancelKeepsGeometry(s: State, pid: Id, x: CancelStep)
    ensures CatalogStays(s, NextCancel(s, pid, x))
  {
    hide CancelNext, CancelDb;
    CancelFrame(s, pid, x);
  }

  lemma WorkerKeepsCatalog(s: State, hid: Id, w: WorkerStep)
    ensures CatalogStays(s, NextWorker(s, hid, w))
  {
    hide NextWorker;
    WorkerFrame(s, hid, w);
  }

  /** No other event touches schedules, marks or runs, or moves a slot. */
  lemma OtherEventsKeepGeometry(s: State, e: Event)
    requires !e.Gen?
    ensures CatalogStays(s, Next(s, e))
  {
    hide NextCreate, NextCancel, NextWorker;
    match e
    case Cre(id, c) => CreateKeepsGeometry(s, id, c);
    case Can(pid, x) => CancelKeepsGeometry(s, pid, x);
    case Wrk(hid, w) => WorkerKeepsCatalog(s, hid, w);
    case _ =>
  }

  /** Every event of any process keeps the generation invariant. */
  lemma NextKeepsGen(s: State, e: Event)
    requires GenInv(s)
    ensures GenInv(Next(s, e)) && Grows(s, Next(s, e))
  {
    hide NextGen, NextCreate, NextCancel, NextWorker;
    if e.Gen? {
      GenStepKeeps(s, e.run, e.g);
    } else {
      OtherEventsKeepGeometry(s, e);
      GeometryKeepsGrid(s.schedules, s.slots, Next(s, e).slots);
      Rebuild(s, Next(s, e));
    }
  }

  lemma {:induction false} RunKeepsGen(s: State, es: seq<Event>)
    requires GenInv(s)
    ensures GenInv(Run(s, es)) && Grows(s, Run(s, es))
    decreases |es|
  {
    hide Next, GenInv;
    if es != [] {
      RunKeepsGen(s, es[..|es| - 1]);
      NextKeepsGen(Run(s, es[..|es| - 1]), es[|es| - 1]);
    }
  }

  lemma ReachableGen(s: State)
    requires Reachable(s)
    ensures GenInv(s)
  {
    var now: Instant, es: seq<Event> :| s == Run(Init(now), es);
    RunKeepsGen(Init(now), es);
  }

  /** Incremental generation equals its specification. However creations, extensions on stale or current
      days, failures at any insert, lowered marks, bookings and cancellations interleave: the table holds
      declared slots only, and all of them for every day from today up to generated_until. */
  lemma GenerationMeetsSpec(s: State)
    requires Reachable(s)
    ensures forall id :: id in s.slots ==>
              s.slots[id].room in s.schedules && Declared(s.schedules[s.slots[id].room], s.slots[id].startAt)
    ensures forall room, t :: room in s.marks && Today(s) * DAY <= t < s.marks[room] * DAY ==>
              room in s.schedules && (Declared(s.schedules[room], t) <==> Present(s.slots, room, t))
  {
    ReachableGen(s);
    forall room, t | room in s.marks && Today(s) * DAY <= t < s.marks[room] * DAY
      ensures room in s.schedules && (Declared(s.schedules[room], t) <==> Present(s.slots, room, t))
    {
      assert MarkSound(s, room);
    }
  }

  /** The exclusion constraint is never what stops a generation run: a run that may advance does advance. */
  lemma AdvanceNeverViolates(s: State, run: Id, slot: Id)
    requires Reachable(s) && MayAdvance(s, run, slot)
    ensures run in NextGen(s, run, Advance(slot)).runs
  {
    ReachableGen(s);
    if AtSlot(s.schedules[s.runs[run].room], s.runs[run]) {
      InsertOutcomeOf(s, run, slot);
    }
  }

  /** A published schedule never changes, and no slot row ever disappears or moves. */
  lemma SlotsAreImmutable(s: State, t: State, id: Id)
    requires Reachable(s) && Later(s, t) && id in s.slots
    ensures id in t.slots && MetaOf(id, t.slots[id]) == MetaOf(id, s.slots[id])
  {
    ReachableGen(s);
    var more :| t == Run(s, more);
    RunKeepsGen(s, more);
  }
}
