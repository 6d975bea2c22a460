/** availability_db and the statements that availability-service runs against it. */
module AvailabilityRepository {
  import opened Common
  import opened Calendar
  import opened SlotTable
  import opened Platform
  import opened GenerationRuns

  datatype ScheduleError = ScheduleExists | InsertFailed

  function FaultAt(faults: seq<Fault>, n: nat): Fault {
    if n < |faults| then faults[n] else NoFault
  }

  /** The rows of before, untouched, plus new free slots that s declares in [lo, hi). */
  ghost predicate ExtendedBy(before: Slots, after: Slots, s: Schedule, lo: Instant, hi: Instant) {
    && (forall id :: id in before ==> id in after && after[id] == before[id])
    && (forall id :: id in after && id !in before ==>
          && after[id] == FreshSlot(s, after[id].startAt)
          && Declared(s, after[id].startAt) && lo <= after[id].startAt < hi)
  }

  /** The rows that GetFreeSlots selects for a day. */
  predicate FreeOn(slots: Slots, room: Id, day: int, id: Id) {
    id in slots && slots[id].room == room && day * DAY <= slots[id].startAt < (day + 1) * DAY
      && slots[id].status == Free
  }

  /** ORDER BY start_at. */
  predicate Ordered(slots: Slots, ids: seq<Id>) {
    && (forall id :: id in ids ==> id in slots)
    && (forall i, j :: 0 <= i < j < |ids| ==> slots[ids[i]].startAt < slots[ids[j]].startAt)
  }

  class AvailabilityRepository {
    var schedules: map<Id, Schedule>
    var slots: Slots
    var marks: map<Id, int>
    var nextId: Id

    /** The schema's constraints, and uuid.New() as a counter. */
    ghost predicate Valid()
      reads this
    {
      && ValidSchedules(schedules) && OnGrid(schedules, slots) && HoldersMatchStatus(slots)
      && (forall id :: id in slots ==> id < nextId)
    }

    constructor ()
      ensures Valid() && schedules == map[] && slots == map[] && marks == map[]
    {
      schedules, slots, marks, nextId := map[], map[], map[], 1;
    }

    method CreateSchedule(s: Schedule, fault: Fault) returns (r: Result<Schedule, ScheduleError>)
      requires Valid() && ValidSchedule(s)
      modifies this`schedules
      ensures Valid()
      ensures var taken := s.room in old(schedules)
                           || exists room :: room in old(schedules) && old(schedules)[room].id == s.id;
              && schedules == (if taken || fault == FailBefore then old(schedules) else old(schedules)[s.room := s])
              && r == (if fault == FailBefore then Err(InsertFailed) else if taken then Err(ScheduleExists)
                       else if fault == FailAfter then Err(InsertFailed) else Ok(s))
    {
      if fault == FailBefore {
        return Err(InsertFailed);
      }
      if s.room in schedules || exists room :: room in schedules && schedules[room].id == s.id {
        return Err(ScheduleExists);
      }
      schedules := schedules[s.room := s];
      return if fault == FailAfter then Err(InsertFailed) else Ok(s);
    }

    /** BookSlot. Which slot is given away, with which times, and which refusal is given otherwise, in terms of the
        columns; an answer that gets lost is an error. */
    method BookSlot(slot: Id, booking: Id, now: Instant, fault: Fault) returns (r: BookReply)
      requires Valid()
      modifies this`slots
      ensures Valid()
      ensures fault == NoFault ==>
                && (r == BookNotFound <==> slot !in old(slots))
                && (r == BookPast <==> slot in old(slots) && old(slots)[slot].startAt < now)
                && (r == BookConflict <==>
                    slot in old(slots) && now <= old(slots)[slot].startAt && old(slots)[slot].status == Booked)
                && r != BookError
      ensures r.BookOk? ==>
                && slot in old(slots) && r.meta.slot == slot && r.meta.room == old(slots)[slot].room
                && r.meta.startAt == old(slots)[slot].startAt && r.meta.endAt == old(slots)[slot].endAt
                && slot in slots && slots[slot].status == Booked && slots[slot].holder == Some(booking)
      ensures fault == FailBefore ==> slots == old(slots) && r == BookError
      ensures slots == Faulty(fault, old(slots), Book(old(slots), slot, booking, now))
      ensures r == FaultyAnswer(fault, BookAnswer(old(slots), slot, now))
    {
      if fault == FailBefore {
        return BookError;
      }
      if slot !in slots {
        return BookNotFound;
      }
      var row := slots[slot];
      if row.startAt < now {
        return BookPast;
      }
      if row.status != Free {
        return BookConflict;
      }
      GeometryKeepsGrid(schedules, slots, slots[slot := row.(status := Booked, holder := Some(booking))]);
      slots := slots[slot := row.(status := Booked, holder := Some(booking))];
      return if fault == FailAfter then BookError else BookOk(MetaOf(slot, row));
    }

    /** ReleaseSlot. It frees the slot exactly when this booking holds it. */
    method ReleaseSlot(slot: Id, booking: Id, fault: Fault) returns (ok: bool)
      requires Valid()
      modifies this`slots
      ensures Valid()
      ensures fault != FailBefore && slot in old(slots) && old(slots)[slot].holder == Some(booking) ==>
                slot in slots && slots[slot].status == Free && slots[slot].holder == None
                && slots == old(slots)[slot := slots[slot]]
      ensures fault == FailBefore || slot !in old(slots) || old(slots)[slot].holder != Some(booking) ==>
                slots == old(slots)
      ensures slots == Faulty(fault, old(slots), Release(old(slots), slot, booking))
      ensures ok <==> fault == NoFault
    {
      if fault == FailBefore {
        return false;
      }
      if slot in slots && slots[slot].holder == Some(booking) && slots[slot].status == Booked {
        var row := slots[slot].(status := Free, holder := None);
        GeometryKeepsGrid(schedules, slots, slots[slot := row]);
        slots := slots[slot := row];
      }
      return fault == NoFault;
    }

    /** The map from weekdays to true that GenerateSlots builds. */
    method DaysSet(days: seq<int>) returns (weekdays: set<int>)
      ensures forall day :: Weekday(day) in weekdays <==> Selected(days, day)
    {
      weekdays := {};
      for i := 0 to |days|
        invariant forall w :: w in weekdays <==> exists d :: d in days[..i] && GoRem7(d) == w
      {
        assert days[..i + 1] == days[..i] + [days[i]];
        weekdays := weekdays + {GoRem7(days[i])};
      }
      assert days[..|days|] == days;
    }

    /** One INSERT ... ON CONFLICT DO NOTHING; the exclusion constraint turns an overlap into an error. */
    method InsertSlot(row: Slot, fault: Fault) returns (affected: nat, err: bool)
      requires Valid()
      modifies this`slots, this`nextId
      ensures old(nextId) !in old(slots) && nextId == old(nextId) + 1
      ensures slots == Faulty(fault, old(slots), Insert(old(slots), old(nextId), row))
      ensures err <==> fault != NoFault || TryInsert(old(slots), row) == Violates
      ensures affected == if !err && TryInsert(old(slots), row) == Inserted then 1 else 0
    {
      var id := nextId;
      nextId := nextId + 1;
      if fault == FailBefore {
        return 0, true;
      }
      var outcome := TryInsert(slots, row);
      if outcome == Inserted {
        slots := slots[id := row];
      }
      err := outcome == Violates || fault == FailAfter;
      affected := if !err && outcome == Inserted then 1 else 0;
    }

    /** GenerateSlots. Each selected day of [from, until) gets its declared slots; rows that exist, booked ones
        included, are untouched; the count is the number of new rows; and nothing but a failing insert stops it.
        Its inserts are those of a generation run of the platform. */
    method GenerateSlots(s: Schedule, from: int, until: int, faults: seq<Fault>, ghost start: State, ghost run: Id)
      returns (count: nat, err: bool, ghost es: seq<Event>, ghost at: GenRun)
      requires Valid() && s.room in schedules && schedules[s.room] == s
      requires start.schedules == schedules && RunIsAt(start, start, run, slots, GenRun(s.room, until, from, 0))
      modifies this`slots, this`nextId
      ensures Valid()
      ensures ExtendedBy(old(slots), slots, s, from * DAY, until * DAY)
      ensures !err ==> Covered(slots, s, from * DAY, until * DAY)
      ensures forall id :: id in old(slots) ==> id in slots && slots[id] == old(slots)[id]
      ensures forall id :: id in slots && id !in old(slots) ==>
                && slots[id].room == s.room && slots[id].schedule == s.id && Declared(s, slots[id].startAt)
                && from * 86_400_000_000 <= slots[id].startAt < until * 86_400_000_000
                && slots[id].endAt == slots[id].startAt + 1_800_000_000
                && slots[id].status == Free && slots[id].holder == None
      ensures !err ==>
                forall t :: Declared(s, t) && from * 86_400_000_000 <= t < until * 86_400_000_000 ==>
                  exists id :: id in slots && slots[id].room == s.room && slots[id].startAt == t
      ensures |old(slots)| + count <= |slots| <= |old(slots)| + count + (if err then 1 else 0)
      ensures err ==> exists f :: f in faults && f != NoFault
      ensures RunIsAt(start, Run(start, es), run, slots, at)
      ensures at.room == s.room && at.target == until && (!err ==> until <= at.day)
    {
      hide Declared, Present, SlotStart, Covered, ExtendedBy, OnGrid, HoldersMatchStatus, Run, Next, RunIsAt;
      es, at := [], GenRun(s.room, until, from, 0);
      RunNothing(start);
      var weekdays := DaysSet(s.days);
      count, err := 0, false;
      var inserts := 0;
      var date := from;
      NothingExtended(schedules, slots, s, from * DAY, until * DAY);
      CoveredFromMidnight(slots, s, from * DAY, from);
      NothingBefore(slots, s, from);
      while date < until
        invariant from <= date && (date <= until || date == from)
        invariant Valid() && ExtendedBy(old(slots), slots, s, from * DAY, until * DAY)
        invariant Covered(slots, s, from * DAY, SlotStart(s, date, 0))
        invariant |slots| == |old(slots)| + count
        invariant at == GenRun(s.room, until, date, 0) && RunIsAt(start, Run(start, es), run, slots, at)
      {
        if Weekday(date) !in weekdays {
          CoveredThroughDay(slots, s, from * DAY, date, 0);
          DayStep(start, es, run, slots, at, s, nextId);
          es, at := es + [Gen(run, Advance(nextId))], GenRun(s.room, until, date + 1, 0);
          date := date + 1;
          continue;
        }
        ghost var before := slots;
        var added;
        added, inserts, err, es, at := GenerateDay(s, date, from * DAY, faults, inserts, start, run, es, at);
        DayIsWithin(s, date, from, until);
        ExtendedTwice(old(slots), before, slots, s, from * DAY, until * DAY, date * DAY, (date + 1) * DAY);
        count := count + added;
        if err {
          ExtendedInNumbers(old(slots), slots, s, from, until);
          return;
        }
        date := date + 1;
      }
      CoveredFromMidnight(slots, s, from * DAY, date);
      CoveredUpTo(slots, s, from * DAY, until * DAY, date * DAY);
      CoveredInNumbers(slots, s, from, until);
      ExtendedInNumbers(old(slots), slots, s, from, until);
    }

    /** The inner loop of GenerateSlots: the slots of one selected day. */
    method GenerateDay(s: Schedule, date: int, ghost lo: Instant, faults: seq<Fault>, done: nat,
                       ghost start: State, ghost run: Id, ghost before: seq<Event>, ghost was: GenRun)
      returns (count: nat, inserts: nat, err: bool, ghost es: seq<Event>, ghost at: GenRun)
      requires was.day == date < was.target && was.k == 0 && was.room == s.room && start.schedules == schedules
      requires RunIsAt(start, Run(start, before), run, slots, was)
      requires Valid() && s.room in schedules && schedules[s.room] == s && Selected(s.days, date)
      requires Covered(slots, s, lo, SlotStart(s, date, 0))
      modifies this`slots, this`nextId
      ensures Valid()
      ensures ExtendedBy(old(slots), slots, s, date * DAY, (date + 1) * DAY)
      ensures !err ==> Covered(slots, s, lo, SlotStart(s, date + 1, 0))
      ensures |old(slots)| + count <= |slots| <= |old(slots)| + count + (if err then 1 else 0)
      ensures err ==> exists f :: f in faults && f != NoFault
      ensures RunIsAt(start, Run(start, es), run, slots, at)
      ensures at.room == s.room && at.target == was.target && (!err ==> at == was.(day := date + 1))
    {
      hide TryInsert, Insert, Present, Declared, SlotStart, Covered, OnGrid, ValidSchedules, HoldersMatchStatus;
      hide ExtendedBy;
      hide Run, Next, RunIsAt, InsertEvents, Selected;
      count, inserts, err, es, at := 0, done, false, before, was;
      var slotStart := date * DAY + s.start * MINUTE;
      var dayEnd := date * DAY + s.end * MINUTE;
      ghost var k := 0;
      SlotStarts(s, date, 0);
      ghost var from, to := date * DAY, (date + 1) * DAY;
      NothingExtended(schedules, slots, s, from, to);
      while slotStart < dayEnd
        invariant 0 <= k && slotStart == SlotStart(s, date, k)
        invariant Valid() && ExtendedBy(old(slots), slots, s, from, to)
        invariant Covered(slots, s, lo, SlotStart(s, date, k))
        invariant |slots| == |old(slots)| + count
        invariant RunIsAt(start, Run(start, es), run, slots, was.(k := k))
      {
        SlotStarts(s, date, k);
        NextInsert(schedules, old(slots), slots, nextId, s, lo, from, to, FaultAt(faults, inserts), start, es, run,
                   was.(k := k));
        var affected, failed := InsertSlot(FreshSlot(s, slotStart), FaultAt(faults, inserts));
        es := InsertEvents(es, run, nextId - 1, FaultAt(faults, inserts));
        at := InsertedAt(was.(k := k), FaultAt(faults, inserts));
        if failed {
          assert inserts < |faults| && faults[inserts] in faults;
          return count, inserts, true, es, at;
        }
        count := count + affected;
        inserts := inserts + 1;
        slotStart := slotStart + SLOT;
        k := k + 1;
      }
      SlotStarts(s, date, k);
      CoveredThroughDay(slots, s, lo, date, k);
      DayStep(start, es, run, slots, was.(k := k), s, nextId);
      es, at := es + [Gen(run, Advance(nextId))], was.(day := date + 1);
    }

    method GetGenerationState(room: Id, fault: Fault) returns (r: Result<Option<int>, ()>)
      ensures r == if fault != NoFault then Err(()) else Ok(if room in marks then Some(marks[room]) else None)
    {
      if fault != NoFault {
        return Err(());
      }
      return Ok(if room in marks then Some(marks[room]) else None);
    }

    method UpsertGenerationState(room: Id, until: int, fault: Fault) returns (ok: bool)
      requires Valid()
      modifies this`marks
      ensures Valid()
      ensures marks == Faulty(fault, old(marks), old(marks)[room := until])
      ensures ok <==> fault == NoFault
    {
      if fault != FailBefore {
        marks := marks[room := until];
      }
      return fault == NoFault;
    }

    /** Every schedule once, in some order. */
    method GetAllSchedules() returns (all: seq<Schedule>)
      requires ValidSchedules(schedules)
      ensures forall s :: s in all <==> s.room in schedules && schedules[s.room] == s
      ensures forall i, j :: 0 <= i < j < |all| ==> all[i].room != all[j].room
    {
      all := [];
      var rooms := schedules.Keys;
      while rooms != {}
        invariant rooms <= schedules.Keys
        invariant forall s :: s in all <==> s.room in schedules && s.room !in rooms && schedules[s.room] == s
        invariant forall i, j :: 0 <= i < j < |all| ==> all[i].room != all[j].room
        decreases |rooms|
      {
        var room :| room in rooms;
        all := all + [schedules[room]];
        rooms := rooms - {room};
      }
    }

    /** The free slots of one UTC day, ordered by start. */
    method GetFreeSlots(room: Id, day: int) returns (ids: seq<Id>)
      requires Valid()
      ensures Ordered(slots, ids)
      ensures forall id :: id in ids <==> FreeOn(slots, room, day, id)
      ensures forall id :: id in ids <==>
                && id in slots && slots[id].room == room && slots[id].status == Free
                && day * 86_400_000_000 <= slots[id].startAt < (day + 1) * 86_400_000_000
      ensures forall i, j :: 0 <= i < j < |ids| ==>
                ids[i] in slots && ids[j] in slots && slots[ids[i]].startAt < slots[ids[j]].startAt
    {
      hide OnGrid, ValidSchedules, HoldersMatchStatus;
      ids := [];
      var rest := set id | id in slots && FreeOn(slots, room, day, id);
      while rest != {}
        invariant forall id :: id in rest ==> FreeOn(slots, room, day, id)
        invariant Ordered(slots, ids)
        invariant forall id :: FreeOn(slots, room, day, id) <==> id in rest || id in ids
        invariant forall id, i :: id in rest && 0 <= i < |ids| ==> slots[ids[i]].startAt < slots[id].startAt
        decreases |rest|
      {
        var first := Earliest(rest);
        assert FreeOn(slots, room, day, first);
        forall id | id in rest - {first}
          ensures slots[first].startAt < slots[id].startAt
        {
          StartsDiffer(schedules, slots, id, first);
        }
        ids := ids + [first];
        rest := rest - {first};
      }
    }

    method Earliest(ids: set<Id>) returns (first: Id)
      requires ids != {} && forall id :: id in ids ==> id in slots
      ensures first in ids && forall id :: id in ids ==> slots[first].startAt <= slots[id].startAt
    {
      first :| first in ids;
      var rest := ids - {first};
      while rest != {}
        invariant rest <= ids && first in ids
        invariant forall id :: id in ids - rest ==> slots[first].startAt <= slots[id].startAt
        decreases |rest|
      {
        var id :| id in rest;
        if slots[id].startAt < slots[first].startAt {
          first := id;
        }
        rest := rest - {id};
      }
    }
  }

  /** The effect of one insert of a declared start, faults included. */
  lemma OneInsert(schedules: map<Id, Schedule>, slots: Slots, id: Id, s: Schedule, lo: Instant, t: Instant,
                  fault: Fault)
    requires ValidSchedules(schedules) && OnGrid(schedules, slots) && HoldersMatchStatus(slots)
             && Covered(slots, s, lo, t)
    requires s.room in schedules && schedules[s.room] == s && Declared(s, t) && id !in slots
    ensures var after := Faulty(fault, slots, Insert(slots, id, FreshSlot(s, t)));
            var outcome := TryInsert(slots, FreshSlot(s, t));
            && outcome != Violates
            && OnGrid(schedules, after) && HoldersMatchStatus(after) && Covered(after, s, lo, t)
            && (after == slots || after == slots[id := FreshSlot(s, t)])
            && (fault == NoFault ==>
                  Present(after, s.room, t) && |after| == |slots| + (if outcome == Inserted then 1 else 0))
            && |slots| <= |after| <= |slots| + 1
  {
    hide Declared, Covered, OnGrid, ValidSchedules, Overlaps;
    ExclusionNeverFires(schedules, slots, s, t);
    InsertKeepsGrid(schedules, slots, id, s, t);
    CoveredGrows(slots, Faulty(fault, slots, Insert(slots, id, FreshSlot(s, t))), s, lo, t);
  }

  function InsertEvents(es: seq<Event>, run: Id, id: Id, fault: Fault): seq<Event> {
    if fault == FailBefore then es else es + [Gen(run, Advance(id))]
  }

  function InsertedAt(r: GenRun, fault: Fault): GenRun {
    if fault == FailBefore then r else r.(k := r.k + 1)
  }

  /** The insert at the loop position r, faults included: what it does to the table and to the platform run. */
  lemma NextInsert(schedules: map<Id, Schedule>, first: Slots, slots: Slots, id: Id, s: Schedule, lo: Instant,
                   from: Instant, to: Instant, fault: Fault, start: State, es: seq<Event>, run: Id, r: GenRun)
    requires from == r.day * DAY && to == (r.day + 1) * DAY
    requires ValidSchedules(schedules) && OnGrid(schedules, slots) && HoldersMatchStatus(slots) && id !in slots
    requires s.room in schedules && schedules[s.room] == s && AtSlot(s, r)
    requires r.room == s.room && r.day < r.target && start.schedules == schedules
    requires Covered(slots, s, lo, SlotStart(s, r.day, r.k))
    requires ExtendedBy(first, slots, s, from, to)
    requires RunIsAt(start, Run(start, es), run, slots, r)
    ensures var row := FreshSlot(s, SlotStart(s, r.day, r.k));
            var after := Faulty(fault, slots, Insert(slots, id, row));
            && TryInsert(slots, row) != Violates
            && OnGrid(schedules, after) && HoldersMatchStatus(after)
            && (forall k :: k in after ==> k in slots || k == id)
            && ExtendedBy(first, after, s, from, to)
            && (fault == NoFault ==> Covered(after, s, lo, SlotStart(s, r.day, r.k + 1)))
            && (fault == NoFault ==> |after| == |slots| + (if TryInsert(slots, row) == Inserted then 1 else 0))
            && |slots| <= |after| <= |slots| + 1
            && RunIsAt(start, Run(start, InsertEvents(es, run, id, fault)), run, after, InsertedAt(r, fault))
  {
    hide TryInsert, Insert, Present, Declared, SlotStart, Covered, OnGrid, HoldersMatchStatus, ExtendedBy;
    hide Run, Next, RunIsAt;
    var at := SlotStart(s, r.day, r.k);
    var after := Faulty(fault, slots, Insert(slots, id, FreshSlot(s, at)));
    LoopStartIsDeclared(s, r.day, r.k);
    WithinDay(at, r.day);
    OneInsert(schedules, slots, id, s, lo, at, fault);
    InsertStep(start, es, run, slots, r, s, id);
    StillExtended(first, slots, after, s, from, to, at);
    if fault == NoFault {
      CoveredThroughSlot(after, s, lo, r.day, r.k);
    }
  }

  lemma SlotStarts(s: Schedule, day: int, k: int)
    ensures SlotStart(s, day, k) == day * DAY + s.start * MINUTE + k * SLOT
    ensures SlotStart(s, day, k + 1) == SlotStart(s, day, k) + SLOT
    ensures SlotStart(s, day, k) < day * DAY + s.end * MINUTE <==> s.start + 30 * k < s.end
  {
  }

  /** UNIQUE (room_id, start_at). */
  lemma StartsDiffer(schedules: map<Id, Schedule>, slots: Slots, i: Id, j: Id)
    requires OnGrid(schedules, slots) && i in slots && j in slots && i != j && slots[i].room == slots[j].room
    ensures slots[i].startAt != slots[j].startAt
  {
    assert !SameKey(slots[i], slots[j]);
  }

  lemma WithinDay(t: Instant, date: int)
    requires t / DAY == date
    ensures date * DAY <= t < (date + 1) * DAY
  {
  }

  lemma NothingExtended(schedules: map<Id, Schedule>, slots: Slots, s: Schedule, lo: Instant, hi: Instant)
    requires ValidSchedules(schedules) && s.room in schedules && schedules[s.room] == s
    ensures ValidSchedule(s) && ExtendedBy(slots, slots, s, lo, hi)
  {
  }

  lemma DayIsWithin(s: Schedule, date: int, from: int, until: int)
    requires from <= date < until
    ensures from * DAY <= date * DAY && (date + 1) * DAY <= until * DAY
  {
  }

  lemma NothingBefore(slots: Slots, s: Schedule, day: int)
    ensures Covered(slots, s, day * DAY, day * DAY)
  {
  }

  lemma ExtendedTwice(a: Slots, b: Slots, c: Slots, s: Schedule, lo: Instant, hi: Instant, lo2: Instant, hi2: Instant)
    requires ExtendedBy(a, b, s, lo, hi) && ExtendedBy(b, c, s, lo2, hi2) && lo <= lo2 && hi2 <= hi
    ensures ExtendedBy(a, c, s, lo, hi)
  {
  }

  /** ExtendedBy, column by column. */
  lemma ExtendedInNumbers(before: Slots, after: Slots, s: Schedule, from: int, until: int)
    requires ExtendedBy(before, after, s, from * DAY, until * DAY)
    ensures forall id :: id in before ==> id in after && after[id] == before[id]
    ensures forall id :: id in after && id !in before ==>
              && after[id].room == s.room && after[id].schedule == s.id && Declared(s, after[id].startAt)
              && from * 86_400_000_000 <= after[id].startAt < until * 86_400_000_000
              && after[id].endAt == after[id].startAt + 1_800_000_000
              && after[id].status == Free && after[id].holder == None
  {
    hide Declared;
  }

  lemma CoveredInNumbers(slots: Slots, s: Schedule, from: int, until: int)
    requires Covered(slots, s, from * DAY, until * DAY)
    ensures forall t :: Declared(s, t) && from * 86_400_000_000 <= t < until * 86_400_000_000 ==>
              exists id :: id in slots && slots[id].room == s.room && slots[id].startAt == t
  {
    hide Declared;
    forall t | Declared(s, t) && from * 86_400_000_000 <= t < until * 86_400_000_000
      ensures exists id :: id in slots && slots[id].room == s.room && slots[id].startAt == t
    {
      assert Present(slots, s.room, t);
    }
  }

  lemma StillExtended(first: Slots, before: Slots, after: Slots, s: Schedule, lo: Instant, hi: Instant, at: Instant)
    requires ExtendedBy(first, before, s, lo, hi)
    requires Declared(s, at) && lo <= at < hi
    requires after == before || exists id: Id :: id !in before && after == before[id := FreshSlot(s, at)]
    ensures ExtendedBy(first, after, s, lo, hi)
  {
  }
}
