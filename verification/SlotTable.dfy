/** The slots table of availability_db and the effect of each SQL statement on it. */
module SlotTable {
  import opened Common
  import opened Calendar

  datatype SlotStatus = Free | Booked

  datatype Slot = Slot(room: Id, schedule: Id, startAt: Instant, endAt: Instant,
                       status: SlotStatus, holder: Option<Id>)

  type Slots = map<Id, Slot>

  datatype SlotMeta = SlotMeta(slot: Id, room: Id, startAt: Instant, endAt: Instant)

  datatype BookReply = BookOk(meta: SlotMeta) | BookNotFound | BookPast | BookConflict | BookError

  predicate Present(slots: Slots, room: Id, t: Instant) {
    exists id :: id in slots && slots[id].room == room && slots[id].startAt == t
  }

  predicate Overlaps(a: Slot, b: Slot) {
    a.room == b.room && a.startAt < b.endAt && b.startAt < a.endAt
  }

  /** The columns of UNIQUE (room_id, start_at). */
  predicate SameKey(a: Slot, b: Slot) {
    a.room == b.room && a.startAt == b.startAt
  }

  datatype InsertOutcome = Inserted | Ignored | Violates

  /** INSERT ... ON CONFLICT (room_id, start_at) DO NOTHING, under the table's exclusion constraint. */
  function TryInsert(slots: Slots, row: Slot): InsertOutcome {
    if Present(slots, row.room, row.startAt) then Ignored
    else if exists id :: id in slots && Overlaps(slots[id], row) then Violates
    else Inserted
  }

  function Insert(slots: Slots, id: Id, row: Slot): Slots {
    if TryInsert(slots, row) == Inserted then slots[id := row] else slots
  }

  function FreshSlot(s: Schedule, t: Instant): Slot {
    Slot(s.room, s.id, t, t + SLOT, Free, None)
  }

  function MetaOf(id: Id, s: Slot): SlotMeta {
    SlotMeta(id, s.room, s.startAt, s.endAt)
  }

  /** BookSlot's transaction: what it answers ... */
  function BookAnswer(slots: Slots, id: Id, now: Instant): BookReply {
    if id !in slots then BookNotFound
    else if slots[id].startAt < now then BookPast
    else if slots[id].status != Free then BookConflict
    else BookOk(MetaOf(id, slots[id]))
  }

  /** ... and the table it leaves. */
  function Book(slots: Slots, id: Id, booking: Id, now: Instant): Slots {
    if BookAnswer(slots, id, now).BookOk? then slots[id := slots[id].(status := Booked, holder := Some(booking))]
    else slots
  }

  /** UPDATE ... WHERE id = $1 AND current_booking_id = $2 AND status = 'booked'. */
  function Release(slots: Slots, id: Id, booking: Id): Slots {
    if id in slots && slots[id].holder == Some(booking) && slots[id].status == Booked
    then slots[id := slots[id].(status := Free, holder := None)]
    else slots
  }

  // ---------- the statements, column by column ----------

  /** BookSlot's transaction: when it refuses and how, and what it changes. */
  lemma BookColumns(slots: Slots, slot: Id, booking: Id, now: Instant)
    ensures var r := BookAnswer(slots, slot, now);
            && (r == BookNotFound <==> slot !in slots)
            && (r == BookPast <==> slot in slots && slots[slot].startAt < now)
            && (r == BookConflict <==> slot in slots && now <= slots[slot].startAt && slots[slot].status == Booked)
            && (r.BookOk? <==> slot in slots && now <= slots[slot].startAt && slots[slot].status == Free)
            && (r.BookOk? ==>
                  && r.meta.slot == slot && r.meta.room == slots[slot].room
                  && r.meta.startAt == slots[slot].startAt && r.meta.endAt == slots[slot].endAt)
    ensures var after := Book(slots, slot, booking, now);
            if slot in slots && now <= slots[slot].startAt && slots[slot].status == Free then
              && slot in after && after[slot].status == Booked && after[slot].holder == Some(booking)
              && after[slot].room == slots[slot].room && after[slot].schedule == slots[slot].schedule
              && after[slot].startAt == slots[slot].startAt && after[slot].endAt == slots[slot].endAt
              && after == slots[slot := after[slot]]
            else after == slots
  {
  }

  /** ReleaseSlot's UPDATE. */
  lemma ReleaseColumns(slots: Slots, slot: Id, booking: Id)
    ensures var after := Release(slots, slot, booking);
            if slot in slots && slots[slot].status == Booked && slots[slot].holder == Some(booking) then
              && slot in after && after[slot].status == Free && after[slot].holder == None
              && after[slot].room == slots[slot].room && after[slot].schedule == slots[slot].schedule
              && after[slot].startAt == slots[slot].startAt && after[slot].endAt == slots[slot].endAt
              && after == slots[slot := after[slot]]
            else after == slots
  {
  }

  /** GenerateSlots' INSERT of a slot of schedule s at t. */
  lemma InsertColumns(slots: Slots, id: Id, s: Schedule, t: Instant)
    requires id !in slots
    ensures var present := exists k :: k in slots && slots[k].room == s.room && slots[k].startAt == t;
            var clash := exists k :: k in slots && slots[k].room == s.room
                                     && slots[k].startAt < t + 1_800_000_000 && t < slots[k].endAt;
            var after := Insert(slots, id, FreshSlot(s, t));
            && TryInsert(slots, FreshSlot(s, t)) == (if present then Ignored else if clash then Violates else Inserted)
            && (if present || clash then after == slots
                else
                  && id in after && after[id].room == s.room && after[id].schedule == s.id
                  && after[id].startAt == t && after[id].endAt == t + 1_800_000_000
                  && after[id].status == Free && after[id].holder == None
                  && after == slots[id := after[id]])
  {
    assert forall k :: k in slots ==>
      (Overlaps(slots[k], FreshSlot(s, t)) <==>
       slots[k].room == s.room && slots[k].startAt < t + 1_800_000_000 && t < slots[k].endAt);
  }

  /** What a statement did to the table once its fault is taken into account. */
  function Faulty<T>(fault: Fault, before: T, after: T): T {
    if fault == FailBefore then before else after
  }

  /** The answer a faulty availability service gives: an error hides what happened. */
  function FaultyAnswer(fault: Fault, reply: BookReply): BookReply {
    if fault == NoFault then reply
    else if fault == FailAfter && !reply.BookOk? then reply
    else BookError
  }

  // ---------- validity ----------

  /** One schedule per room, under the room's key, each as CreateSchedule validated it. */
  ghost predicate ValidSchedules(schedules: map<Id, Schedule>) {
    forall room :: room in schedules ==> schedules[room].room == room && ValidSchedule(schedules[room])
  }

  /** Every row is a half-hour slot that its room's schedule declares, and starts are unique per room. */
  ghost predicate OnGrid(schedules: map<Id, Schedule>, slots: Slots) {
    && (forall id :: id in slots ==>
          && slots[id].room in schedules
          && slots[id].schedule == schedules[slots[id].room].id
          && slots[id].endAt == slots[id].startAt + SLOT
          && Declared(schedules[slots[id].room], slots[id].startAt))
    && (forall i, j :: i in slots && j in slots && SameKey(slots[i], slots[j]) ==> i == j)
  }

  /** The status column and the holder column say the same thing. */
  ghost predicate HoldersMatchStatus(slots: Slots) {
    forall id :: id in slots ==> (slots[id].status == Booked <==> slots[id].holder.Some?)
  }

  /** Every declared start in [lo, hi) has its row. */
  ghost predicate Covered(slots: Slots, s: Schedule, lo: Instant, hi: Instant) {
    forall t {:trigger Present(slots, s.room, t)} :: Declared(s, t) && lo <= t < hi ==> Present(slots, s.room, t)
  }

  /** Two different slots of one room never overlap in time. */
  lemma GridIsDisjoint(schedules: map<Id, Schedule>, slots: Slots, i: Id, j: Id)
    requires ValidSchedules(schedules) && OnGrid(schedules, slots)
    requires i in slots && j in slots && i != j
    ensures !Overlaps(slots[i], slots[j])
    ensures slots[i].room == slots[j].room ==> slots[i].endAt <= slots[j].startAt || slots[j].endAt <= slots[i].startAt
  {
    if slots[i].room == slots[j].room {
      var s := schedules[slots[i].room];
      if slots[i].startAt < slots[j].startAt {
        DeclaredApart(s, slots[i].startAt, slots[j].startAt);
      } else {
        DeclaredApart(s, slots[j].startAt, slots[i].startAt);
      }
    }
  }

  /** Generation never trips the exclusion constraint: a missing declared start can always be inserted. */
  lemma ExclusionNeverFires(schedules: map<Id, Schedule>, slots: Slots, s: Schedule, t: Instant)
    requires ValidSchedules(schedules) && OnGrid(schedules, slots)
    requires s.room in schedules && schedules[s.room] == s && Declared(s, t)
    ensures TryInsert(slots, FreshSlot(s, t)) == if Present(slots, s.room, t) then Ignored else Inserted
  {
    if !Present(slots, s.room, t) {
      forall id | id in slots && slots[id].room == s.room
        ensures !Overlaps(slots[id], FreshSlot(s, t))
      {
        if slots[id].startAt < t {
          DeclaredApart(s, slots[id].startAt, t);
        } else {
          DeclaredApart(s, t, slots[id].startAt);
        }
      }
    }
  }

  /** Inserting a declared start keeps the grid, leaves every old row as it was and makes the start present. */
  lemma InsertKeepsGrid(schedules: map<Id, Schedule>, slots: Slots, id: Id, s: Schedule, t: Instant)
    requires ValidSchedules(schedules) && OnGrid(schedules, slots)
    requires s.room in schedules && schedules[s.room] == s && Declared(s, t) && id !in slots
    ensures var after := Insert(slots, id, FreshSlot(s, t));
            && OnGrid(schedules, after)
            && Present(after, s.room, t)
            && (forall k :: k in slots ==> k in after && after[k] == slots[k])
            && after.Keys == slots.Keys + (if Present(slots, s.room, t) then {} else {id})
  {
    ExclusionNeverFires(schedules, slots, s, t);
    if !Present(slots, s.room, t) {
      var after := slots[id := FreshSlot(s, t)];
      assert after[id].room == s.room && after[id].startAt == t;
    }
  }

  /** A table that only gains rows, or only changes who holds them, covers what it covered. */
  lemma CoveredGrows(slots: Slots, after: Slots, s: Schedule, lo: Instant, hi: Instant)
    requires Covered(slots, s, lo, hi)
    requires forall k :: k in slots ==>
               k in after && after[k].room == slots[k].room && after[k].startAt == slots[k].startAt
    ensures Covered(after, s, lo, hi)
  {
    forall t | Declared(s, t) && lo <= t < hi
      ensures Present(after, s.room, t)
    {
      assert Present(slots, s.room, t);
      var k :| k in slots && slots[k].room == s.room && slots[k].startAt == t;
      assert k in after;
    }
  }

  /** One iteration of the inner loop extends the coverage by exactly one start. */
  lemma CoveredThroughSlot(slots: Slots, s: Schedule, lo: Instant, day: int, k: int)
    requires ValidSchedule(s) && 0 <= k && s.start + 30 * k < s.end && Selected(s.days, day)
    requires Covered(slots, s, lo, SlotStart(s, day, k))
    requires Present(slots, s.room, SlotStart(s, day, k))
    ensures Covered(slots, s, lo, SlotStart(s, day, k + 1))
  {
    LoopStartIsDeclared(s, day, k);
    forall t | Declared(s, t) && SlotStart(s, day, k) < t
      ensures SlotStart(s, day, k + 1) <= t
    {
      DeclaredApart(s, SlotStart(s, day, k), t);
    }
  }

  /** A day that is over, or not selected, adds no declared start. */
  lemma CoveredThroughDay(slots: Slots, s: Schedule, lo: Instant, day: int, k: int)
    requires ValidSchedule(s) && 0 <= k
    requires s.start + 30 * k >= s.end || (k == 0 && !Selected(s.days, day))
    requires Covered(slots, s, lo, SlotStart(s, day, k))
    ensures Covered(slots, s, lo, SlotStart(s, day + 1, 0))
  {
    forall t | Declared(s, t) && SlotStart(s, day, k) <= t
      ensures SlotStart(s, day + 1, 0) <= t
    {
      var d, j := DeclaredIsLoopStart(s, t);
      assert day <= d;
      assert day + 1 <= d;
    }
  }

  /** No slot is declared between midnight and the first start of a day. */
  lemma CoveredFromMidnight(slots: Slots, s: Schedule, lo: Instant, day: int)
    requires ValidSchedule(s)
    ensures Covered(slots, s, lo, day * DAY) <==> Covered(slots, s, lo, SlotStart(s, day, 0))
  {
    assert day * DAY <= SlotStart(s, day, 0);
    forall t | Declared(s, t) && t < SlotStart(s, day, 0)
      ensures t < day * DAY
    {
      var d, j := DeclaredIsLoopStart(s, t);
      assert d < day;
    }
  }

  lemma CoveredUpTo(slots: Slots, s: Schedule, lo: Instant, mid: Instant, hi: Instant)
    requires Covered(slots, s, lo, hi) && mid <= hi
    ensures Covered(slots, s, lo, mid)
  {
  }

  lemma CoveredJoin(slots: Slots, s: Schedule, lo: Instant, mid: Instant, hi: Instant)
    requires Covered(slots, s, lo, mid) && Covered(slots, s, mid, hi)
    ensures Covered(slots, s, lo, hi)
  {
  }

  /** Same rows with the same room, schedule and times; only status and holder may differ. */
  ghost predicate SameGeometry(slots: Slots, after: Slots) {
    && slots.Keys == after.Keys
    && (forall id {:trigger after[id]} :: id in slots ==>
          after[id] == slots[id].(status := after[id].status, holder := after[id].holder))
  }

  lemma GeometryKeepsGrid(schedules: map<Id, Schedule>, slots: Slots, after: Slots)
    requires OnGrid(schedules, slots) && SameGeometry(slots, after)
    ensures OnGrid(schedules, after)
  {
    forall i, j | i in after && j in after && SameKey(after[i], after[j])
      ensures i == j
    {
      assert SameKey(slots[i], slots[j]);
    }
  }
}
