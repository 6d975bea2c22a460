/** Schedules and the instants at which their slots start. Everything is UTC. */
module Calendar {
  import opened Common

  const MINUTE: int := 60_000_000
  const SLOT: int := 1_800_000_000
  const DAY: int := 86_400_000_000

  /** SlotGenerationDays. */
  const HORIZON: int := 30

  /** A room's weekly opening hours; start and end are minutes after midnight. */
  datatype Schedule = Schedule(id: Id, room: Id, days: seq<int>, start: int, end: int)

  /** What CreateSchedule accepts: ISO weekdays, and a time range of whole slots inside one day. */
  predicate ValidSchedule(s: Schedule) {
    && |s.days| > 0
    && (forall d :: d in s.days ==> 1 <= d <= 7)
    && 0 <= s.start < s.end <= 1439
    && (s.end - s.start) % 30 == 0
  }

  /** Go's time.Weekday of a day number: Sunday is 0, and day 0 (1970-01-01) is a Thursday. */
  function Weekday(day: int): int {
    (day + 4) % 7
  }

  /** ISO 8601 weekday: Monday is 1, Sunday is 7. */
  function IsoWeekday(day: int): int {
    (day + 3) % 7 + 1
  }

  /** Go's d % 7, which truncates toward zero. */
  function GoRem7(d: int): int {
    if d >= 0 then d % 7 else -((-d) % 7)
  }

  predicate Selected(days: seq<int>, day: int) {
    exists d :: d in days && GoRem7(d) == Weekday(day)
  }

  /** ISO weekdays run from Monday, 1, to Sunday, 7, and day 0 is a Thursday. */
  lemma WeekdaysRun(day: int)
    ensures IsoWeekday(0) == 4 && IsoWeekday(day + 1) == if IsoWeekday(day) == 7 then 1 else IsoWeekday(day) + 1
    ensures 1 <= IsoWeekday(day) <= 7
  {
  }

  lemma SelectedIsIsoWeekday(s: Schedule, day: int)
    requires ValidSchedule(s)
    ensures Selected(s.days, day) <==> IsoWeekday(day) in s.days
  {
  }

  /** Start of the k-th slot of a day, as the generation loop computes it. */
  function SlotStart(s: Schedule, day: int, k: int): Instant {
    day * 86_400_000_000 + s.start * 60_000_000 + k * 1_800_000_000
  }

  /** The declared slot starts, stated without reference to the loop. */
  predicate Declared(s: Schedule, t: Instant) {
    && Selected(s.days, t / DAY)
    && s.start * MINUTE <= t % DAY < s.end * MINUTE
    && (t % DAY - s.start * MINUTE) % SLOT == 0
  }

  /** Every iteration of the generation loop lands on a declared start. */
  lemma LoopStartIsDeclared(s: Schedule, day: int, k: int)
    requires ValidSchedule(s)
    requires 0 <= k && s.start + 30 * k < s.end && Selected(s.days, day)
    ensures Declared(s, SlotStart(s, day, k))
    ensures SlotStart(s, day, k) / DAY == day
  {
    var t := SlotStart(s, day, k);
    var r := s.start * 60_000_000 + k * 1_800_000_000;
    assert t == day * 86_400_000_000 + r && 0 <= r < 86_400_000_000;
    assert t / 86_400_000_000 == day && t % 86_400_000_000 == r;
  }

  /** Every declared start is reached by some iteration of the generation loop. */
  lemma DeclaredIsLoopStart(s: Schedule, t: Instant) returns (day: int, k: int)
    requires ValidSchedule(s) && Declared(s, t)
    ensures day == t / DAY
    ensures 0 <= k && s.start + 30 * k < s.end && Selected(s.days, day)
    ensures t == SlotStart(s, day, k)
  {
    day := t / 86_400_000_000;
    k := (t % 86_400_000_000 - s.start * 60_000_000) / 1_800_000_000;
  }

  /** The declared starts, in numbers: on a listed weekday, a multiple of 30 minutes after opening and before
      closing. */
  lemma DeclaredInMinutes(s: Schedule, t: Instant)
    requires ValidSchedule(s)
    ensures Declared(s, t) <==>
            && IsoWeekday(t / 86_400_000_000) in s.days
            && exists k: nat {:trigger SlotStart(s, t / 86_400_000_000, k)} ::
                 s.start + 30 * k < s.end && t % 86_400_000_000 == (s.start + 30 * k) * 60_000_000
  {
    SelectedIsIsoWeekday(s, t / 86_400_000_000);
    if Declared(s, t) {
      var day, k := DeclaredIsLoopStart(s, t);
      assert SlotStart(s, t / 86_400_000_000, k) == t;
    }
  }

  /** Two declared starts of one schedule are at least one slot apart. */
  lemma DeclaredApart(s: Schedule, t: Instant, u: Instant)
    requires ValidSchedule(s) && Declared(s, t) && Declared(s, u) && t < u
    ensures t + SLOT <= u
  {
    var d, k := DeclaredIsLoopStart(s, t);
    var e, j := DeclaredIsLoopStart(s, u);
    assert u - t == (e - d) * 86_400_000_000 + (j - k) * 1_800_000_000;
  }

  /** The slots of a selected day tile the opening hours: no gap, no overlap and no overhang. */
  lemma DayIsTiled(s: Schedule, day: int, x: Instant)
    requires ValidSchedule(s) && Selected(s.days, day)
    requires day * DAY + s.start * MINUTE <= x < day * DAY + s.end * MINUTE
    ensures exists t :: Declared(s, t) && t <= x < t + SLOT
    ensures forall t :: Declared(s, t) && t <= x < t + SLOT ==>
              day * DAY + s.start * MINUTE <= t && t + SLOT <= day * DAY + s.end * MINUTE
    ensures forall t, u :: Declared(s, t) && t <= x < t + SLOT && Declared(s, u) && u <= x < u + SLOT ==> t == u
  {
    var k := (x - day * 86_400_000_000 - s.start * 60_000_000) / 1_800_000_000;
    assert s.start + 30 * k < s.end;
    LoopStartIsDeclared(s, day, k);
    assert Declared(s, SlotStart(s, day, k)) && SlotStart(s, day, k) <= x < SlotStart(s, day, k) + SLOT;
    forall t | Declared(s, t) && t <= x < t + SLOT
      ensures t == SlotStart(s, day, k)
    {
      if t < SlotStart(s, day, k) {
        DeclaredApart(s, t, SlotStart(s, day, k));
      } else if SlotStart(s, day, k) < t {
        DeclaredApart(s, SlotStart(s, day, k), t);
      }
    }
    WholeSlotsDoNotOverhang(s, k);
  }

  /** Why CreateSchedule insists on a multiple of 30 minutes: the loop's last slot of a day ends at
      closing time exactly when the opening hours are whole slots, and otherwise runs past it. */
  lemma WholeSlotsDoNotOverhang(s: Schedule, k: int)
    requires 0 <= k && s.start < s.end && s.start + 30 * k < s.end
    ensures (s.end - s.start) % 30 == 0 ==> s.start + 30 * (k + 1) <= s.end
    ensures s.end <= s.start + 30 * (k + 1) ==>
              (s.start + 30 * (k + 1) == s.end <==> (s.end - s.start) % 30 == 0)
  {
  }
}
