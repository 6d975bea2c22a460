/** GenerateSlots and the calls around it as stretches of a platform run. */
module GenerationRuns {
  import opened Common
  import opened Calendar
  import opened SlotTable
  import opened Platform
  import opened GenerationProofs

  /** The platform has gone from start to u by this generation run alone, which now stands at r. */
  predicate RunIsAt(start: State, u: State, run: Id, slots: Slots, r: GenRun) {
    u == start.(slots := slots, runs := start.runs[run := r])
  }

  /** A day that is not selected, or whose slots are all inserted, is one event. */
  lemma DayStep(start: State, es: seq<Event>, run: Id, slots: Slots, r: GenRun, s: Schedule, next: Id)
    requires RunIsAt(start, Run(start, es), run, slots, r) && next !in slots
    requires r.room == s.room && s.room in start.schedules && start.schedules[s.room] == s && r.day < r.target
    requires !AtSlot(s, r)
    ensures RunIsAt(start, Run(start, es + [Gen(run, Advance(next))]), run, slots, r.(day := r.day + 1, k := 0))
  {
    hide Run;
    RunSnoc(start, es, Gen(run, Advance(next)));
    assert start.runs[run := r][run := r.(day := r.day + 1, k := 0)] == start.runs[run := r.(day := r.day + 1, k := 0)];
  }

  /** An insert that no constraint rejects is one event. */
  lemma InsertStep(start: State, es: seq<Event>, run: Id, slots: Slots, r: GenRun, s: Schedule, next: Id)
    requires RunIsAt(start, Run(start, es), run, slots, r) && next !in slots
    requires r.room == s.room && s.room in start.schedules && start.schedules[s.room] == s && r.day < r.target
    requires AtSlot(s, r) && TryInsert(slots, RowAt(s, r)) != Violates
    ensures RunIsAt(start, Run(start, es + [Gen(run, Advance(next))]), run, Insert(slots, next, RowAt(s, r)),
                    r.(k := r.k + 1))
  {
    hide Run, TryInsert, Insert;
    RunSnoc(start, es, Gen(run, Advance(next)));
    assert start.runs[run := r][run := r.(k := r.k + 1)] == start.runs[run := r.(k := r.k + 1)];
  }

  /** The tables of availability_db in a platform state. */
  predicate Tables(u: State, now: Instant, schedules: map<Id, Schedule>, slots: Slots, marks: map<Id, int>) {
    u.now == now && u.schedules == schedules && u.slots == slots && u.marks == marks
  }

  /** The first event of a generation run starts it at r and leaves these tables. */
  predicate Begins(s: State, run: Id, first: GenStep, r: GenRun, now: Instant, schedules: map<Id, Schedule>,
                   slots: Slots, marks: map<Id, int>)
  {
    && run !in s.runs
    && Tables(Next(s, Gen(run, first)), now, schedules, slots, marks)
    && Next(s, Gen(run, first)).runs == s.runs[run := r]
  }

  lemma PublishBegins(s: State, run: Id, sch: Schedule, now: Instant, schedules: map<Id, Schedule>, slots: Slots,
                      marks: map<Id, int>)
    requires run !in s.runs && Tables(s, now, schedules, slots, marks)
    requires ValidSchedule(sch) && sch.room !in schedules
    requires forall room :: room in schedules ==> schedules[room].id != sch.id
    ensures Begins(s, run, Publish(sch), GenRun(sch.room, now / DAY + HORIZON, now / DAY, 0), now,
                   schedules[sch.room := sch], slots, marks)
  {
  }

  lemma ExtendBegins(s: State, run: Id, room: Id, from: int, now: Instant, schedules: map<Id, Schedule>, slots: Slots,
                     marks: map<Id, int>)
    requires run !in s.runs && Tables(s, now, schedules, slots, marks) && room in schedules
    requires from == (if room in marks && marks[room] > now / DAY then marks[room] else now / DAY)
    requires from < now / DAY + HORIZON
    ensures Begins(s, run, Extend(room, now / DAY), GenRun(room, now / DAY + HORIZON, from, 0), now, schedules, slots,
                   marks)
  {
  }

  lemma BeginsAt(s: State, run: Id, first: GenStep, r: GenRun, now: Instant, schedules: map<Id, Schedule>, slots: Slots,
                 marks: map<Id, int>)
    requires Begins(s, run, first, r, now, schedules, slots, marks)
    ensures var start := Next(s, Gen(run, first)); start.schedules == schedules && RunIsAt(start, start, run, slots, r)
  {
    hide Next;
    var start := Next(s, Gen(run, first));
    assert start.runs[run := r] == start.runs;
  }

  /** The events of a call: the first, its inserts, and the mark or an abort. */
  function CallEvents(run: Id, first: GenStep, inserts: seq<Event>, marked: bool): seq<Event> {
    [Gen(run, first)] + inserts + [Gen(run, if marked then Mark else Abort)]
  }

  lemma CallIsRun(s: State, run: Id, first: GenStep, r: GenRun, now: Instant, schedules: map<Id, Schedule>,
                  slots: Slots, marks: map<Id, int>, inserts: seq<Event>, after: Slots, at: GenRun, marked: bool)
    requires Begins(s, run, first, r, now, schedules, slots, marks)
    requires var start := Next(s, Gen(run, first)); RunIsAt(start, Run(start, inserts), run, after, at)
    requires marked ==> at.target <= at.day
    ensures var u := Run(s, CallEvents(run, first, inserts, marked));
            Tables(u, now, schedules, after, if marked then marks[at.room := at.target] else marks) && u.runs == s.runs
  {
    hide Run, Next;
    var last := Gen(run, if marked then Mark else Abort);
    RunThree(s, Gen(run, first), last, last);
    RunConcat(s, [Gen(run, first)], inserts);
    RunSnoc(s, [Gen(run, first)] + inserts, last);
    LastEvent(Run(s, [Gen(run, first)] + inserts), run, at, marked);
    assert s.runs[run := r][run := at] - {run} == s.runs;
  }

  lemma LastEvent(u: State, run: Id, at: GenRun, marked: bool)
    requires run in u.runs && u.runs[run] == at && (marked ==> at.target <= at.day)
    ensures Next(u, Gen(run, if marked then Mark else Abort)) ==
            u.(runs := u.runs - {run}, marks := if marked then u.marks[at.room := at.target] else u.marks)
  {
  }

  /** What the stored mark promises about today's slots. */
  lemma MarkIsKept(s: State, room: Id, now: Instant, schedules: map<Id, Schedule>, slots: Slots, marks: map<Id, int>)
    requires Reachable(s) && Tables(s, now, schedules, slots, marks) && room in marks
    ensures room in schedules && Covered(slots, schedules[room], now / DAY * DAY, marks[room] * DAY)
  {
    ReachableGen(s);
    assert MarkSound(s, room);
  }
}
