/** availability-service: schedule creation, the extension worker and the listing of free slots. */
module AvailabilityService {
  import opened Common
  import opened Calendar
  import opened SlotTable
  import opened TimeOfDay
  import opened Platform
  import opened GenerationRuns
  import opened AvailabilityRepository

  /** A CreateSchedule body. */
  datatype ScheduleRequest = ScheduleRequest(id: Option<Id>, room: Id, days: seq<int>, startTime: string,
                                             endTime: string)

  datatype RoomCheck = RoomExists | RoomMissing | RoomServiceDown

  datatype ServiceError = InvalidRequest | RoomNotFound | Conflict | Internal

  /** What goes wrong for one room during a run of the extension worker. */
  datatype RoomFaults = RoomFaults(state: Fault, inserts: seq<Fault>, upsert: Fault)

  predicate AnyFault(f: RoomFaults) {
    f.state != NoFault || f.upsert != NoFault || exists i :: 0 <= i < |f.inserts| && f.inserts[i] != NoFault
  }

  function FaultsOf(faults: map<Id, RoomFaults>, room: Id): RoomFaults {
    if room in faults then faults[room] else RoomFaults(NoFault, [], NoFault)
  }

  /** The body passes every check that CreateSchedule makes before it touches the database. */
  predicate Acceptable(r: ScheduleRequest) {
    && ParseTime(r.startTime).Some? && ParseTime(r.endTime).Some?
    && ValidSchedule(ScheduleOf(r, 0))
  }

  /** The row that the request describes. PostgreSQL is taken to read the two times as parseTime does. */
  function ScheduleOf(r: ScheduleRequest, id: Id): Schedule
    requires ParseTime(r.startTime).Some? && ParseTime(r.endTime).Some?
  {
    Schedule(id, r.room, r.days, ParseTime(r.startTime).value, ParseTime(r.endTime).value)
  }

  /** The room has a schedule, or some schedule has this id. */
  predicate Taken(schedules: map<Id, Schedule>, room: Id, id: Id) {
    room in schedules || exists r :: r in schedules && schedules[r].id == id
  }

  /** What is acceptable and what is stored when the two times are clock times. */
  lemma AcceptsClocks(r: ScheduleRequest)
    ensures forall a, b :: 0 <= a <= 1439 && 0 <= b <= 1439 && r.startTime == Clock(a) && r.endTime == Clock(b) ==>
              && (Acceptable(r) <==>
                  |r.days| > 0 && (forall d :: d in r.days ==> 1 <= d <= 7) && a < b && (b - a) % 30 == 0)
              && ParseTime(r.startTime) == Some(a) && ParseTime(r.endTime) == Some(b)
  {
    hide ParseTime, Clock;
    forall a, b | 0 <= a <= 1439 && 0 <= b <= 1439 && r.startTime == Clock(a) && r.endTime == Clock(b)
      ensures ParseTime(r.startTime) == Some(a) && ParseTime(r.endTime) == Some(b)
    {
      ReadsClock(a);
      ReadsClock(b);
    }
  }

  lemma AcceptableTimes(r: ScheduleRequest)
    ensures Acceptable(r) ==> ParseTime(r.startTime).Some? && ParseTime(r.endTime).Some?
  {
    hide ParseTime;
  }

  lemma AnyIdWillDo(r: ScheduleRequest, id: Id)
    requires Acceptable(r)
    ensures ValidSchedule(ScheduleOf(r, id))
  {
  }

  /** What GET slots/list answers for a day: free, of that day, and strictly in the future. */
  predicate Listed(slots: Slots, room: Id, day: int, now: Instant, id: Id) {
    FreeOn(slots, room, day, id) && now < slots[id].startAt
  }

  /** The daily lists partition the free strictly-future slots: each is in the list of exactly one day. */
  lemma ListsPartition(slots: Slots, room: Id, now: Instant, id: Id, day: int)
    requires id in slots && slots[id].room == room && slots[id].status == Free && now < slots[id].startAt
    ensures Listed(slots, room, day, now, id) <==> day == slots[id].startAt / DAY
  {
    assert day * 86_400_000_000 <= slots[id].startAt < (day + 1) * 86_400_000_000 <==>
           day == slots[id].startAt / 86_400_000_000;
  }

  /** Listing agrees with booking at the same instant: a listed slot would be accepted, and the only slot
      that would be accepted without being listed is one that starts right now. */
  lemma ListedIffBookable(slots: Slots, room: Id, now: Instant, id: Id)
    requires id in slots && slots[id].room == room
    ensures (exists day :: Listed(slots, room, day, now, id)) ==> BookAnswer(slots, id, now).BookOk?
    ensures BookAnswer(slots, id, now).BookOk? ==>
              ((exists day :: Listed(slots, room, day, now, id)) <==> slots[id].startAt != now)
  {
    if slots[id].status == Free && now < slots[id].startAt {
      ListsPartition(slots, room, now, id, slots[id].startAt / DAY);
    }
  }

  class AvailabilityService {
    const repo: AvailabilityRepository
    ghost var sys: State

    /** The tables are those of a platform state that some run has led to, at this instant. */
    ghost predicate Valid(now: Instant)
      reads this, repo
    {
      repo.Valid() && Reachable(sys) && Synced(now)
    }

    ghost predicate Synced(now: Instant)
      reads this, repo
    {
      Tables(sys, now, repo.schedules, repo.slots, repo.marks)
    }

    constructor (repo: AvailabilityRepository, now: Instant, ghost s: State)
      requires repo.Valid() && Reachable(s) && Tables(s, now, repo.schedules, repo.slots, repo.marks)
      ensures Valid(now) && this.repo == repo && sys == s
    {
      this.repo, this.sys := repo, s;
    }

    /** Records the events that a call amounts to. */
    ghost method Follow(es: seq<Event>)
      requires Reachable(sys)
      modifies this`sys
      ensures sys == Run(old(sys), es) && Reachable(sys)
    {
      RunIsReachable(sys, es);
      sys := Run(sys, es);
    }

    /** The validation of CreateSchedule, in its order. */
    method Validate(r: ScheduleRequest) returns (ok: bool)
      ensures ok <==> Acceptable(r)
      ensures ok <==>
              && |r.days| > 0 && (forall d :: d in r.days ==> 1 <= d <= 7)
              && ParseTime(r.startTime).Some? && ParseTime(r.endTime).Some?
              && ParseTime(r.startTime).value < ParseTime(r.endTime).value
              && (ParseTime(r.endTime).value - ParseTime(r.startTime).value) % 30 == 0
      ensures forall a, b :: 0 <= a <= 1439 && 0 <= b <= 1439 && r.startTime == Clock(a) && r.endTime == Clock(b) ==>
                (ok <==> |r.days| > 0 && (forall d :: d in r.days ==> 1 <= d <= 7) && a < b && (b - a) % 30 == 0)
    {
      hide ParseTime, Clock;
      AcceptsClocks(r);
      if |r.days| == 0 {
        return false;
      }
      for i := 0 to |r.days|
        invariant forall d :: d in r.days[..i] ==> 1 <= d <= 7
      {
        if r.days[i] < 1 || r.days[i] > 7 {
          assert r.days[i] in r.days;
          return false;
        }
        assert r.days[..i + 1] == r.days[..i] + [r.days[i]];
      }
      assert r.days[..|r.days|] == r.days;
      var start, end := ParseTime(r.startTime), ParseTime(r.endTime);
      if start.None? || end.None? {
        return false;
      }
      if end.value <= start.value {
        return false;
      }
      return (end.value - start.value) % 30 == 0;
    }

    /** GenerateSlots and, unless it failed, UpsertGenerationState: how both callers end. */
    method GenerateAndMark(s: Schedule, from: int, until: int, now: Instant, inserts: seq<Fault>, upsert: Fault,
                           ghost run: Id, ghost first: GenStep)
      returns (err: bool, ok: bool, ghost es: seq<Event>)
      requires repo.Valid() && Reachable(sys) && s.room in repo.schedules && repo.schedules[s.room] == s
      requires Begins(sys, run, first, GenRun(s.room, until, from, 0), now, repo.schedules, repo.slots, repo.marks)
      modifies repo`slots, repo`nextId, repo`marks, this`sys
      ensures Valid(now) && sys == Run(old(sys), es) && sys.runs == old(sys.runs)
      ensures ExtendedBy(old(repo.slots), repo.slots, s, from * DAY, until * DAY)
      ensures !err ==> Covered(repo.slots, s, from * DAY, until * DAY)
      ensures repo.marks == (if err then old(repo.marks)
                             else Faulty(upsert, old(repo.marks), old(repo.marks)[s.room := until]))
      ensures ok <==> !err && upsert == NoFault
      ensures err ==> exists f :: f in inserts && f != NoFault
    {
      hide AvailabilityRepository.Valid, Covered, ExtendedBy, Reachable, Run, Next, RunIsAt, Begins, Tables;
      ghost var r, slots, marks := GenRun(s.room, until, from, 0), repo.slots, repo.marks;
      BeginsAt(sys, run, first, r, now, repo.schedules, slots, marks);
      var count;
      ghost var path, at;
      count, err, path, at := repo.GenerateSlots(s, from, until, inserts, Next(sys, Gen(run, first)), run);
      ok := false;
      if !err {
        ok := repo.UpsertGenerationState(s.room, until, upsert);
      }
      ghost var marked := !err && upsert != FailBefore;
      es := CallEvents(run, first, path, marked);
      CallIsRun(sys, run, first, r, now, repo.schedules, slots, marks, path, repo.slots, at, marked);
      Follow(es);
    }

    /** CreateSchedule. It stores an acceptable schedule for a room that has none, and fails without any effect
        otherwise; a generation that fails afterwards is left to the worker and never advances the mark. Every call,
        faults included, is a run of the platform. */
    method CreateSchedule(pathRoom: Id, r: ScheduleRequest, check: RoomCheck, newId: Id, now: Instant,
                          insertFault: Fault, genFaults: seq<Fault>, upsertFault: Fault, ghost run: Id)
      returns (res: Result<Schedule, ServiceError>, ghost es: seq<Event>)
      requires Valid(now) && run !in sys.runs
      modifies repo, this`sys
      ensures Valid(now) && sys == Run(old(sys), es) && sys.runs == old(sys.runs)
      ensures var id := if r.id.Some? then r.id.value else newId;
              var taken := Taken(old(repo.schedules), r.room, id);
              var stores := r.room == pathRoom && check == RoomExists && Acceptable(r) && !taken
                            && insertFault != FailBefore;
              && (res.Ok? <==> stores && insertFault == NoFault)
              && (res.Ok? ==> res.value == ScheduleOf(r, id))
              && (stores ==> repo.schedules == old(repo.schedules)[r.room := ScheduleOf(r, id)])
              && (!stores ==> repo.schedules == old(repo.schedules))
              && (res.Err? ==> res.error == if r.room != pathRoom then InvalidRequest
                                            else if check == RoomMissing then RoomNotFound
                                            else if check == RoomServiceDown then Internal
                                            else if !Acceptable(r) then InvalidRequest
                                            else if taken && insertFault != FailBefore then Conflict
                                            else Internal)
      ensures res.Ok? ==>
                && ParseTime(r.startTime).Some? && ParseTime(r.endTime).Some?
                && res.value == Schedule(if r.id.Some? then r.id.value else newId, r.room, r.days,
                                         ParseTime(r.startTime).value, ParseTime(r.endTime).value)
      ensures forall a, b :: 0 <= a <= 1439 && 0 <= b <= 1439 && r.startTime == Clock(a) && r.endTime == Clock(b) ==>
                && (res.Ok? <==>
                    && r.room == pathRoom && check == RoomExists && insertFault == NoFault
                    && |r.days| > 0 && (forall d :: d in r.days ==> 1 <= d <= 7) && a < b && (b - a) % 30 == 0
                    && !Taken(old(repo.schedules), r.room, if r.id.Some? then r.id.value else newId))
                && (res.Ok? ==>
                      && res.value.start == a && res.value.end == b
                      && res.value.days == r.days && res.value.room == r.room)
      ensures res.Ok? && genFaults == [] ==>
                var today := now / 86_400_000_000;
                forall t ::
                  Declared(res.value, t) && today * 86_400_000_000 <= t < (today + 30) * 86_400_000_000 ==>
                  exists id :: id in repo.slots && repo.slots[id].room == res.value.room && repo.slots[id].startAt == t
      ensures res.Err? ==> repo.slots == old(repo.slots) && repo.marks == old(repo.marks)
      ensures res.Ok? ==>
                var today := now / DAY;
                && ExtendedBy(old(repo.slots), repo.slots, res.value, today * DAY, (today + HORIZON) * DAY)
                && (repo.marks == old(repo.marks) || repo.marks == old(repo.marks)[r.room := today + HORIZON])
                && (genFaults == [] ==> Covered(repo.slots, res.value, today * DAY, (today + HORIZON) * DAY))
                && (genFaults == [] && upsertFault == NoFault ==>
                    repo.marks == old(repo.marks)[r.room := today + HORIZON])
    {
      hide AvailabilityRepository.Valid, Covered, ExtendedBy, ParseTime, ValidSchedule, Clock, Declared, Acceptable;
      AcceptsClocks(r);
      AcceptableTimes(r);
      hide Reachable, Run, Next, Tables, Begins, CallEvents, RunIsAt;
      es := [];
      RunNothing(sys);
      if r.room != pathRoom {
        return Err(InvalidRequest), es;
      }
      if check == RoomMissing {
        return Err(RoomNotFound), es;
      }
      if check == RoomServiceDown {
        return Err(Internal), es;
      }
      var valid := Validate(r);
      if !valid {
        return Err(InvalidRequest), es;
      }
      var schedule := ScheduleOf(r, if r.id.Some? then r.id.value else newId);
      AnyIdWillDo(r, schedule.id);
      ghost var schedules, r0 := repo.schedules, GenRun(r.room, now / DAY + HORIZON, now / DAY, 0);
      var created := repo.CreateSchedule(schedule, insertFault);
      if created.Err? {
        if created.error == ScheduleExists {
          return Err(Conflict), es;
        }
        if insertFault == FailAfter {
          PublishBegins(sys, run, schedule, now, schedules, repo.slots, repo.marks);
          BeginsAt(sys, run, Publish(schedule), r0, now, repo.schedules, repo.slots, repo.marks);
          RunNothing(Next(sys, Gen(run, Publish(schedule))));
          es := CallEvents(run, Publish(schedule), [], false);
          CallIsRun(sys, run, Publish(schedule), r0, now, repo.schedules, repo.slots, repo.marks, [], repo.slots, r0,
                    false);
          Follow(es);
        }
        return Err(Internal), es;
      }
      PublishBegins(sys, run, schedule, now, schedules, repo.slots, repo.marks);
      var today := now / DAY;
      var until := today + HORIZON;
      var err, ok;
      err, ok, es := GenerateAndMark(schedule, today, until, now, genFaults, upsertFault, run, Publish(schedule));
      if !err {
        CoveredInNumbers(repo.slots, schedule, today, until);
      }
      return Ok(schedule), es;
    }

    /** One run of the extension worker over every schedule. Rows are only added, the marks keep their promise,
        and the errors count exactly the rooms that failed: every other room ends up covered, and marked, up to the
        horizon, and each of these had a fault. Every call, faults included, is a run of the platform. */
    method ExtendSlots(now: Instant, faults: map<Id, RoomFaults>, ghost run: Id)
      returns (errors: nat, ghost bad: set<Id>, ghost es: seq<Event>)
      requires Valid(now) && run !in sys.runs
      modifies repo, this`sys
      ensures Valid(now) && sys == Run(old(sys), es) && sys.runs == old(sys.runs)
              && repo.schedules == old(repo.schedules)
      ensures forall id :: id in old(repo.slots) ==> id in repo.slots && repo.slots[id] == old(repo.slots[id])
      ensures errors == |bad| && forall room :: room in bad ==> room in repo.schedules
      ensures forall room :: room in repo.schedules && room !in bad ==>
                && Covered(repo.slots, repo.schedules[room], (now / DAY) * DAY, (now / DAY + HORIZON) * DAY)
                && room in repo.marks && now / DAY + HORIZON <= repo.marks[room]
      ensures forall room :: room in repo.schedules && room !in bad ==>
                && room in repo.marks && now / 86_400_000_000 + 30 <= repo.marks[room]
                && forall t ::
                     Declared(repo.schedules[room], t)
                     && now / 86_400_000_000 * 86_400_000_000 <= t < (now / 86_400_000_000 + 30) * 86_400_000_000 ==>
                       exists id :: id in repo.slots && repo.slots[id].room == room && repo.slots[id].startAt == t
      ensures forall room :: room in bad ==> AnyFault(FaultsOf(faults, room))
      ensures forall room :: room in repo.schedules && FaultsOf(faults, room).state != NoFault ==> room in bad
    {
      hide OnGrid, Covered, Reachable, Run, Next, Tables, Begins, Reported, FaultsOf, AnyFault, Declared;
      var schedules := repo.GetAllSchedules();
      var today := now / DAY;
      var target := today + HORIZON;
      errors, bad, es := 0, {}, [];
      assert Reported(schedules, 0, faults, bad, errors) by { NothingReported(schedules, faults); }
      ghost var start := sys;
      RunNothing(sys);
      for i := 0 to |schedules|
        invariant Valid(now) && sys == Run(start, es) && sys.runs == start.runs && repo.schedules == old(repo.schedules)
        invariant forall id :: id in old(repo.slots) ==> id in repo.slots && repo.slots[id] == old(repo.slots[id])
        invariant Reported(schedules, i, faults, bad, errors)
        invariant forall k :: 0 <= k < i && schedules[k].room !in bad ==> Ready(schedules[k].room, today, target)
      {
        var s := schedules[i];
        assert s in schedules;
        var failed, more := ExtendRoom(s, now, today, target, FaultsOf(faults, s.room), run);
        RunConcat(start, es, more);
        es := es + more;
        ReportedStep(schedules, i, faults, bad, errors, failed);
        if failed {
          errors, bad := errors + 1, bad + {s.room};
        }
      }
      ReportedEnd(repo.schedules, schedules, faults, bad, errors);
      forall room | room in repo.schedules && room !in bad
        ensures forall t ::
                  Declared(repo.schedules[room], t) && today * 86_400_000_000 <= t < target * 86_400_000_000 ==>
                  exists id :: id in repo.slots && repo.slots[id].room == room && repo.slots[id].startAt == t
      {
        assert Ready(room, today, target);
        CoveredInNumbers(repo.slots, repo.schedules[room], today, target);
      }
    }

    /** The room's slots and its mark reach the horizon. */
    ghost predicate Ready(room: Id, today: int, target: int)
      reads repo
    {
      && room in repo.schedules
      && Covered(repo.slots, repo.schedules[room], today * DAY, target * DAY)
      && room in repo.marks && target <= repo.marks[room]
    }

    /** The body of ExtendSlots' loop. */
    method ExtendRoom(s: Schedule, now: Instant, today: int, target: int, faults: RoomFaults, ghost run: Id)
      returns (failed: bool, ghost es: seq<Event>)
      requires today == now / DAY && target == today + HORIZON
      requires Valid(now) && run !in sys.runs && s.room in repo.schedules && repo.schedules[s.room] == s
      modifies repo`slots, repo`nextId, repo`marks, this`sys
      ensures Valid(now) && sys == Run(old(sys), es) && sys.runs == old(sys.runs)
      ensures forall id :: id in old(repo.slots) ==> id in repo.slots && repo.slots[id] == old(repo.slots[id])
      ensures !failed ==> Ready(s.room, today, target)
      ensures failed ==> AnyFault(faults)
      ensures faults.state != NoFault ==> failed
      ensures forall room :: old(Ready(room, today, target)) ==> Ready(room, today, target)
    {
      hide AvailabilityRepository.Valid, Covered, Reachable, Run, Next, Tables, Begins;
      es := [];
      RunNothing(sys);
      if s.room in repo.marks {
        MarkIsKept(sys, s.room, now, repo.schedules, repo.slots, repo.marks);
      }
      var state := repo.GetGenerationState(s.room, faults.state);
      if state.Err? {
        return true, es;
      }
      var from := today;
      if state.value.Some? && state.value.value > from {
        from := state.value.value;
      }
      if !(from < target) {
        CoveredUpTo(repo.slots, s, today * DAY, target * DAY, from * DAY);
        return false, es;
      }
      ghost var before := repo.slots;
      ExtendBegins(sys, run, s.room, from, now, repo.schedules, repo.slots, repo.marks);
      var err, ok;
      err, ok, es := GenerateAndMark(s, from, target, now, faults.inserts, faults.upsert, run, Extend(s.room, today));
      failed := err || !ok;
      forall room | old(Ready(room, today, target))
        ensures Ready(room, today, target)
      {
        StillCovers(before, repo.slots, s, from * DAY, target * DAY, repo.schedules[room], today * DAY, target * DAY);
      }
      if !err && from > today {
        StillCovers(before, repo.slots, s, from * DAY, target * DAY, s, today * DAY, from * DAY);
        CoveredJoin(repo.slots, s, today * DAY, from * DAY, target * DAY);
      }
    }

    /** The daily list of free slots, in order of their start. */
    method GetFreeSlots(room: Id, day: Option<int>, check: RoomCheck, now: Instant)
      returns (res: Result<seq<Id>, ServiceError>)
      requires repo.Valid()
      ensures res.Ok? <==> day.Some? && check == RoomExists
      ensures res.Err? ==> res.error == (if day.None? then InvalidRequest
                                          else if check == RoomMissing then RoomNotFound
                                          else Internal)
      ensures res.Ok? ==>
                && Ordered(repo.slots, res.value)
                && (forall id :: id in res.value <==> Listed(repo.slots, room, day.value, now, id))
                && (forall id :: id in res.value <==>
                      && id in repo.slots && repo.slots[id].room == room && repo.slots[id].status == Free
                      && now < repo.slots[id].startAt
                      && day.value * 86_400_000_000 <= repo.slots[id].startAt < (day.value + 1) * 86_400_000_000)
    {
      if day.None? {
        return Err(InvalidRequest);
      }
      if check != RoomExists {
        return if check == RoomMissing then Err(RoomNotFound) else Err(Internal);
      }
      if room !in repo.schedules {
        return Ok([]);
      }
      var ids := repo.GetFreeSlots(room, day.value);
      var filtered := [];
      for i := 0 to |ids|
        invariant forall id :: id in filtered <==> id in ids[..i] && now < repo.slots[id].startAt
        invariant Ordered(repo.slots, filtered)
        invariant forall id, j :: id in filtered && i <= j < |ids| ==>
                  repo.slots[id].startAt < repo.slots[ids[j]].startAt
      {
        assert ids[..i + 1] == ids[..i] + [ids[i]];
        if repo.slots[ids[i]].startAt > now {
          filtered := filtered + [ids[i]];
        }
      }
      assert ids[..|ids|] == ids;
      return Ok(filtered);
    }
  }

  /** After the first n schedules: which rooms are reported as failed. */
  predicate Reported(all: seq<Schedule>, n: nat, faults: map<Id, RoomFaults>, bad: set<Id>, errors: nat)
    requires n <= |all|
  {
    && errors == |bad|
    && (forall room :: room in bad ==> AnyFault(FaultsOf(faults, room)) && AmongFirst(all, n, room))
    && (forall k :: 0 <= k < n && FaultsOf(faults, all[k].room).state != NoFault ==> all[k].room in bad)
  }

  predicate AmongFirst(all: seq<Schedule>, n: nat, room: Id)
    requires n <= |all|
  {
    exists k :: 0 <= k < n && all[k].room == room
  }

  lemma NothingReported(all: seq<Schedule>, faults: map<Id, RoomFaults>)
    ensures Reported(all, 0, faults, {}, 0)
  {
  }

  lemma ReportedStep(all: seq<Schedule>, n: nat, faults: map<Id, RoomFaults>, bad: set<Id>, errors: nat, failed: bool)
    requires n < |all| && Reported(all, n, faults, bad, errors)
    requires forall i, j :: 0 <= i < j < |all| ==> all[i].room != all[j].room
    requires failed ==> AnyFault(FaultsOf(faults, all[n].room))
    requires FaultsOf(faults, all[n].room).state != NoFault ==> failed
    ensures if failed then Reported(all, n + 1, faults, bad + {all[n].room}, errors + 1)
            else Reported(all, n + 1, faults, bad, errors)
  {
    assert all[n].room !in bad;
    forall room | AmongFirst(all, n, room) || room == all[n].room
      ensures AmongFirst(all, n + 1, room)
    {
    }
  }

  lemma ReportedEnd(schedules: map<Id, Schedule>, all: seq<Schedule>, faults: map<Id, RoomFaults>, bad: set<Id>,
                    errors: nat)
    requires Reported(all, |all|, faults, bad, errors)
    requires forall room :: room in schedules ==> schedules[room].room == room
    requires forall s :: s in all <==> s.room in schedules && schedules[s.room] == s
    ensures errors == |bad| && forall room :: room in bad ==> room in schedules && AnyFault(FaultsOf(faults, room))
    ensures forall room :: room in schedules ==> exists k :: 0 <= k < |all| && all[k].room == room
    ensures forall room :: room in schedules && FaultsOf(faults, room).state != NoFault ==> room in bad
  {
    forall room | room in schedules
      ensures exists k :: 0 <= k < |all| && all[k].room == room
    {
      assert schedules[room] in all;
    }
  }

  lemma StillCovers(before: Slots, after: Slots, s: Schedule, lo: Instant, hi: Instant, r: Schedule, a: Instant,
                    b: Instant)
    requires ExtendedBy(before, after, s, lo, hi) && Covered(before, r, a, b)
    ensures Covered(after, r, a, b)
  {
    CoveredGrows(before, after, r, a, b);
  }
}
