/** The two databases, the conference store and every process that touches them, as one transition system.

    Each SQL statement or transaction is one atomic event. An HTTP call is a request that is delivered
    at any later time or never, and a reply that is read or lost. A process may stop between any two
    events, and any number of processes interleave. An event whose guard is false changes nothing, so
    every sequence of events is a run. */
module Platform {
  import opened Common
  import opened Calendar
  import opened SlotTable
  import opened BookingTables
  import opened ConferenceStore

  // ---------- processes ----------

  /** A generation run: the loop variables of GenerateSlots for one room. */
  datatype GenRun = GenRun(room: Id, target: int, day: int, k: nat)

  datatype Call<+R> = InFlight | Answered(reply: R)

  datatype Outcome = Created | Rejected | Compensated | Uncertain | Crashed

  datatype Phase =
    | Reserving               // book request issued
    | Reserved(meta: SlotMeta)  // 200 read, transaction not yet run
    | InDoubt(meta: SlotMeta)   // commit outcome unknown, lookup not yet answered
    | Compensating            // no row, as far as the process knows
    | Ended(outcome: Outcome)

  /** The booking transaction as the database sees it. */
  datatype Tx = NotStarted | Undecided(row: Booking) | Settled

  /** One CreateBooking process. hasty: its lookup answered "not found" while the commit was undecided. */
  datatype CreateProc = CreateProc(slot: Id, user: Id, requested: bool, book: Call<BookReply>,
                                   phase: Phase, tx: Tx, undo: Option<Call<bool>>, hasty: bool)

  datatype CancelPhase = Releasing | Released | CancelEnded(ok: bool)

  /** One CancelBooking process that got past the ownership and status checks. */
  datatype CancelProc = CancelProc(booking: Id, slot: Id, call: Option<Call<bool>>, phase: CancelPhase)

  datatype HandPhase = Claimed | Loaded | Decided(verdict: Verdict) | Over

  /** A job in a worker's hands, with the counter and the time of its claim. */
  datatype Hand = Hand(booking: Id, attempts: nat, claimedAt: Instant, phase: HandPhase)

  datatype State = State(
    now: Instant,
    schedules: map<Id, Schedule>,
    marks: map<Id, int>,
    runs: map<Id, GenRun>,
    slots: Slots,
    db: Db,
    links: map<Id, string>,
    creates: map<Id, CreateProc>,
    cancels: map<Id, CancelProc>,
    hands: map<Id, Hand>)

  function Init(now: Instant): State {
    State(now, map[], map[], map[], map[], Db(map[], map[]), map[], map[], map[], map[])
  }

  // ---------- events ----------

  datatype CommitOutcome = CommitRuns | CommitRejected | CommitUnknown

  datatype CreateStep =
    | BeginCreate(slot: Id, user: Id, requested: bool)
    | DeliverBook(bookFault: Fault)
    | ReadBook
    | Commit(how: CommitOutcome)
    | Settle(applied: bool)
    | Lookup(fails: bool)
    | SendUndo
    | DeliverUndo(undoFault: Fault)
    | ReadUndo
    | GiveUp
    | CrashCreate

  datatype CancelStep =
    | BeginCancel(booking: Id, user: Id)
    | SendRelease
    | DeliverRelease(releaseFault: Fault)
    | ReadRelease
    | MarkCancelled(cancelFault: Fault)
    | StopCancel

  datatype WorkerStep =
    | ClaimJob(booking: Id)
    | Load
    | Ask(askFault: Fault)
    | WriteBack(writeFault: Fault)
    | Drop

  datatype GenStep =
    | Publish(schedule: Schedule)
    | Extend(room: Id, since: int)
    | Advance(slot: Id)
    | Abort
    | Mark

  datatype Event =
    | Tick(elapsed: nat)
    | RestartStore
    | Gen(run: Id, g: GenStep)
    | Cre(id: Id, c: CreateStep)
    | Can(pid: Id, x: CancelStep)
    | Wrk(hid: Id, w: WorkerStep)

  // ---------- transitions ----------

  function Today(s: State): int {
    s.now / DAY
  }

  /** Where ExtendSlots starts: the given day, or the stored mark if that is later. */
  function ExtendFrom(marks: map<Id, int>, room: Id, since: int): int {
    if room in marks && marks[room] > since then marks[room] else since
  }

  predicate MayPublish(s: State, run: Id, sch: Schedule) {
    && run !in s.runs && ValidSchedule(sch) && sch.room !in s.schedules
    && (forall r :: r in s.schedules ==> s.schedules[r].id != sch.id)
  }

  predicate MayExtend(s: State, run: Id, room: Id, since: int) {
    && run !in s.runs && room in s.schedules && since <= Today(s)
    && ExtendFrom(s.marks, room, since) < since + HORIZON
  }

  /** The outer loop of GenerateSlots has a day left, and the id for the next insert is new. */
  predicate MayAdvance(s: State, run: Id, slot: Id) {
    && run in s.runs && slot !in s.slots && s.runs[run].room in s.schedules
    && s.runs[run].day < s.runs[run].target
  }

  /** The inner loop of GenerateSlots is about to insert. */
  predicate AtSlot(sch: Schedule, r: GenRun) {
    Selected(sch.days, r.day) && sch.start + 30 * r.k < sch.end
  }

  function RowAt(sch: Schedule, r: GenRun): Slot {
    FreshSlot(sch, SlotStart(sch, r.day, r.k))
  }

  function GenSlots(s: State, run: Id, g: GenStep): Slots {
    if g.Advance? && MayAdvance(s, run, g.slot) && AtSlot(s.schedules[s.runs[run].room], s.runs[run])
    then Insert(s.slots, g.slot, RowAt(s.schedules[s.runs[run].room], s.runs[run]))
    else s.slots
  }

  function GenRuns(s: State, run: Id, g: GenStep): map<Id, GenRun> {
    match g
    case Publish(sch) =>
      if MayPublish(s, run, sch) then s.runs[run := GenRun(sch.room, Today(s) + HORIZON, Today(s), 0)] else s.runs
    case Extend(room, since) =>
      if MayExtend(s, run, room, since)
      then s.runs[run := GenRun(room, since + HORIZON, ExtendFrom(s.marks, room, since), 0)]
      else s.runs
    case Advance(slot) =>
      if !MayAdvance(s, run, slot) then s.runs
      else
        var r := s.runs[run];
        var sch := s.schedules[r.room];
        if !AtSlot(sch, r) then s.runs[run := r.(day := r.day + 1, k := 0)]
        else if TryInsert(s.slots, RowAt(sch, r)) == Violates then s.runs - {run}
        else s.runs[run := r.(k := r.k + 1)]
    case Abort => s.runs - {run}
    case Mark => if run in s.runs && s.runs[run].day >= s.runs[run].target then s.runs - {run} else s.runs
  }

  function NextGen(s: State, run: Id, g: GenStep): State {
    s.(schedules := if g.Publish? && MayPublish(s, run, g.schedule) then s.schedules[g.schedule.room := g.schedule]
                    else s.schedules,
       marks := if g.Mark? && run in s.runs && s.runs[run].day >= s.runs[run].target
                then s.marks[s.runs[run].room := s.runs[run].target]
                else s.marks,
       runs := GenRuns(s, run, g),
       slots := GenSlots(s, run, g))
  }

  /** The process's own next state: its program counter and what it has sent and read. */
  function CreateNext(s: State, id: Id, p: CreateProc, c: CreateStep): CreateProc {
    match c
    case BeginCreate(_, _, _) => p
    case DeliverBook(fault) =>
      if p.book.InFlight? then p.(book := Answered(FaultyAnswer(fault, BookAnswer(s.slots, p.slot, s.now)))) else p
    case ReadBook =>
      if p.phase.Reserving? && p.book.Answered? then
        p.(phase := match p.book.reply
                    case BookOk(meta) => Reserved(meta)
                    case BookError => Ended(Uncertain)
                    case _ => Ended(Rejected))
      else p
    case Commit(how) =>
      if !p.phase.Reserved? then p
      else
        var row := NewBooking(p.phase.meta, p.user, p.requested);
        (match how
         case CommitRuns => p.(phase := if CanCreate(s.db, id, row) then Ended(Created) else Compensating,
                               tx := Settled)
         case CommitRejected => p.(phase := Compensating, tx := Settled)
         case CommitUnknown => p.(phase := InDoubt(p.phase.meta), tx := Undecided(row)))
    case Settle(_) => if p.tx.Undecided? then p.(tx := Settled) else p
    case Lookup(fails) =>
      if !p.phase.InDoubt? then p
      else if fails then p.(phase := Ended(Uncertain))
      else if id in s.db.bookings then p.(phase := Ended(Created))
      else p.(phase := Compensating, hasty := p.tx.Undecided?)
    case SendUndo => if p.phase.Compensating? && p.undo.None? then p.(undo := Some(InFlight)) else p
    case DeliverUndo(fault) => if p.undo == Some(InFlight) then p.(undo := Some(Answered(fault == NoFault))) else p
    case ReadUndo =>
      if p.phase.Compensating? && p.undo.Some? && p.undo.value.Answered?
      then p.(phase := Ended(if p.undo.value.reply then Compensated else Uncertain))
      else p
    case GiveUp =>
      if p.phase.Reserving? || (p.phase.Compensating? && p.undo.Some?) then p.(phase := Ended(Uncertain)) else p
    case CrashCreate => if p.phase.Ended? then p else p.(phase := Ended(Crashed))
  }

  /** The two requests of a creation that reach the slots table. */
  function CreateSlots(s: State, id: Id, p: CreateProc, c: CreateStep): Slots {
    match c
    case DeliverBook(fault) =>
      if p.book.InFlight? then Faulty(fault, s.slots, Book(s.slots, p.slot, id, s.now)) else s.slots
    case DeliverUndo(fault) =>
      if p.undo == Some(InFlight) then Faulty(fault, s.slots, Release(s.slots, p.slot, id)) else s.slots
    case _ => s.slots
  }

  /** The two moments at which the booking transaction can take effect. */
  function CreateDb(s: State, id: Id, p: CreateProc, c: CreateStep): Db {
    if c == Commit(CommitRuns) && p.phase.Reserved? then
      Create(s.db, id, NewBooking(p.phase.meta, p.user, p.requested), s.now)
    else if c == Settle(true) && p.tx.Undecided? then Create(s.db, id, p.tx.row, s.now)
    else s.db
  }

  function NextCreate(s: State, id: Id, c: CreateStep): State {
    if id in s.creates then
      var p := s.creates[id];
      s.(slots := CreateSlots(s, id, p, c), db := CreateDb(s, id, p, c),
         creates := s.creates[id := CreateNext(s, id, p, c)])
    else if c.BeginCreate? then
      s.(creates := s.creates[id := CreateProc(c.slot, c.user, c.requested, InFlight, Reserving, NotStarted, None,
                                               false)])
    else s
  }

  function CancelNext(p: CancelProc, x: CancelStep): CancelProc {
    match x
    case BeginCancel(_, _) => p
    case SendRelease => if p.phase.Releasing? && p.call.None? then p.(call := Some(InFlight)) else p
    case DeliverRelease(fault) => if p.call == Some(InFlight) then p.(call := Some(Answered(fault == NoFault))) else p
    case ReadRelease =>
      if p.phase.Releasing? && p.call.Some? && p.call.value.Answered?
      then p.(phase := if p.call.value.reply then Released else CancelEnded(false))
      else p
    case MarkCancelled(fault) => if p.phase.Released? then p.(phase := CancelEnded(fault == NoFault)) else p
    case StopCancel => if p.phase.CancelEnded? then p else p.(phase := CancelEnded(false))
  }

  function CancelSlots(slots: Slots, p: CancelProc, x: CancelStep): Slots {
    if x.DeliverRelease? && p.call == Some(InFlight)
    then Faulty(x.releaseFault, slots, Release(slots, p.slot, p.booking))
    else slots
  }

  function CancelDb(db: Db, p: CancelProc, x: CancelStep, now: Instant): Db {
    if x.MarkCancelled? && p.phase.Released? then Faulty(x.cancelFault, db, Cancel(db, p.booking, now)) else db
  }

  /** GetByID and the checks before the release: the row exists, is the caller's and is active. */
  predicate MayCancel(db: Db, booking: Id, user: Id) {
    booking in db.bookings && db.bookings[booking].user == user && db.bookings[booking].status == Active
  }

  function NextCancel(s: State, pid: Id, x: CancelStep): State {
    if pid in s.cancels then
      var p := s.cancels[pid];
      s.(slots := CancelSlots(s.slots, p, x), db := CancelDb(s.db, p, x, s.now),
         cancels := s.cancels[pid := CancelNext(p, x)])
    else if x.BeginCancel? && MayCancel(s.db, x.booking, x.user) then
      s.(cancels := s.cancels[pid := CancelProc(x.booking, s.db.bookings[x.booking].slot, None, Releasing)])
    else s
  }

  function StoreLink(links: map<Id, string>, id: Id): map<Id, string> {
    if id in links then links else links[id := LinkFor(id)]
  }

  function HandNext(s: State, h: Hand, w: WorkerStep): Hand {
    match w
    case ClaimJob(_) => h
    case Load =>
      if h.phase.Claimed? && h.booking in s.db.bookings
      then h.(phase := if s.db.bookings[h.booking].status == Cancelled then Decided(BookingCancelled) else Loaded)
      else h
    case Ask(fault) =>
      if h.phase.Loaded?
      then h.(phase := Decided(if fault == NoFault then LinkReady(StoreLink(s.links, h.booking)[h.booking])
                               else CallFailed(s.now)))
      else h
    case WriteBack(fault) => if h.phase.Decided? then h.(phase := Over) else h
    case Drop => h.(phase := Over)
  }

  function HandLinks(s: State, h: Hand, w: WorkerStep): map<Id, string> {
    if w.Ask? && h.phase.Loaded? then Faulty(w.askFault, s.links, StoreLink(s.links, h.booking)) else s.links
  }

  function HandDb(s: State, h: Hand, w: WorkerStep): Db {
    if w.WriteBack? && h.phase.Decided?
    then Faulty(w.writeFault, s.db, Apply(s.db, h.booking, WriteFor(h.phase.verdict, h.attempts)))
    else s.db
  }

  predicate MayClaim(db: Db, booking: Id, now: Instant) {
    booking in db.jobs && Claimable(db.jobs[booking], now, LEASE)
  }

  function NextWorker(s: State, hid: Id, w: WorkerStep): State {
    if hid in s.hands then
      var h := s.hands[hid];
      s.(db := HandDb(s, h, w), links := HandLinks(s, h, w), hands := s.hands[hid := HandNext(s, h, w)])
    else if w.ClaimJob? && MayClaim(s.db, w.booking, s.now) then
      s.(db := Claim(s.db, w.booking, s.now),
         hands := s.hands[hid := Hand(w.booking, s.db.jobs[w.booking].attempts, s.now, Claimed)])
    else s
  }

  function Next(s: State, e: Event): State {
    match e
    case Tick(dt) => s.(now := s.now + dt)
    case RestartStore => s.(links := map[])
    case Gen(run, g) => NextGen(s, run, g)
    case Cre(id, c) => NextCreate(s, id, c)
    case Can(pid, x) => NextCancel(s, pid, x)
    case Wrk(hid, w) => NextWorker(s, hid, w)
  }

  function Run(s: State, es: seq<Event>): State {
    if es == [] then s else Next(Run(s, es[..|es| - 1]), es[|es| - 1])
  }

  // ---------- what each process leaves alone ----------

  lemma GenFrame(s: State, run: Id, g: GenStep)
    ensures var t := NextGen(s, run, g);
            t.db == s.db && t.creates == s.creates && t.cancels == s.cancels && t.hands == s.hands
  {
    hide GenSlots, GenRuns, MayPublish;
  }

  lemma CreateFrame(s: State, id: Id, c: CreateStep)
    ensures var t := NextCreate(s, id, c);
            && t.now == s.now && t.schedules == s.schedules && t.marks == s.marks && t.runs == s.runs
            && t.links == s.links && t.cancels == s.cancels && t.hands == s.hands
  {
    if id in s.creates {
    }
  }

  lemma CancelFrame(s: State, pid: Id, x: CancelStep)
    ensures var t := NextCancel(s, pid, x);
            && t.now == s.now && t.schedules == s.schedules && t.marks == s.marks && t.runs == s.runs
            && t.links == s.links && t.creates == s.creates && t.hands == s.hands
  {
    hide CancelSlots, CancelDb, CancelNext;
    if pid in s.cancels {
    }
  }

  lemma CancelTables(s: State, pid: Id, x: CancelStep)
    ensures NextCancel(s, pid, x).db == if pid in s.cancels then CancelDb(s.db, s.cancels[pid], x, s.now) else s.db
  {
    hide CancelDb, CancelSlots, CancelNext, MayCancel;
  }

  lemma WorkerFrame(s: State, hid: Id, w: WorkerStep)
    ensures var t := NextWorker(s, hid, w);
            && t.now == s.now && t.schedules == s.schedules && t.marks == s.marks && t.runs == s.runs
            && t.slots == s.slots && t.creates == s.creates && t.cancels == s.cancels
  {
    if hid in s.hands {
    }
  }

  lemma RunSnoc(s: State, es: seq<Event>, e: Event)
    ensures Run(s, es + [e]) == Next(Run(s, es), e)
  {
    assert (es + [e])[..|es|] == es;
  }

  lemma {:induction false} RunConcat(s: State, a: seq<Event>, b: seq<Event>)
    ensures Run(s, a + b) == Run(Run(s, a), b)
    decreases |b|
  {
    if b == [] {
      assert a + b == a;
    } else {
      RunConcat(s, a, b[..|b| - 1]);
      assert a + b == (a + b[..|b| - 1]) + [b[|b| - 1]];
      RunSnoc(s, a + b[..|b| - 1], b[|b| - 1]);
    }
  }

  lemma RunNothing(s: State)
    ensures Run(s, []) == s
  {
  }

  lemma RunTwo(s: State, a: Event, b: Event)
    ensures Run(s, [a, b]) == Next(Next(s, a), b)
  {
    hide Next;
    RunNothing(s);
    RunSnoc(s, [], a);
    RunSnoc(s, [a], b);
    assert [] + [a] == [a] && [a] + [b] == [a, b];
  }

  lemma RunThree(s: State, a: Event, b: Event, c: Event)
    ensures Run(s, [a, b, c]) == Next(Next(Next(s, a), b), c)
    ensures Run(s, [a]) == Next(s, a)
  {
    hide Next;
    RunNothing(s);
    RunSnoc(s, [], a);
    RunSnoc(s, [a], b);
    RunSnoc(s, [a, b], c);
    assert [] + [a] == [a] && [a] + [b] == [a, b] && [a, b] + [c] == [a, b, c];
  }

  /** One more event of a given sequence. */
  lemma Unroll(s: State, es: seq<Event>, n: nat)
    requires n < |es|
    ensures Run(s, es[..n + 1]) == Next(Run(s, es[..n]), es[n])
    ensures es[..0] == [] && Run(s, []) == s
  {
    assert es[..n + 1] == es[..n] + [es[n]];
    RunSnoc(s, es[..n], es[n]);
  }

  /** Some events lead from s to t. */
  ghost predicate Later(s: State, t: State) {
    exists es: seq<Event> :: t == Run(s, es)
  }

  /** Some run of the platform, from empty tables, ends in this state. */
  ghost predicate Reachable(s: State) {
    exists now: Instant, es: seq<Event> :: s == Run(Init(now), es)
  }

  lemma RunIsReachable(s: State, es: seq<Event>)
    requires Reachable(s)
    ensures Reachable(Run(s, es))
  {
    var now: Instant, before: seq<Event> :| s == Run(Init(now), before);
    RunConcat(Init(now), before, es);
  }
}
