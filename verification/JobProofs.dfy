/** The conference job queue under any number of concurrent, stale and crashing workers. */
module JobProofs {
  import opened Common
  import opened SlotTable
  import opened BookingTables
  import opened ConferenceStore
  import opened Platform
  import opened SagaProofs

  /** Booking and job agree; a cancelled booking shows no conference at all. */
  predicate RowAgrees(id: Id, b: Booking, jobs: map<Id, Job>) {
    && (b.requested <==> id in jobs)
    && (b.status == Cancelled || !b.requested ==> b.conf == NotRequested && b.link == None)
    && (b.status == Active && b.requested ==>
          match jobs[id].status
          case JobPending => b.conf == Pending && b.link == None
          case JobProcessing => b.conf == Pending && b.link == None
          case JobDone => b.conf == Ready && b.link == Some(LinkFor(id))
          case JobFailed => b.conf == Failed && b.link == None)
  }

  predicate AttemptsOk(j: Job) {
    && (Unfinished(j) ==> j.attempts <= 4)
    && (j.status == JobFailed ==> j.attempts == 5)
    && (j.status == JobDone ==> j.attempts <= 5)
    && (j.status == JobProcessing <==> j.lockedAt.Some?)
  }

  /** What a worker knows is old, but never wrong about a cancellation or a link. */
  predicate HandOk(db: Db, h: Hand) {
    && h.booking in db.jobs
    && h.attempts <= 4
    && (h.phase == Decided(BookingCancelled) ==>
          h.booking in db.bookings && db.bookings[h.booking].status == Cancelled)
    && (h.phase.Decided? && h.phase.verdict.LinkReady? ==> h.phase.verdict.link == LinkFor(h.booking))
  }

  ghost predicate DbOk(db: Db) {
    && (forall id :: id in db.bookings ==> RowAgrees(id, db.bookings[id], db.jobs))
    && (forall id :: id in db.jobs ==> id in db.bookings && AttemptsOk(db.jobs[id]))
  }

  ghost predicate JobInv(s: State) {
    && Derived(s.links)
    && DbOk(s.db)
    && (forall hid :: hid in s.hands ==> HandOk(s.db, s.hands[hid]))
  }

  /** Rows and jobs only accumulate, and a cancelled row stays cancelled. */
  ghost predicate DbGrows(a: Db, b: Db) {
    && a.bookings.Keys <= b.bookings.Keys && a.jobs.Keys <= b.jobs.Keys
    && (forall id {:trigger b.bookings[id]} :: id in a.bookings && a.bookings[id].status == Cancelled ==>
          b.bookings[id].status == Cancelled)
  }

  /** A worker's write touches one booking and its job, and leaves them in agreement. */
  lemma WriteKeepsAgreement(db: Db, id: Id, v: Verdict, attempts: nat)
    requires id in db.jobs ==> id in db.bookings && RowAgrees(id, db.bookings[id], db.jobs) && AttemptsOk(db.jobs[id])
    requires attempts <= 4
    requires v == BookingCancelled ==> id in db.bookings && db.bookings[id].status == Cancelled
    requires v.LinkReady? ==> v.link == LinkFor(id)
    ensures var after := Apply(db, id, WriteFor(v, attempts));
            && DbGrows(db, after)
            && after.bookings.Keys == db.bookings.Keys && after.jobs.Keys == db.jobs.Keys
            && (forall k :: k in db.bookings && k != id ==> after.bookings[k] == db.bookings[k])
            && (forall k :: k in db.jobs && k != id ==> after.jobs[k] == db.jobs[k])
            && (id in db.jobs ==> RowAgrees(id, after.bookings[id], after.jobs) && AttemptsOk(after.jobs[id]))
            && (id !in db.jobs ==> after == db)
  {
  }

  /** What a worker knows stays right while other processes move on. */
  lemma HandsStay(a: Db, b: Db, h: Hand)
    requires HandOk(a, h) && DbGrows(a, b)
    ensures HandOk(b, h)
  {
  }

  lemma HandDbStep(s: State, h: Hand, w: WorkerStep)
    requires DbOk(s.db) && HandOk(s.db, h)
    ensures DbOk(HandDb(s, h, w)) && DbGrows(s.db, HandDb(s, h, w))
  {
    hide WriteFor;
    if w.WriteBack? && h.phase.Decided? {
      WriteKeepsAgreement(s.db, h.booking, h.phase.verdict, h.attempts);
    }
  }

  lemma HandStep(s: State, h: Hand, w: WorkerStep)
    requires JobInv(s) && HandOk(s.db, h)
    ensures HandOk(s.db, HandNext(s, h, w)) && Derived(HandLinks(s, h, w))
  {
  }

  lemma ClaimStep(db: Db, id: Id, now: Instant)
    requires DbOk(db) && MayClaim(db, id, now)
    ensures DbOk(Claim(db, id, now)) && DbGrows(db, Claim(db, id, now)) && db.jobs[id].attempts <= 4
    ensures id in Claim(db, id, now).jobs
  {
    var after := Claim(db, id, now);
    assert after.bookings == db.bookings && after.jobs.Keys == db.jobs.Keys;
    assert forall k :: k in db.jobs && k != id ==> after.jobs[k] == db.jobs[k];
    assert RowAgrees(id, db.bookings[id], db.jobs);
  }

  lemma NewHand(db: Db, booking: Id, attempts: nat, now: Instant)
    requires booking in db.jobs && attempts <= 4
    ensures HandOk(db, Hand(booking, attempts, now, Claimed))
  {
  }

  lemma DbStays(db: Db)
    ensures DbGrows(db, db)
  {
  }

  lemma WorkerStepKeeps(s: State, hid: Id, w: WorkerStep)
    requires JobInv(s)
    ensures JobInv(NextWorker(s, hid, w)) && DbGrows(s.db, NextWorker(s, hid, w).db)
  {
    hide HandNext, HandDb, HandLinks, DbOk, HandOk, Derived;
    var t := NextWorker(s, hid, w);
    if hid in s.hands {
      HandDbStep(s, s.hands[hid], w);
      HandStep(s, s.hands[hid], w);
    } else if w.ClaimJob? && MayClaim(s.db, w.booking, s.now) {
      ClaimStep(s.db, w.booking, s.now);
      NewHand(t.db, w.booking, s.db.jobs[w.booking].attempts, s.now);
    } else {
      DbStays(s.db);
    }
    forall k | k in t.hands
      ensures HandOk(t.db, t.hands[k])
    {
      if k == hid {
        if hid in s.hands {
          HandsStay(s.db, t.db, HandNext(s, s.hands[hid], w));
        }
      } else {
        HandsStay(s.db, t.db, s.hands[k]);
      }
    }
  }

  lemma CreateInserts(db: Db, id: Id, meta: SlotMeta, user: Id, requested: bool, now: Instant)
    requires DbOk(db)
    ensures var after := Create(db, id, NewBooking(meta, user, requested), now); DbOk(after) && DbGrows(db, after)
  {
  }

  lemma CancelUpdates(db: Db, id: Id, now: Instant)
    requires DbOk(db)
    ensures DbOk(Cancel(db, id, now)) && DbGrows(db, Cancel(db, id, now))
  {
    if id in db.bookings {
      assert RowAgrees(id, db.bookings[id], db.jobs);
    }
  }

  lemma CreateDbStep(s: State, id: Id, p: CreateProc, c: CreateStep)
    requires DbOk(s.db) && PhaseOk(p)
    ensures DbOk(CreateDb(s, id, p, c)) && DbGrows(s.db, CreateDb(s, id, p, c))
  {
    if p.phase.Reserved? {
      CreateInserts(s.db, id, p.phase.meta, p.user, p.requested, s.now);
    }
    if p.tx.Undecided? {
      CreateInserts(s.db, id, p.book.reply.meta, p.user, p.requested, s.now);
    }
  }

  lemma CreateStepKeepsJobs(s: State, id: Id, c: CreateStep)
    requires SagaInv(s) && JobInv(s)
    ensures JobInv(NextCreate(s, id, c)) && DbGrows(s.db, NextCreate(s, id, c).db)
  {
    if id in s.creates {
      CreateDbStep(s, id, s.creates[id], c);
      AllHandsStay(s, NextCreate(s, id, c));
    }
  }

  lemma CancelStepKeepsJobs(s: State, pid: Id, x: CancelStep)
    requires JobInv(s)
    ensures JobInv(NextCancel(s, pid, x)) && DbGrows(s.db, NextCancel(s, pid, x).db)
  {
    hide NextCancel, DbOk, DbGrows, HandOk, Cancel;
    CancelTables(s, pid, x);
    CancelFrame(s, pid, x);
    DbStays(s.db);
    if pid in s.cancels {
      CancelUpdates(s.db, s.cancels[pid].booking, s.now);
    }
    AllHandsStay(s, NextCancel(s, pid, x));
  }

  lemma NextKeepsJobs(s: State, e: Event)
    requires SagaInv(s) && JobInv(s)
    ensures JobInv(Next(s, e)) && DbGrows(s.db, Next(s, e).db)
  {
    hide NextWorker, NextCreate, NextCancel;
    match e
    case Wrk(hid, w) => WorkerStepKeeps(s, hid, w);
    case Cre(id, c) => CreateStepKeepsJobs(s, id, c);
    case Can(pid, x) => CancelStepKeepsJobs(s, pid, x);
    case _ => assert Next(s, e).db == s.db && Next(s, e).hands == s.hands;
  }

  lemma AllHandsStay(s: State, t: State)
    requires JobInv(s) && DbGrows(s.db, t.db) && t.hands == s.hands
    ensures forall hid :: hid in t.hands ==> HandOk(t.db, t.hands[hid])
  {
    forall hid | hid in t.hands
      ensures HandOk(t.db, t.hands[hid])
    {
      HandsStay(s.db, t.db, s.hands[hid]);
    }
  }

  // ---------- what one event can do to one job ----------

  /** This event is a claim of this job, and it succeeds. */
  predicate Claims(s: State, e: Event, id: Id) {
    e.Wrk? && e.w == ClaimJob(id) && e.hid !in s.hands && MayClaim(s.db, id, s.now)
  }

  /** This event is a worker's write to this job, and it takes effect. */
  predicate Writes(s: State, e: Event, id: Id) {
    && e.Wrk? && e.w.WriteBack? && e.w.writeFault != FailBefore && e.hid in s.hands
    && s.hands[e.hid].booking == id && s.hands[e.hid].phase.Decided? && Writable(s.db, id)
  }

  function Written(s: State, e: Event, id: Id): Db
    requires Writes(s, e, id)
  {
    Apply(s.db, id, WriteFor(s.hands[e.hid].phase.verdict, s.hands[e.hid].attempts))
  }

  /** A job is created pending; afterwards it changes only by a claim or by a worker's write. */
  lemma JobEffect(s: State, e: Event, id: Id)
    ensures var t := Next(s, e);
            && (id in s.db.jobs ==>
                  && id in t.db.jobs
                  && (t.db.jobs[id] == s.db.jobs[id]
                      || (Claims(s, e, id) && t.db.jobs[id] == Lock(s.db.jobs[id], s.now))
                      || (Writes(s, e, id) && t.db == Written(s, e, id))))
            && (id !in s.db.jobs && id in t.db.jobs ==> t.db.jobs[id] == Job(JobPending, 0, None, None, s.now))
  {
    hide NextWorker, NextCreate, NextCancel, Written, Writes, Claims;
    match e
    case Wrk(hid, w) => WorkerEffect(s, hid, w, id);
    case Cre(cid, c) => CreateEffect(s, cid, c, id);
    case Can(pid, x) => CancelTouchesNoJob(s, pid, x);
    case _ => assert Next(s, e).db == s.db;
  }

  lemma CancelTouchesNoJob(s: State, pid: Id, x: CancelStep)
    ensures NextCancel(s, pid, x).db.jobs == s.db.jobs
  {
    hide NextCancel, CancelRow;
    CancelTables(s, pid, x);
  }

  lemma WritesTakeEffect(s: State, e: Event, id: Id)
    requires Writes(s, e, id)
    ensures Next(s, e).db == Written(s, e, id)
  {
    hide HandNext, HandLinks, WriteFor, Apply;
  }

  lemma WorkerEffect(s: State, hid: Id, w: WorkerStep, id: Id)
    ensures var t, e := NextWorker(s, hid, w), Wrk(hid, w);
            && (id in s.db.jobs <==> id in t.db.jobs)
            && (id in s.db.jobs ==>
                  || t.db.jobs[id] == s.db.jobs[id]
                  || (Claims(s, e, id) && t.db.jobs[id] == Lock(s.db.jobs[id], s.now))
                  || (Writes(s, e, id) && t.db == Written(s, e, id)))
  {
    hide HandNext, HandLinks, WriteFor, Apply;
    if hid in s.hands {
      var h := s.hands[hid];
      if w.WriteBack? && h.phase.Decided? {
        WriteEffect(s.db, h.booking, h.phase, h.attempts, id);
      } else {
        assert NextWorker(s, hid, w).db == s.db;
      }
    }
  }

  lemma WriteEffect(db: Db, booking: Id, phase: HandPhase, attempts: nat, id: Id)
    ensures phase.Decided? ==>
              var after := Apply(db, booking, WriteFor(phase.verdict, attempts));
              && (id in db.jobs <==> id in after.jobs)
              && (id in db.jobs && (id != booking || !Writable(db, id)) ==> after.jobs[id] == db.jobs[id])
  {
  }

  lemma CreateEffect(s: State, cid: Id, c: CreateStep, id: Id)
    ensures var t := NextCreate(s, cid, c);
            && (id in s.db.jobs ==> id in t.db.jobs && t.db.jobs[id] == s.db.jobs[id])
            && (id !in s.db.jobs && id in t.db.jobs ==> t.db.jobs[id] == Job(JobPending, 0, None, None, s.now))
  {
  }

  lemma {:induction false} RunKeepsJobs(s: State, es: seq<Event>)
    requires SagaInv(s) && JobInv(s)
    ensures SagaInv(Run(s, es)) && JobInv(Run(s, es)) && DbGrows(s.db, Run(s, es).db)
    decreases |es|
  {
    if es != [] {
      RunKeepsJobs(s, es[..|es| - 1]);
      NextKeepsSaga(Run(s, es[..|es| - 1]), es[|es| - 1]);
      NextKeepsJobs(Run(s, es[..|es| - 1]), es[|es| - 1]);
    }
  }

  lemma ReachableJobs(s: State)
    requires Reachable(s)
    ensures SagaInv(s) && JobInv(s)
  {
    var now: Instant, es: seq<Event> :| s == Run(Init(now), es);
    RunKeepsJobs(Init(now), es);
  }

  // ---------- main results ----------

  /** Job/booking agreement in every reachable state, with any number of stale or concurrent workers. */
  lemma JobsAgreeWithBookings(s: State, id: Id)
    requires Reachable(s) && id in s.db.bookings
    ensures var b := s.db.bookings[id];
            && (b.requested <==> id in s.db.jobs)
            && (b.status == Active && b.requested ==>
                  var j := s.db.jobs[id];
                  && (b.conf == Pending <==> j.status == JobPending || j.status == JobProcessing)
                  && (b.conf == Ready && b.link.Some? <==> j.status == JobDone)
                  && (b.conf == Failed <==> j.status == JobFailed)
                  && (b.link.Some? ==> b.conf == Ready && b.link == Some(LinkFor(id))))
  {
    ReachableJobs(s);
    assert RowAgrees(id, s.db.bookings[id], s.db.jobs);
  }

  /** Cancellation is final, whatever complete, fail, reschedule or discard steps are still in flight. */
  lemma CancellationIsFinal(s: State, t: State, id: Id)
    requires Reachable(s) && Later(s, t) && id in s.db.bookings && s.db.bookings[id].status == Cancelled
    ensures id in t.db.bookings && t.db.bookings[id].status == Cancelled
    ensures t.db.bookings[id].link == None && t.db.bookings[id].conf == NotRequested
  {
    ReachableJobs(s);
    var more :| t == Run(s, more);
    RunKeepsJobs(s, more);
  }

  /** Attempt bounds, even though a stale worker may write back an old counter. */
  lemma AttemptsAreBounded(s: State, id: Id)
    requires Reachable(s) && id in s.db.jobs
    ensures var j := s.db.jobs[id];
            && (Unfinished(j) ==> j.attempts <= 4)
            && (j.status == JobFailed ==> j.attempts == MAX_ATTEMPTS)
            && j.attempts <= MAX_ATTEMPTS
  {
    ReachableJobs(s);
    assert AttemptsOk(s.db.jobs[id]);
  }

  /** 2, 4, 8 or 16 seconds. */
  function RetryDelay(attempts: nat): int {
    match attempts
    case 1 => 2 * SECOND
    case 2 => 4 * SECOND
    case 3 => 8 * SECOND
    case _ => 16 * SECOND
  }

  /** From a counter below five: a failed call sends the job back while attempts remain, 2, 4, 8 or 16 seconds
      after the failure; everything else finishes it. */
  lemma WriteBacksOff(db: Db, id: Id, v: Verdict, attempts: nat)
    requires Writable(db, id) && attempts <= 4
    ensures var j := Apply(db, id, WriteFor(v, attempts)).jobs[id];
            && (Unfinished(j) <==> v.CallFailed? && attempts <= 3)
            && (Unfinished(j) ==>
                  j.attempts == attempts + 1 && j.nextRetry == Some(v.at + RetryDelay(j.attempts)))
  {
    assert Pow2(1) == 2 && Pow2(2) == 4 && Pow2(3) == 8 && Pow2(4) == 16;
  }

  /** Every write that sends a job back to the queue does so 2, 4, 8 or 16 seconds after the call failed. */
  lemma BackoffIsBounded(s: State, e: Event, id: Id)
    requires Reachable(s) && Writes(s, e, id) && id in Next(s, e).db.jobs && Unfinished(Next(s, e).db.jobs[id])
    ensures var j, v := Next(s, e).db.jobs[id], s.hands[e.hid].phase.verdict;
            v.CallFailed? && 1 <= j.attempts <= 4 && j.nextRetry == Some(v.at + RetryDelay(j.attempts))
  {
    hide Next, Run, Reachable, Apply, WriteFor, JobInv, SagaInv, Writable;
    ReachableJobs(s);
    HeldAttempts(s, e.hid);
    WritesTakeEffect(s, e, id);
    WriteBacksOff(s.db, id, s.hands[e.hid].phase.verdict, s.hands[e.hid].attempts);
  }

  lemma HeldAttempts(s: State, hid: Id)
    requires JobInv(s) && hid in s.hands
    ensures s.hands[hid].attempts <= 4
  {
    assert HandOk(s.db, s.hands[hid]);
  }

  predicate Finished(j: Job) {
    j.status == JobDone || j.status == JobFailed
  }

  /** This event finishes this job. */
  predicate Finishes(s: State, e: Event, id: Id) {
    id in s.db.jobs && !Finished(s.db.jobs[id]) && id in Next(s, e).db.jobs && Finished(Next(s, e).db.jobs[id])
  }

  function FinishCount(s: State, es: seq<Event>, id: Id): nat {
    if es == [] then 0
    else FinishCount(s, es[..|es| - 1], id)
         + if Finishes(Run(s, es[..|es| - 1]), es[|es| - 1], id) then 1 else 0
  }

  /** done and failed are absorbing: a finished job never changes again. */
  lemma FinishedIsAbsorbing(s: State, t: State, id: Id)
    requires Later(s, t) && id in s.db.jobs && Finished(s.db.jobs[id])
    ensures id in t.db.jobs && t.db.jobs[id] == s.db.jobs[id]
  {
    var more :| t == Run(s, more);
    FinishedStays(s, more, id);
  }

  /** At most one finish of a job takes effect in any run, across all workers; it has happened exactly
      when the job has become done or failed. */
  lemma {:induction false} FinishedAtMostOnce(s: State, es: seq<Event>, id: Id)
    requires id in s.db.jobs ==> Unfinished(s.db.jobs[id])
    ensures var db := Run(s, es).db;
            FinishCount(s, es, id) == if id in db.jobs && Finished(db.jobs[id]) then 1 else 0
    decreases |es|
  {
    if es != [] {
      FinishedAtMostOnce(s, es[..|es| - 1], id);
      JobEffect(Run(s, es[..|es| - 1]), es[|es| - 1], id);
    }
  }

  /** A worker that lost the race changes neither table: its booking update is rolled back. */
  lemma LoserIsRolledBack(s: State, hid: Id, fault: Fault)
    requires hid in s.hands && !Writable(s.db, s.hands[hid].booking)
    ensures NextWorker(s, hid, WriteBack(fault)).db == s.db
  {
  }

  /** Once a job is finished no other worker's outcome leaves a trace: the job stays as the winner wrote it, and so
      do the conference columns of the booking while it is active. */
  lemma LosersLeaveNoTrace(s: State, t: State, id: Id)
    requires Reachable(s) && Later(s, t) && id in s.db.jobs && Finished(s.db.jobs[id])
    ensures id in s.db.bookings && id in t.db.bookings && id in t.db.jobs && t.db.jobs[id] == s.db.jobs[id]
    ensures t.db.bookings[id].status == Active ==>
              t.db.bookings[id].conf == s.db.bookings[id].conf && t.db.bookings[id].link == s.db.bookings[id].link
  {
    hide Run, Next, Reachable, SagaInv;
    ReachableJobs(s);
    var more :| t == Run(s, more);
    RunKeepsJobs(s, more);
    FinishedIsAbsorbing(s, t, id);
    assert RowAgrees(id, s.db.bookings[id], s.db.jobs);
    assert RowAgrees(id, t.db.bookings[id], t.db.jobs);
  }

  /** A published link is the one its id determines, and never changes while the booking stays active. */
  lemma PublishedLinkIsFixed(s: State, t: State, id: Id)
    requires Reachable(s) && Later(s, t) && id in s.db.bookings && s.db.bookings[id].link.Some?
    ensures id in t.db.bookings
    ensures t.db.bookings[id].status == Active ==> t.db.bookings[id].link == s.db.bookings[id].link == Some(LinkFor(id))
  {
    ReachableJobs(s);
    var more :| t == Run(s, more);
    RunKeepsJobs(s, more);
    assert RowAgrees(id, s.db.bookings[id], s.db.jobs);
    FinishedIsAbsorbing(s, t, id);
    assert RowAgrees(id, t.db.bookings[id], t.db.jobs);
  }

  lemma {:induction false} FinishedStays(s: State, es: seq<Event>, id: Id)
    requires id in s.db.jobs && Finished(s.db.jobs[id])
    ensures id in Run(s, es).db.jobs && Run(s, es).db.jobs[id] == s.db.jobs[id]
    decreases |es|
  {
    if es != [] {
      FinishedStays(s, es[..|es| - 1], id);
      JobEffect(Run(s, es[..|es| - 1]), es[|es| - 1], id);
    }
  }
}
