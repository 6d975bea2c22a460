/** Leases and progress of the conference job queue. */
module LeaseProofs {
  import opened Common
  import opened BookingTables
  import opened Platform
  import opened JobProofs
  import opened GenerationProofs

  // ---------- lease exclusion ----------

  /** The worker may still act on this job: it has not let go of it and its lease has not run out. */
  predicate Fresh(s: State, h: Hand) {
    h.phase != Over && s.now < h.claimedAt + LEASE
  }

  predicate InHand(s: State, hid: Id, id: Id) {
    hid in s.hands && s.hands[hid].booking == id && Fresh(s, s.hands[hid])
  }

  /** This event is a worker writing back what it decided. */
  predicate WritesBack(s: State, e: Event) {
    e.Wrk? && e.w.WriteBack? && e.hid in s.hands && s.hands[e.hid].phase.Decided?
  }

  /** In this run every worker stops acting on a job before claim time + lease. */
  predicate Punctual(s: State, es: seq<Event>) {
    es == [] ||
    (Punctual(s, es[..|es| - 1])
     && (var u := Run(s, es[..|es| - 1]);
         WritesBack(u, es[|es| - 1]) ==> Fresh(u, u.hands[es[|es| - 1].hid])))
  }

  /** A fresh worker's job is locked by that very claim, and its counter is the stored one. */
  predicate OwnsLock(s: State, h: Hand) {
    && h.booking in s.db.jobs
    && s.db.jobs[h.booking].status == JobProcessing
    && s.db.jobs[h.booking].lockedAt == Some(h.claimedAt)
    && s.db.jobs[h.booking].attempts == h.attempts
  }

  ghost predicate LeaseInv(s: State) {
    && (forall hid :: hid in s.hands && Fresh(s, s.hands[hid]) ==> OwnsLock(s, s.hands[hid]))
    && (forall x, y ::
          x in s.hands && y in s.hands && s.hands[x].booking == s.hands[y].booking
          && Fresh(s, s.hands[x]) && Fresh(s, s.hands[y])
          ==> x == y)
  }

  /** Steps that change neither the hands nor the jobs that exist. */
  lemma LeaseInvFrame(s: State, t: State)
    requires LeaseInv(s) && t.hands == s.hands && s.now <= t.now
    requires forall id :: id in s.db.jobs ==> id in t.db.jobs && t.db.jobs[id] == s.db.jobs[id]
    ensures LeaseInv(t)
  {
    assert forall hid :: hid in t.hands && Fresh(t, t.hands[hid]) ==> Fresh(s, s.hands[hid]);
  }

  lemma ClaimKeepsLease(s: State, hid: Id, id: Id)
    requires LeaseInv(s)
    requires hid !in s.hands && MayClaim(s.db, id, s.now)
    ensures LeaseInv(NextWorker(s, hid, ClaimJob(id)))
  {
    var t := NextWorker(s, hid, ClaimJob(id));
    forall k | k in s.hands && Fresh(s, s.hands[k])
      ensures s.hands[k].booking != id
    {
      assert OwnsLock(s, s.hands[k]);
    }
    assert forall k :: k in s.hands ==> (Fresh(t, s.hands[k]) <==> Fresh(s, s.hands[k]));
    assert forall k :: k in s.db.jobs && k != id ==> t.db.jobs[k] == s.db.jobs[k];
  }

  /** What a held job's worker does to its own record: it may only stop being fresh. */
  lemma HandKeepsClaim(s: State, h: Hand, w: WorkerStep)
    ensures var g := HandNext(s, h, w);
            && g.booking == h.booking && g.attempts == h.attempts && g.claimedAt == h.claimedAt
            && (h.phase == Over ==> g.phase == Over)
            && (w.WriteBack? && h.phase.Decided? ==> g.phase == Over)
  {
  }

  lemma HandStepKeepsLease(s: State, hid: Id, w: WorkerStep)
    requires LeaseInv(s) && hid in s.hands
    requires w.WriteBack? && s.hands[hid].phase.Decided? ==> Fresh(s, s.hands[hid])
    ensures LeaseInv(NextWorker(s, hid, w))
  {
    hide HandNext, HandLinks, Apply, WriteFor;
    var h, t := s.hands[hid], NextWorker(s, hid, w);
    HandKeepsClaim(s, h, w);
    if w.WriteBack? && h.phase.Decided? {
      OtherJobsStay(s.db, h);
    } else {
      assert t.db == s.db;
    }
    assert forall k :: k in t.hands && Fresh(t, t.hands[k]) ==> k in s.hands && Fresh(s, s.hands[k]);
    assert forall k :: k in t.hands ==> t.hands[k].booking == s.hands[k].booking;
    forall k | k in t.hands && Fresh(t, t.hands[k])
      ensures OwnsLock(t, t.hands[k])
    {
      assert OwnsLock(s, s.hands[k]);
      assert w.WriteBack? && h.phase.Decided? ==> k != hid;
    }
  }

  lemma OtherJobsStay(db: Db, h: Hand)
    requires h.phase.Decided?
    ensures var after := Apply(db, h.booking, WriteFor(h.phase.verdict, h.attempts));
            forall k :: k in db.jobs && k != h.booking ==> k in after.jobs && after.jobs[k] == db.jobs[k]
  {
  }

  lemma NextKeepsLease(s: State, e: Event)
    requires LeaseInv(s)
    requires WritesBack(s, e) ==> Fresh(s, s.hands[e.hid])
    ensures LeaseInv(Next(s, e))
  {
    hide NextWorker, NextCreate, NextCancel, LeaseInv;
    match e
    case Wrk(hid, w) =>
      if hid in s.hands {
        HandStepKeepsLease(s, hid, w);
      } else if w.ClaimJob? && MayClaim(s.db, w.booking, s.now) {
        ClaimKeepsLease(s, hid, w.booking);
      } else {
        IdleWorker(s, hid, w);
      }
    case Cre(id, c) =>
      CreateFrame(s, id, c);
      CreateKeepsJobs(s, id, c);
      LeaseInvFrame(s, Next(s, e));
    case Can(pid, x) =>
      CancelTouchesNoJob(s, pid, x);
      CancelFrame(s, pid, x);
      LeaseInvFrame(s, Next(s, e));
    case _ => LeaseInvFrame(s, Next(s, e));
  }

  lemma IdleWorker(s: State, hid: Id, w: WorkerStep)
    requires hid !in s.hands && (w.ClaimJob? ==> !MayClaim(s.db, w.booking, s.now))
    ensures NextWorker(s, hid, w) == s
  {
  }

  lemma CreateKeepsJobs(s: State, id: Id, c: CreateStep)
    ensures var t := NextCreate(s, id, c);
            forall k :: k in s.db.jobs ==> k in t.db.jobs && t.db.jobs[k] == s.db.jobs[k]
  {
    hide CreateNext, CreateSlots;
  }

  lemma {:induction false} RunKeepsLease(s: State, es: seq<Event>)
    requires LeaseInv(s) && Punctual(s, es)
    ensures LeaseInv(Run(s, es))
    decreases |es|
  {
    hide Next, LeaseInv;
    if es != [] {
      RunKeepsLease(s, es[..|es| - 1]);
      NextKeepsLease(Run(s, es[..|es| - 1]), es[|es| - 1]);
    }
  }

  /** The lease is five minutes. */
  lemma FreshIsFiveMinutes(s: State, h: Hand)
    ensures Fresh(s, h) <==> h.phase != Over && s.now < h.claimedAt + 300_000_000
  {
  }

  /** Lease exclusion: if every worker stops acting on a job before claim time + lease, at most one worker
      has that job in hand, and its write, if it still makes one, takes effect. */
  lemma AtMostOneWorker(s: State, x: Id, y: Id, id: Id)
    requires PunctuallyReachable(s) && InHand(s, x, id) && InHand(s, y, id)
    ensures x == y && Writable(s.db, id)
  {
    var now: Instant, es: seq<Event> :| s == Run(Init(now), es) && Punctual(Init(now), es);
    RunKeepsLease(Init(now), es);
    assert OwnsLock(s, s.hands[x]);
  }

  /** Some punctual run of the platform ends in this state. */
  ghost predicate PunctuallyReachable(s: State) {
    exists now: Instant, es: seq<Event> :: s == Run(Init(now), es) && Punctual(Init(now), es)
  }

  /** Some write of the run sends the job back to the queue. */
  predicate Rescheduled(s: State, es: seq<Event>, id: Id) {
    es != [] &&
    (var prefix, e := es[..|es| - 1], es[|es| - 1];
     var u := Run(s, prefix);
     || Rescheduled(s, prefix, id)
     || (Writes(u, e, id) && id in Next(u, e).db.jobs && Next(u, e).db.jobs[id].status == JobPending))
  }

  predicate LockedSince(s: State, id: Id, since: Instant) {
    && since <= s.now
    && id in s.db.jobs
    && (Finished(s.db.jobs[id])
        || (s.db.jobs[id].status == JobProcessing && s.db.jobs[id].lockedAt.Some?
            && since <= s.db.jobs[id].lockedAt.value))
  }

  lemma LockStep(s: State, e: Event, id: Id, since: Instant)
    requires LockedSince(s, id, since)
    ensures LockedSince(Next(s, e), id, since)
            || (Writes(s, e, id) && id in Next(s, e).db.jobs && Next(s, e).db.jobs[id].status == JobPending)
  {
    hide NextWorker, NextCreate, NextCancel, NextGen;
    JobEffect(s, e, id);
    TimeAdvances(s, e);
    if Writes(s, e, id) {
      WriteStatus(s.db, id, s.hands[e.hid].phase.verdict, s.hands[e.hid].attempts);
    }
  }

  lemma TimeAdvances(s: State, e: Event)
    ensures s.now <= Next(s, e).now
  {
    hide NextWorker, NextCancel, NextCreate, GenSlots, GenRuns;
    if !e.Gen? {
      OtherEventsKeepGeometry(s, e);
    }
  }

  lemma WriteStatus(db: Db, id: Id, v: Verdict, attempts: nat)
    requires Writable(db, id)
    ensures var j := Apply(db, id, WriteFor(v, attempts)).jobs[id]; Finished(j) || j.status == JobPending
  {
  }

  lemma {:induction false} LockLasts(s: State, es: seq<Event>, id: Id, since: Instant)
    requires LockedSince(s, id, since) && !Rescheduled(s, es, id)
    ensures LockedSince(Run(s, es), id, since)
    decreases |es|
  {
    hide Next, LockedSince;
    if es != [] {
      LockLasts(s, es[..|es| - 1], id, since);
      LockStep(Run(s, es[..|es| - 1]), es[|es| - 1], id, since);
    }
  }

  /** On every run, punctual or not: two claims returning the same job are separated by a reschedule of it
      or by a whole lease. */
  lemma ClaimsAreSeparated(s: State, hid: Id, es: seq<Event>, e: Event, id: Id)
    requires Claims(s, Wrk(hid, ClaimJob(id)), id)
    requires var u := Run(NextWorker(s, hid, ClaimJob(id)), es); Claims(u, e, id)
    ensures var t := NextWorker(s, hid, ClaimJob(id));
            Rescheduled(t, es, id) || s.now + 300_000_000 <= Run(t, es).now
  {
    var t := NextWorker(s, hid, ClaimJob(id));
    if !Rescheduled(t, es, id) {
      assert LockedSince(t, id, s.now);
      LockLasts(t, es, id, s.now);
    }
  }

  /** A claim respects the stored times: it takes no pending job before its retry is due, and no processing job
      before its lease of five minutes has run out. */
  lemma ClaimsAreDue(s: State, e: Event, id: Id)
    requires Claims(s, e, id)
    ensures id in s.db.jobs
    ensures var j := s.db.jobs[id];
            && (j.status == JobPending || j.status == JobProcessing)
            && (j.status == JobPending && j.nextRetry.Some? ==> j.nextRetry.value <= s.now)
            && (j.status == JobProcessing && j.lockedAt.Some? ==> j.lockedAt.value + 300_000_000 <= s.now)
  {
  }

  /** Where a rescheduled job is until its retry is due: just as it was written back. */
  predicate WaitsUntil(s: State, id: Id, j: Job, due: Instant) {
    due <= s.now || (id in s.db.jobs && s.db.jobs[id] == j)
  }

  lemma WaitStep(s: State, e: Event, id: Id, j: Job, due: Instant)
    requires WaitsUntil(s, id, j, due) && j.status == JobPending && j.nextRetry == Some(due)
    ensures WaitsUntil(Next(s, e), id, j, due)
  {
    hide Next, Claims;
    TimeAdvances(s, e);
    JobEffect(s, e, id);
    if Claims(s, e, id) {
      ClaimsAreDue(s, e, id);
    }
  }

  lemma {:induction false} WaitRun(s: State, es: seq<Event>, id: Id, j: Job, due: Instant)
    requires WaitsUntil(s, id, j, due) && j.status == JobPending && j.nextRetry == Some(due)
    ensures WaitsUntil(Run(s, es), id, j, due)
    decreases |es|
  {
    hide Next, WaitsUntil;
    if es == [] {
    } else {
      WaitRun(s, es[..|es| - 1], id, j, due);
      WaitStep(Run(s, es[..|es| - 1]), es[|es| - 1], id, j, due);
    }
  }

  /** The backoff is waited for: once a write has sent a job back, nobody claims it earlier than 2, 4, 8 or 16
      seconds after the failed call, whatever happens in between. */
  lemma BackoffIsWaitedFor(s: State, e: Event, t: State, c: Event, id: Id)
    requires Reachable(s) && Writes(s, e, id) && id in Next(s, e).db.jobs && Unfinished(Next(s, e).db.jobs[id])
    requires Later(Next(s, e), t) && Claims(t, c, id)
    ensures var j, v := Next(s, e).db.jobs[id], s.hands[e.hid].phase.verdict;
            v.CallFailed? && 1 <= j.attempts <= 4
            && v.at + 1_000_000 * (if j.attempts == 1 then 2 else if j.attempts == 2 then 4
                                   else if j.attempts == 3 then 8 else 16) <= t.now
  {
    hide Next, Run, Reachable, Claims, Writes, JobInv;
    BackoffIsBounded(s, e, id);
    SentBackIsPending(s, e, id);
    var es :| t == Run(Next(s, e), es);
    var j := Next(s, e).db.jobs[id];
    WaitRun(Next(s, e), es, id, j, j.nextRetry.value);
    ClaimsAreDue(t, c, id);
  }

  lemma SentBackIsPending(s: State, e: Event, id: Id)
    requires Writes(s, e, id) && id in Next(s, e).db.jobs && Unfinished(Next(s, e).db.jobs[id])
    ensures Next(s, e).db.jobs[id].status == JobPending
  {
    hide Next, Apply, WriteFor;
    WritesTakeEffect(s, e, id);
    WriteStatus(s.db, id, s.hands[e.hid].phase.verdict, s.hands[e.hid].attempts);
  }

  /** A stretch of a run in which nobody writes back is punctual. */
  lemma {:induction false} QuietIsPunctual(s: State, es: seq<Event>)
    requires forall e :: e in es ==> !(e.Wrk? && e.w.WriteBack?)
    ensures Punctual(s, es)
    decreases |es|
  {
    if es != [] {
      assert es[|es| - 1] in es;
      assert forall e :: e in es[..|es| - 1] ==> e in es;
      QuietIsPunctual(s, es[..|es| - 1]);
    }
  }

  lemma {:induction false} PunctualConcat(s: State, a: seq<Event>, b: seq<Event>)
    requires Punctual(s, a) && Punctual(Run(s, a), b)
    ensures Punctual(s, a + b)
    decreases |b|
  {
    if b == [] {
      assert a + b == a;
    } else {
      var front := b[..|b| - 1];
      PunctualConcat(s, a, front);
      RunConcat(s, a, front);
      assert (a + b)[..|a + b| - 1] == a + front;
    }
  }
}
