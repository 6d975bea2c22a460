/** One pass of the conference worker as a stretch of a platform run. */
module WorkerRuns {
  import opened Common
  import opened SlotTable
  import opened BookingTables
  import opened ConferenceStore
  import opened Platform
  import opened JobProofs
  import opened LeaseProofs
  import opened BookingRepository

  /** The timeout of the HTTP client. */
  const HTTP_TIMEOUT: int := 10_000_000

  /** How one job goes: how long its calls take and how they end. */
  datatype JobRun = JobRun(load: nat, loadFails: bool, call: nat, answer: Fault, write: nat, writeFault: Fault)

  function RunAt(runs: seq<JobRun>, n: nat): JobRun {
    if n < |runs| then runs[n] else JobRun(0, false, 0, NoFault, 0, NoFault)
  }

  /** External calls are cut off by the client's timeout; repository calls take at most d. */
  predicate Within(r: JobRun, d: int) {
    r.load <= d && r.write <= d && r.call <= HTTP_TIMEOUT && 0 <= d
  }

  /** What processJob decides, from the booking it loads and the answer it has at the given time. */
  function VerdictOf(db: Db, booking: Id, answer: Fault, at: Instant): Verdict {
    if booking in db.bookings && db.bookings[booking].status == Cancelled then BookingCancelled
    else if answer == NoFault then LinkReady(LinkFor(booking))
    else CallFailed(at)
  }

  /** The tables once one claimed job has been handled, starting at the given time. */
  function Handled(db: Db, job: ClaimedJob, r: JobRun, began: Instant): Db {
    if r.loadFails then db
    else Faulty(r.writeFault, db,
                Apply(db, job.booking, WriteFor(VerdictOf(db, job.booking, r.answer, began + r.load + r.call),
                                                job.attempts)))
  }

  /** How long handling a job takes: it stops at a failed load, and a cancelled booking needs no external call. */
  function Duration(db: Db, booking: Id, r: JobRun): nat {
    if r.loadFails then r.load
    else if booking in db.bookings && db.bookings[booking].status == Cancelled then r.load + r.write
    else r.load + r.call + r.write
  }

  /** The load failed or the write did not happen. */
  predicate Unwritten(r: JobRun) {
    r.loadFails || r.writeFault == FailBefore
  }

  /** A handled job and its booking, against the tables before the pass: written back once, as that booking and
      the answer call for, or merely locked. */
  predicate SettledAt(before: Db, after: Db, job: ClaimedJob, r: JobRun, claimedAt: Instant, at: Instant)
    requires job.booking in before.jobs && job.booking in after.jobs
    requires job.booking in before.bookings && job.booking in after.bookings
  {
    var id := job.booking;
    if Unwritten(r) then after.jobs[id] == Lock(before.jobs[id], claimedAt) && after.bookings[id] == before.bookings[id]
    else
      var w := WriteFor(VerdictOf(before, id, r.answer, at), job.attempts);
      && after.jobs[id] == Job(w.status, w.attempts, w.nextRetry, None, before.jobs[id].createdAt)
      && after.bookings[id] == (if w.update.Some? then UpdateRow(before.bookings[id], w.update.value)
                                else before.bookings[id])
  }

  ghost predicate Settled(before: Db, after: Db, job: ClaimedJob, r: JobRun, claimedAt: Instant, ended: Instant) {
    && job.booking in before.jobs && job.booking in after.jobs
    && job.booking in before.bookings && job.booking in after.bookings
    && exists at: Instant :: claimedAt <= at <= ended && SettledAt(before, after, job, r, claimedAt, at)
  }

  ghost predicate Waiting(before: Db, after: Db, id: Id, claimedAt: Instant) {
    && id in before.jobs && id in after.jobs && id in before.bookings && id in after.bookings
    && after.jobs[id] == Lock(before.jobs[id], claimedAt) && after.bookings[id] == before.bookings[id]
  }

  /** A pass over the claimed jobs that has come to the n-th: the first n are settled, the others are locked and
      wait, and no other job or booking has changed. */
  ghost predicate PassedTo(before: Db, after: Db, claimed: seq<ClaimedJob>, runs: seq<JobRun>, n: nat,
                           claimedAt: Instant, ended: Instant) {
    && after.jobs.Keys == before.jobs.Keys && after.bookings.Keys == before.bookings.Keys
    && (forall id :: id in before.jobs && !IsClaimed(claimed, id) ==> after.jobs[id] == before.jobs[id])
    && (forall id :: id in before.bookings && !IsClaimed(claimed, id) ==> after.bookings[id] == before.bookings[id])
    && (forall i :: 0 <= i < |claimed| ==>
          if i < n then Settled(before, after, claimed[i], RunAt(runs, i), claimedAt, ended)
          else Waiting(before, after, claimed[i].booking, claimedAt))
  }

  /** How many of the first n jobs end in an error. */
  function Mishaps(runs: seq<JobRun>, n: nat): nat {
    if n == 0 then 0
    else
      var r := RunAt(runs, n - 1);
      Mishaps(runs, n - 1) + if r.loadFails || r.writeFault != NoFault then 1 else 0
  }

  // ---------- one job ----------

  lemma DiscardingFor(attempts: nat)
    ensures WriteFor(BookingCancelled, attempts) == Discarding(attempts)
  {
  }

  /** A booking without a row has no job; one that requested no conference shows none. */
  lemma FreshHasNoJob(s: State, id: Id)
    requires JobInv(s)
    ensures id !in s.db.bookings ==> id !in s.db.jobs
  {
  }

  lemma RequestedOrNot(s: State, id: Id)
    requires JobInv(s) && id in s.db.bookings
    ensures !s.db.bookings[id].requested ==> s.db.bookings[id].conf == NotRequested
  {
    assert RowAgrees(id, s.db.bookings[id], s.db.jobs);
  }

  lemma HeldJobHasBooking(s: State, hid: Id)
    requires JobInv(s) && hid in s.hands
    ensures s.hands[hid].booking in s.db.bookings
  {
    assert HandOk(s.db, s.hands[hid]);
  }

  /** Everything but this worker's hand, the clock and what the caller spells out. */
  predicate OnlyHand(s: State, t: State, hid: Id, elapsed: int) {
    && t.now == s.now + elapsed && t.slots == s.slots
    && hid in s.hands && t.hands.Keys == s.hands.Keys
    && (forall k :: k in s.hands && k != hid ==> t.hands[k] == s.hands[k])
  }

  lemma DropRun(s: State, hid: Id, load: nat)
    requires hid in s.hands
    ensures var es := [Tick(load), Wrk(hid, Drop)];
            var t := Run(s, es);
            OnlyHand(s, t, hid, load) && t.db == s.db && t.links == s.links && Punctual(s, es)
  {
    hide Punctual, Run, NextCreate, NextCancel, NextGen, Apply, WriteFor, StoreLink;
    RunTwo(s, Tick(load), Wrk(hid, Drop));
    QuietIsPunctual(s, [Tick(load), Wrk(hid, Drop)]);
  }

  lemma WriteRun(s: State, hid: Id, h: Hand, wait: nat, fault: Fault)
    requires hid in s.hands && s.hands[hid] == h && h.phase.Decided?
    ensures var es := [Tick(wait), Wrk(hid, WriteBack(fault))];
            var t := Run(s, es);
            && OnlyHand(s, t, hid, wait) && t.links == s.links
            && t.db == Faulty(fault, s.db, Apply(s.db, h.booking, WriteFor(h.phase.verdict, h.attempts)))
            && (s.now + wait < h.claimedAt + LEASE ==> Punctual(s, es))
  {
    hide Apply, WriteFor, Punctual, Run;
    RunTwo(s, Tick(wait), Wrk(hid, WriteBack(fault)));
    if s.now + wait < h.claimedAt + LEASE {
      WriteIsPunctual(s, hid, h, wait, fault);
    }
  }

  lemma WriteIsPunctual(s: State, hid: Id, h: Hand, wait: nat, fault: Fault)
    requires hid in s.hands && s.hands[hid] == h && h.phase.Decided? && s.now + wait < h.claimedAt + LEASE
    ensures Punctual(s, [Tick(wait), Wrk(hid, WriteBack(fault))])
  {
    hide Run;
    var es := [Tick(wait), Wrk(hid, WriteBack(fault))];
    RunThree(s, Tick(wait), Tick(0), Tick(0));
    QuietIsPunctual(s, [Tick(wait)]);
    assert es[..1] == [Tick(wait)];
  }

  lemma LoadRun(s: State, hid: Id, h: Hand, wait: nat)
    requires hid in s.hands && s.hands[hid] == h && h.phase.Claimed? && h.booking in s.db.bookings
    ensures var es := [Tick(wait), Wrk(hid, Load)];
            var t := Run(s, es);
            && OnlyHand(s, t, hid, wait) && t.links == s.links && t.db == s.db && Punctual(s, es)
            && t.hands[hid] ==
               h.(phase := if s.db.bookings[h.booking].status == Cancelled then Decided(BookingCancelled) else Loaded)
  {
    hide Punctual, Run;
    RunTwo(s, Tick(wait), Wrk(hid, Load));
    QuietIsPunctual(s, [Tick(wait), Wrk(hid, Load)]);
  }

  lemma AnswerRun(s: State, hid: Id, h: Hand, wait: nat, fault: Fault)
    requires hid in s.hands && s.hands[hid] == h && h.phase.Loaded? && Derived(s.links)
    ensures var es := [Tick(wait), Wrk(hid, Ask(fault))];
            var t := Run(s, es);
            && OnlyHand(s, t, hid, wait) && t.db == s.db && Punctual(s, es)
            && t.links == Faulty(fault, s.links, StoreLink(s.links, h.booking))
            && t.hands[hid] == h.(phase := Decided(if fault == NoFault then LinkReady(LinkFor(h.booking))
                                                   else CallFailed(s.now + wait)))
  {
    hide Punctual, Run, NextCreate, NextCancel, NextGen, Apply, WriteFor, LinkFor;
    RunTwo(s, Tick(wait), Wrk(hid, Ask(fault)));
    QuietIsPunctual(s, [Tick(wait), Wrk(hid, Ask(fault))]);
  }

  lemma DiscardRun(s: State, hid: Id, h: Hand, r: JobRun)
    requires hid in s.hands && s.hands[hid] == h && h.phase.Claimed?
    requires h.booking in s.db.bookings && s.db.bookings[h.booking].status == Cancelled
    ensures var es := [Tick(r.load), Wrk(hid, Load), Tick(r.write), Wrk(hid, WriteBack(r.writeFault))];
            var t := Run(s, es);
            && OnlyHand(s, t, hid, r.load + r.write) && t.links == s.links
            && t.db == Faulty(r.writeFault, s.db, Apply(s.db, h.booking, WriteFor(BookingCancelled, h.attempts)))
            && (s.now + r.load + r.write < h.claimedAt + LEASE ==> Punctual(s, es))
  {
    hide Punctual, Run, Apply, WriteFor;
    var a, b := [Tick(r.load), Wrk(hid, Load)], [Tick(r.write), Wrk(hid, WriteBack(r.writeFault))];
    LoadRun(s, hid, h, r.load);
    var u := Run(s, a);
    WriteRun(u, hid, u.hands[hid], r.write, r.writeFault);
    RunConcat(s, a, b);
    if s.now + r.load + r.write < h.claimedAt + LEASE {
      PunctualConcat(s, a, b);
    }
    assert a + b == [Tick(r.load), Wrk(hid, Load), Tick(r.write), Wrk(hid, WriteBack(r.writeFault))];
  }

  lemma AskRun(s: State, hid: Id, h: Hand, r: JobRun)
    requires hid in s.hands && s.hands[hid] == h && h.phase.Claimed? && Derived(s.links)
    requires h.booking in s.db.bookings && s.db.bookings[h.booking].status == Active
    ensures var es := [Tick(r.load), Wrk(hid, Load), Tick(r.call), Wrk(hid, Ask(r.answer)), Tick(r.write),
                       Wrk(hid, WriteBack(r.writeFault))];
            var t := Run(s, es);
            && OnlyHand(s, t, hid, r.load + r.call + r.write)
            && t.links == Faulty(r.answer, s.links, StoreLink(s.links, h.booking))
            && t.db == Faulty(r.writeFault, s.db,
                         Apply(s.db, h.booking, WriteFor(if r.answer == NoFault then LinkReady(LinkFor(h.booking))
                                                         else CallFailed(s.now + r.load + r.call),
                                                         h.attempts)))
            && (s.now + r.load + r.call + r.write < h.claimedAt + LEASE ==> Punctual(s, es))
  {
    hide Punctual, Run, Apply, WriteFor, StoreLink;
    var a, b, c := [Tick(r.load), Wrk(hid, Load)], [Tick(r.call), Wrk(hid, Ask(r.answer))],
                   [Tick(r.write), Wrk(hid, WriteBack(r.writeFault))];
    LoadRun(s, hid, h, r.load);
    var u := Run(s, a);
    AnswerRun(u, hid, u.hands[hid], r.call, r.answer);
    var v := Run(u, b);
    WriteRun(v, hid, v.hands[hid], r.write, r.writeFault);
    RunConcat(s, a, b);
    RunConcat(s, a + b, c);
    PunctualConcat(s, a, b);
    if s.now + r.load + r.call + r.write < h.claimedAt + LEASE {
      PunctualConcat(s, a + b, c);
    }
    assert a + b + c == [Tick(r.load), Wrk(hid, Load), Tick(r.call), Wrk(hid, Ask(r.answer)), Tick(r.write),
                         Wrk(hid, WriteBack(r.writeFault))];
  }

  // ---------- a batch ----------

  function ClaimEvents(claimed: seq<ClaimedJob>, base: Id): seq<Event> {
    if claimed == [] then []
    else
      ClaimEvents(claimed[..|claimed| - 1], base)
      + [Wrk(base + |claimed| - 1, ClaimJob(claimed[|claimed| - 1].booking))]
  }

  /** Every claimed job is in a hand of its own. */
  ghost predicate BatchHeld(hands: map<Id, Hand>, claimed: seq<ClaimedJob>, base: Id, now: Instant) {
    && (forall k :: k in hands ==> k < base + |claimed|)
    && InHands(hands, claimed, base, 0, now)
  }

  ghost predicate Claimables(s: State, claimed: seq<ClaimedJob>) {
    && (forall i :: 0 <= i < |claimed| ==>
          MayClaim(s.db, claimed[i].booking, s.now) && claimed[i].attempts == s.db.jobs[claimed[i].booking].attempts)
    && Distinct(claimed)
  }

  /** The hands of the jobs from index n on are as claimed. */
  predicate InHands(hands: map<Id, Hand>, claimed: seq<ClaimedJob>, base: Id, n: nat, now: Instant) {
    forall i :: n <= i < |claimed| ==> HandFor(hands, claimed[i], base + i, now)
  }

  predicate HandFor(hands: map<Id, Hand>, job: ClaimedJob, hid: Id, now: Instant) {
    hid in hands && hands[hid] == Hand(job.booking, job.attempts, now, Claimed)
  }

  lemma OthersStayInHands(s: State, t: State, claimed: seq<ClaimedJob>, base: Id, n: nat, now: Instant, elapsed: int)
    requires n < |claimed| && InHands(s.hands, claimed, base, n, now) && OnlyHand(s, t, base + n, elapsed)
    ensures InHands(t.hands, claimed, base, n + 1, now)
  {
    forall i | n + 1 <= i < |claimed|
      ensures HandFor(t.hands, claimed[i], base + i, now)
    {
      assert HandFor(s.hands, claimed[i], base + i, now);
    }
  }

  lemma OneMoreLocked(before: map<Id, Job>, mid: map<Id, Job>, front: seq<ClaimedJob>, last: ClaimedJob, now: Instant)
    requires OnlyLocked(before, mid, front, now) && last.booking in before && !IsClaimed(front, last.booking)
    ensures mid[last.booking] == before[last.booking]
    ensures OnlyLocked(before, mid[last.booking := Lock(before[last.booking], now)], front + [last], now)
  {
    ClaimedGrows(front, last.booking, last.attempts);
  }

  lemma OneMoreHeld(hands: map<Id, Hand>, front: seq<ClaimedJob>, last: ClaimedJob, base: Id, now: Instant)
    requires BatchHeld(hands, front, base, now)
    ensures base + |front| !in hands
    ensures BatchHeld(hands[base + |front| := Hand(last.booking, last.attempts, now, Claimed)], front + [last], base,
                      now)
  {
    var after, all := hands[base + |front| := Hand(last.booking, last.attempts, now, Claimed)], front + [last];
    forall i | 0 <= i < |all|
      ensures HandFor(after, all[i], base + i, now)
    {
      if i < |front| {
        assert HandFor(hands, front[i], base + i, now);
      }
    }
  }

  /** Claiming the rows one after the other at one instant is the claim of the whole batch. */
  lemma {:induction false} ClaimsRun(s: State, claimed: seq<ClaimedJob>, base: Id)
    requires forall k :: k in s.hands ==> k < base
    requires Claimables(s, claimed)
    ensures var t := Run(s, ClaimEvents(claimed, base));
            && t == s.(db := t.db, hands := t.hands)
            && t.db.bookings == s.db.bookings
            && OnlyLocked(s.db.jobs, t.db.jobs, claimed, s.now)
            && BatchHeld(t.hands, claimed, base, s.now)
    decreases |claimed|
  {
    hide Run, Next, BatchHeld, OnlyLocked, Lock, Claimable;
    if claimed == [] {
      RunNothing(s);
      NoneClaimed(s, claimed, base);
    } else {
      var front, last := claimed[..|claimed| - 1], claimed[|claimed| - 1];
      assert claimed == front + [last];
      ClaimsRun(s, front, base);
      var u := Run(s, ClaimEvents(front, base));
      OneMoreLocked(s.db.jobs, u.db.jobs, front, last, s.now);
      OneMoreHeld(u.hands, front, last, base, s.now);
      KeysOfLocked(s.db.jobs, u.db.jobs, front, s.now);
      OneClaim(u, base + |front|, last.booking);
      RunSnoc(s, ClaimEvents(front, base), Wrk(base + |front|, ClaimJob(last.booking)));
    }
  }

  lemma NothingLocked(taken: seq<ClaimedJob>, jobs: map<Id, Job>, now: Instant)
    ensures taken == [] ==> Distinct(taken) && OnlyLocked(jobs, jobs, taken, now)
  {
  }

  /** What the repository selects may be claimed one by one. */
  lemma MayClaimAll(s: State, taken: seq<ClaimedJob>, locked: set<Id>)
    requires var candidates := set id | id in s.db.jobs && Claimable(s.db.jobs[id], s.now, LEASE) && id !in locked;
             taken == [] || OldestFirst(s.db.jobs, candidates, BATCH, taken)
    ensures Claimables(s, taken) && |taken| <= BATCH
  {
  }

  lemma SameLocks(before: map<Id, Job>, stored: map<Id, Job>, run: map<Id, Job>, claimed: seq<ClaimedJob>, now: Instant)
    requires OnlyLocked(before, run, claimed, now) && OnlyLocked(before, stored, claimed, now)
    ensures run == stored
  {
  }

  lemma NonePassed(s: State, stored: map<Id, Job>, taken: seq<ClaimedJob>, now: Instant, ended: Instant)
    requires JobInv(s) && Claimables(s, taken) && OnlyLocked(s.db.jobs, stored, taken, now)
    ensures PassedTo(s.db, Db(s.db.bookings, stored), taken, [], 0, now, ended)
  {
    forall i | 0 <= i < |taken|
      ensures Waiting(s.db, Db(s.db.bookings, stored), taken[i].booking, now)
    {
      assert IsClaimed(taken, taken[i].booking);
    }
  }

  lemma NoneClaimed(s: State, claimed: seq<ClaimedJob>, base: Id)
    requires claimed == [] && forall k :: k in s.hands ==> k < base
    ensures OnlyLocked(s.db.jobs, s.db.jobs, claimed, s.now) && BatchHeld(s.hands, claimed, base, s.now)
  {
  }

  lemma KeysOfLocked(before: map<Id, Job>, after: map<Id, Job>, claimed: seq<ClaimedJob>, now: Instant)
    requires OnlyLocked(before, after, claimed, now)
    ensures after.Keys == before.Keys
  {
  }

  lemma {:induction false} ClaimsAreQuiet(claimed: seq<ClaimedJob>, base: Id)
    ensures forall e :: e in ClaimEvents(claimed, base) ==> !(e.Wrk? && e.w.WriteBack?)
    decreases |claimed|
  {
    if claimed != [] {
      ClaimsAreQuiet(claimed[..|claimed| - 1], base);
    }
  }

  lemma OneClaim(s: State, hid: Id, id: Id)
    requires hid !in s.hands && MayClaim(s.db, id, s.now)
    ensures Next(s, Wrk(hid, ClaimJob(id))) ==
            s.(db := s.db.(jobs := s.db.jobs[id := Lock(s.db.jobs[id], s.now)]),
               hands := s.hands[hid := Hand(id, s.db.jobs[id].attempts, s.now, Claimed)])
  {
  }

  /** The limits in numbers: 10 seconds a call, 10 jobs a batch, 5 minutes a lease. */
  lemma LimitsInNumbers(runs: seq<JobRun>, d: nat, claimTime: nat)
    ensures (forall r :: r in runs ==> Within(r, d)) <==>
            forall r :: r in runs ==> r.load <= d && r.write <= d && r.call <= 10_000_000
    ensures claimTime + BATCH * (HTTP_TIMEOUT + 2 * d) < LEASE <==> claimTime + 10 * (10_000_000 + 2 * d) < 300_000_000
  {
  }

  /** What a batch takes: jobs that are due, and all of them unless the batch is full. */
  lemma WhatIsTaken(jobs: map<Id, Job>, now: Instant, locked: set<Id>, taken: seq<ClaimedJob>)
    requires var candidates := set id | id in jobs && Claimable(jobs[id], now, LEASE) && id !in locked;
             taken == [] || OldestFirst(jobs, candidates, BATCH, taken)
    ensures |taken| <= 10
    ensures forall i :: 0 <= i < |taken| ==>
              && taken[i].booking in jobs && taken[i].booking !in locked
              && (var j := jobs[taken[i].booking];
                  && Unfinished(j) && taken[i].attempts == j.attempts
                  && (j.status == JobPending && j.nextRetry.Some? ==> j.nextRetry.value <= now)
                  && (j.status == JobProcessing && j.lockedAt.Some? ==> j.lockedAt.value + 300_000_000 <= now))
    ensures var candidates := set id | id in jobs && Claimable(jobs[id], now, LEASE) && id !in locked;
            OldestFirst(jobs, candidates, BATCH, taken) && |taken| < 10 ==>
              forall id :: id in jobs && id !in locked && !IsClaimed(taken, id) ==>
                var j := jobs[id];
                && (j.status == JobPending ==> j.nextRetry.Some? && now < j.nextRetry.value)
                && (j.status == JobProcessing ==> j.lockedAt.Some? && now < j.lockedAt.value + 300_000_000)
  {
    var candidates := set id | id in jobs && Claimable(jobs[id], now, LEASE) && id !in locked;
    if OldestFirst(jobs, candidates, BATCH, taken) {
      WhoIsClaimed(jobs, candidates, BATCH, taken);
    }
  }

  lemma RunIsWithin(runs: seq<JobRun>, n: nat, d: nat)
    requires forall r :: r in runs ==> Within(r, d)
    ensures Within(RunAt(runs, n), d)
  {
    assert n < |runs| ==> runs[n] in runs;
  }

  lemma BatchArithmetic(i: nat, claimTime: nat, d: nat, r: JobRun)
    requires Within(r, d) && i < BATCH && claimTime + BATCH * (HTTP_TIMEOUT + 2 * d) < LEASE
    ensures r.load + r.call + r.write <= HTTP_TIMEOUT + 2 * d
    ensures i * (HTTP_TIMEOUT + 2 * d) + (HTTP_TIMEOUT + 2 * d) == (i + 1) * (HTTP_TIMEOUT + 2 * d)
    ensures claimTime + (i + 1) * (HTTP_TIMEOUT + 2 * d) < LEASE
  {
    BatchBound(i + 1, HTTP_TIMEOUT + 2 * d);
  }

  lemma BatchBound(n: nat, t: nat)
    requires n <= BATCH
    ensures n * t <= BATCH * t
  {
  }

  lemma AnyRuns(before: Db, after: Db, taken: seq<ClaimedJob>, runs: seq<JobRun>, now: Instant, ended: Instant)
    requires PassedTo(before, after, taken, [], 0, now, ended)
    ensures PassedTo(before, after, taken, runs, 0, now, ended)
  {
  }

  lemma NextWaits(before: Db, after: Db, claimed: seq<ClaimedJob>, runs: seq<JobRun>, i: nat, claimedAt: Instant,
                  ended: Instant)
    requires PassedTo(before, after, claimed, runs, i, claimedAt, ended) && i < |claimed|
    ensures Writable(after, claimed[i].booking)
  {
    assert Waiting(before, after, claimed[i].booking, claimedAt);
  }

  lemma NextInHand(hands: map<Id, Hand>, claimed: seq<ClaimedJob>, base: Id, i: nat, now: Instant)
    requires InHands(hands, claimed, base, i, now) && i < |claimed|
    ensures HandFor(hands, claimed[i], base + i, now)
  {
  }

  /** Handling one claimed job settles it and leaves every other job and booking as it was. */
  lemma PassStep(before: Db, mid: Db, after: Db, claimed: seq<ClaimedJob>, runs: seq<JobRun>, i: nat,
                 claimedAt: Instant, began: Instant)
    requires i < |claimed| && Distinct(claimed) && claimedAt <= began
    requires PassedTo(before, mid, claimed, runs, i, claimedAt, began)
    requires after == Handled(mid, claimed[i], RunAt(runs, i), began)
    ensures PassedTo(before, after, claimed, runs, i + 1, claimedAt,
                     began + Duration(mid, claimed[i].booking, RunAt(runs, i)))
  {
    hide Settled;
    var id, r := claimed[i].booking, RunAt(runs, i);
    var ended := began + Duration(mid, id, r);
    assert Waiting(before, mid, id, claimedAt);
    HandledTouchesOne(mid, claimed[i], r, began);
    JobSettles(before, mid, claimed[i], r, claimedAt, began);
    forall k | 0 <= k < |claimed| && k != i
      ensures if k < i then Settled(before, after, claimed[k], RunAt(runs, k), claimedAt, ended)
              else Waiting(before, after, claimed[k].booking, claimedAt)
    {
      assert claimed[k].booking != id;
      if k < i {
        StaysSettled(before, mid, after, claimed[k], RunAt(runs, k), claimedAt, began, ended);
      } else {
        assert Waiting(before, mid, claimed[k].booking, claimedAt);
      }
    }
    assert IsClaimed(claimed, id);
  }

  lemma HandledTouchesOne(db: Db, job: ClaimedJob, r: JobRun, began: Instant)
    ensures var after := Handled(db, job, r, began);
            && after.jobs.Keys == db.jobs.Keys && after.bookings.Keys == db.bookings.Keys
            && (forall k :: k in db.jobs && k != job.booking ==> after.jobs[k] == db.jobs[k])
            && (forall k :: k in db.bookings && k != job.booking ==> after.bookings[k] == db.bookings[k])
  {
    hide WriteFor, VerdictOf;
  }

  lemma JobSettles(before: Db, mid: Db, job: ClaimedJob, r: JobRun, claimedAt: Instant, began: Instant)
    requires Waiting(before, mid, job.booking, claimedAt) && claimedAt <= began
    ensures Settled(before, Handled(mid, job, r, began), job, r, claimedAt, began + Duration(mid, job.booking, r))
  {
    var after := Handled(mid, job, r, began);
    HandledTouchesOne(mid, job, r, began);
    var at := if Duration(mid, job.booking, r) == r.load + r.call + r.write then began + r.load + r.call else began;
    assert SettledAt(before, after, job, r, claimedAt, at);
  }

  lemma StaysSettled(before: Db, mid: Db, after: Db, job: ClaimedJob, r: JobRun, claimedAt: Instant, ended: Instant,
                     later: Instant)
    requires Settled(before, mid, job, r, claimedAt, ended) && ended <= later
    requires after.jobs.Keys == mid.jobs.Keys && after.bookings.Keys == mid.bookings.Keys
    requires job.booking in mid.jobs ==> after.jobs[job.booking] == mid.jobs[job.booking]
    requires job.booking in mid.bookings ==> after.bookings[job.booking] == mid.bookings[job.booking]
    ensures Settled(before, after, job, r, claimedAt, later)
  {
    var at: Instant :| claimedAt <= at <= ended && SettledAt(before, mid, job, r, claimedAt, at);
    assert SettledAt(before, after, job, r, claimedAt, at);
  }

  /** Mishaps counts the jobs whose load or whose write failed. */
  lemma {:induction false} MishapsCounts(runs: seq<JobRun>, n: nat)
    ensures Mishaps(runs, n) ==
            |set i | 0 <= i < n && (RunAt(runs, i).loadFails || RunAt(runs, i).writeFault != NoFault)|
    decreases n
  {
    if n == 0 {
    } else {
      MishapsCounts(runs, n - 1);
      var before := set i | 0 <= i < n - 1 && (RunAt(runs, i).loadFails || RunAt(runs, i).writeFault != NoFault);
      var after := set i | 0 <= i < n && (RunAt(runs, i).loadFails || RunAt(runs, i).writeFault != NoFault);
      if RunAt(runs, n - 1).loadFails || RunAt(runs, n - 1).writeFault != NoFault {
        assert after == before + {n - 1};
      } else {
        assert after == before;
      }
    }
  }

  /** What handling a job does, column by column: it discards, publishes, fails or sends back after 2, 4, 8 or 16
      seconds, and touches no other job and no other booking. */
  lemma HandledInColumns(db: Db, job: ClaimedJob, r: JobRun, began: Instant)
    requires job.booking in db.bookings
    ensures var id := job.booking;
            var b, after := db.bookings[id], Handled(db, job, r, began);
            if r.loadFails || r.writeFault == FailBefore || id !in db.jobs || db.jobs[id].status != JobProcessing then
              after == db
            else
              && id in after.jobs && after.jobs == db.jobs[id := after.jobs[id]]
              && id in after.bookings && after.bookings == db.bookings[id := after.bookings[id]]
              && HandledTo(b, after.bookings[id], db.jobs[id], after.jobs[id], job, r, began + r.load + r.call)
  {
    ChoiceColumns(VerdictOf(db, job.booking, r.answer, began + r.load + r.call), job.attempts);
  }

  /** The row and the job of a handled booking, before and after; at is when its call ended. */
  predicate HandledTo(b: Booking, c: Booking, j: Job, k: Job, job: ClaimedJob, r: JobRun, at: Instant) {
    && k.lockedAt == None && k.createdAt == j.createdAt
    && (b.status == Cancelled ==>
          c == b.(conf := NotRequested) && k.status == JobDone && k.attempts == job.attempts && k.nextRetry == None)
    && (b.status == Active && r.answer == NoFault ==>
          && c == b.(conf := Ready, link := Some(LinkFor(job.booking)))
          && k.status == JobDone && k.attempts == job.attempts + 1 && k.nextRetry == None)
    && (b.status == Active && r.answer != NoFault && job.attempts >= 4 ==>
          c == b.(conf := Failed) && k.status == JobFailed && k.attempts == job.attempts + 1 && k.nextRetry == None)
    && (b.status == Active && r.answer != NoFault && job.attempts <= 3 ==>
          && c == b && k.status == JobPending && k.attempts == job.attempts + 1
          && k.nextRetry == Some(at + 1_000_000 * (if job.attempts == 0 then 2 else if job.attempts == 1 then 4
                                                   else if job.attempts == 2 then 8 else 16)))
  }

  /** A settled job, in the same columns. */
  lemma SettledInColumns(before: Db, after: Db, job: ClaimedJob, r: JobRun, claimedAt: Instant, ended: Instant)
    requires Settled(before, after, job, r, claimedAt, ended)
    ensures var id := job.booking;
            && id in before.jobs && id in after.jobs && id in before.bookings && id in after.bookings
            && (if r.loadFails || r.writeFault == FailBefore then
                  && after.bookings[id] == before.bookings[id]
                  && after.jobs[id] == before.jobs[id].(status := JobProcessing, lockedAt := Some(claimedAt))
                else
                  exists at: Instant {:trigger HandledTo(before.bookings[id], after.bookings[id], before.jobs[id],
                                                         after.jobs[id], job, r, at)} ::
                    claimedAt <= at <= ended
                    && HandledTo(before.bookings[id], after.bookings[id], before.jobs[id], after.jobs[id], job, r, at))
  {
    var id := job.booking;
    var at: Instant :| claimedAt <= at <= ended && SettledAt(before, after, job, r, claimedAt, at);
    ChoiceColumns(VerdictOf(before, id, r.answer, at), job.attempts);
    if !Unwritten(r) {
      assert HandledTo(before.bookings[id], after.bookings[id], before.jobs[id], after.jobs[id], job, r, at);
    }
  }

  lemma DurationIsBounded(db: Db, booking: Id, r: JobRun)
    ensures 0 <= Duration(db, booking, r) <= r.load + r.call + r.write
  {
  }
}
