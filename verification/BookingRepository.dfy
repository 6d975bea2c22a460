/** booking_db and the statements that booking-service runs against it. */
module BookingRepository {
  import opened Common
  import opened SlotTable
  import opened BookingTables

  /** How the booking transaction can end: normally, with a definite error, or with a commit whose
      outcome the client does not learn. */
  datatype TxFault = TxOk | TxFails | TxUnknown(applied: bool)

  datatype CreateOutcome = Stored | NotStored | OutcomeUnknown

  datatype LookupError = BookingNotFound | LookupFailed

  /** A claimed row as the worker gets it. */
  datatype ClaimedJob = ClaimedJob(booking: Id, attempts: nat)

  predicate IsClaimed(claimed: seq<ClaimedJob>, id: Id) {
    exists i :: 0 <= i < |claimed| && claimed[i].booking == id
  }

  predicate Distinct(claimed: seq<ClaimedJob>) {
    forall i, j :: 0 <= i < j < |claimed| ==> claimed[i].booking != claimed[j].booking
  }

  /** As many candidates as the limit allows, each once with its stored counter, and none younger than one left out. */
  predicate OldestFirst(jobs: map<Id, Job>, candidates: set<Id>, limit: int, claimed: seq<ClaimedJob>)
    requires candidates <= jobs.Keys
  {
    && |claimed| == (if limit <= 0 then 0 else if limit < |candidates| then limit else |candidates|)
    && Distinct(claimed)
    && (forall i :: 0 <= i < |claimed| ==>
          claimed[i].booking in candidates && claimed[i].attempts == jobs[claimed[i].booking].attempts)
    && (forall i, id :: 0 <= i < |claimed| && id in candidates && !IsClaimed(claimed, id) ==>
          jobs[claimed[i].booking].createdAt <= jobs[id].createdAt)
  }

  /** Exactly the claimed jobs are locked, and nothing else differs. */
  ghost predicate OnlyLocked(before: map<Id, Job>, after: map<Id, Job>, claimed: seq<ClaimedJob>, now: Instant) {
    && after.Keys == before.Keys
    && forall id :: id in before ==> after[id] == if IsClaimed(claimed, id) then Lock(before[id], now) else before[id]
  }

  class BookingRepository {
    var bookings: map<Id, Booking>
    var jobs: map<Id, Job>

    function Contents(): Db
      reads this
    {
      Db(bookings, jobs)
    }

    constructor ()
      ensures Contents() == Db(map[], map[])
    {
      bookings, jobs := map[], map[];
    }

    /** Booking and job are written together or not at all. */
    method CreateWithConferenceJob(id: Id, row: Booking, now: Instant, fault: TxFault) returns (r: CreateOutcome)
      modifies this
      ensures Contents() == (if fault == TxFails || fault == TxUnknown(false) then old(Contents())
                             else Create(old(Contents()), id, row, now))
      ensures r == (if fault == TxFails || !CanCreate(old(Contents()), id, row) then NotStored
                    else if fault == TxOk then Stored else OutcomeUnknown)
      ensures var fits := && id !in old(bookings) && (row.requested ==> id !in old(jobs))
                          && (row.status == Active ==>
                                forall b :: b in old(bookings) && old(bookings)[b].status == Active ==>
                                  old(bookings)[b].slot != row.slot);
              var stored := fits && (fault == TxOk || fault == TxUnknown(true));
              && (fault == TxOk ==> (r == Stored <==> fits))
              && bookings == (if stored then old(bookings)[id := row] else old(bookings))
              && (!stored || !row.requested ==> jobs == old(jobs))
              && (stored && row.requested ==>
                    && id in jobs && jobs == old(jobs)[id := jobs[id]]
                    && jobs[id].status == JobPending && jobs[id].attempts == 0 && jobs[id].createdAt == now
                    && jobs[id].nextRetry == None && jobs[id].lockedAt == None)
    {
      if fault == TxFails || !CanCreate(Contents(), id, row) {
        return NotStored;
      }
      var savedBookings, savedJobs := bookings, jobs;
      bookings := bookings[id := row];
      if row.requested {
        jobs := jobs[id := Job(JobPending, 0, None, None, now)];
      }
      if fault == TxUnknown(false) {
        bookings, jobs := savedBookings, savedJobs;
      }
      return if fault == TxOk then Stored else OutcomeUnknown;
    }

    method GetByID(id: Id, fails: bool) returns (r: Result<Booking, LookupError>)
      ensures r == if fails then Err(LookupFailed)
                   else if id in bookings then Ok(bookings[id])
                   else Err(BookingNotFound)
    {
      if fails {
        return Err(LookupFailed);
      }
      if id !in bookings {
        return Err(BookingNotFound);
      }
      return Ok(bookings[id]);
    }

    method Cancel(id: Id, now: Instant, fault: Fault) returns (r: Result<Booking, LookupError>)
      modifies this`bookings
      ensures Contents() == Faulty(fault, old(Contents()), BookingTables.Cancel(old(Contents()), id, now))
      ensures fault == NoFault && id in bookings ==> r == Ok(bookings[id])
      ensures fault == NoFault && id !in bookings ==> r == Err(BookingNotFound)
      ensures fault != NoFault ==> r == Err(LookupFailed)
      ensures fault != FailBefore && id in old(bookings) ==>
                var a := old(bookings)[id];
                && id in bookings && bookings == old(bookings)[id := bookings[id]]
                && bookings[id].status == Cancelled && bookings[id].cancelledAt == Some(now)
                && bookings[id].link == None && bookings[id].conf == (if a.requested then NotRequested else a.conf)
      ensures fault == FailBefore || id !in old(bookings) ==> bookings == old(bookings)
    {
      if fault == FailBefore {
        return Err(LookupFailed);
      }
      if id in bookings {
        bookings := bookings[id := CancelRow(bookings[id], now)];
      }
      if fault == FailAfter {
        return Err(LookupFailed);
      }
      if id !in bookings {
        return Err(BookingNotFound);
      }
      return Ok(bookings[id]);
    }

    /** The jobs a claim may take; locked are the rows another worker is claiming right now. */
    ghost function Candidates(now: Instant, lease: int, locked: set<Id>): set<Id>
      reads this
    {
      set id | id in jobs && Claimable(jobs[id], now, lease) && id !in locked
    }

    /** The claiming transaction: the oldest candidates, as many as the limit allows, are locked now; no other
        job changes. When its commit is in doubt they may be locked without the caller learning of it. */
    method ClaimConferenceJobs(limit: int, lease: int, now: Instant, locked: set<Id>, fault: Fault)
      returns (r: Result<seq<ClaimedJob>, ()>, ghost taken: seq<ClaimedJob>)
      modifies this`jobs
      ensures r == if limit <= 0 || fault == NoFault then Ok(taken) else Err(())
      ensures limit > 0 && fault == FailBefore ==> taken == [] && jobs == old(jobs)
      ensures limit <= 0 || fault != FailBefore ==>
                OldestFirst(old(jobs), old(Candidates(now, lease, locked)), limit, taken)
      ensures OnlyLocked(old(jobs), jobs, taken, now)
      ensures forall i :: 0 <= i < |taken| ==>
                && taken[i].booking in old(jobs) && taken[i].booking in jobs && taken[i].booking !in locked
                && (var j, k := old(jobs)[taken[i].booking], jobs[taken[i].booking];
                    && ((j.status == JobPending && (j.nextRetry == None || j.nextRetry.value <= now))
                        || (j.status == JobProcessing && (j.lockedAt == None || j.lockedAt.value <= now - lease)))
                    && taken[i].attempts == j.attempts == k.attempts && k.nextRetry == j.nextRetry
                    && k.status == JobProcessing && k.lockedAt == Some(now) && k.createdAt == j.createdAt)
      ensures limit > 0 && fault != FailBefore ==>
                forall id ::
                  id in old(jobs) && id !in locked && (forall i :: 0 <= i < |taken| ==> taken[i].booking != id) ==>
                  var j := old(jobs)[id];
                  (j.status == JobPending && (j.nextRetry == None || j.nextRetry.value <= now))
                  || (j.status == JobProcessing && (j.lockedAt == None || j.lockedAt.value <= now - lease))
                  ==> |taken| == limit
                      && forall i :: 0 <= i < |taken| ==> old(jobs)[taken[i].booking].createdAt <= j.createdAt
      ensures forall id :: id in old(jobs) && (forall i :: 0 <= i < |taken| ==> taken[i].booking != id) ==>
                id in jobs && jobs[id] == old(jobs)[id]
    {
      hide OldestFirst, OnlyLocked, Claimable, Lock;
      NothingClaimed(jobs, now);
      if limit <= 0 {
        NoLimit(jobs, Candidates(now, lease, locked), limit);
        return Ok([]), [];
      }
      if fault == FailBefore {
        return Err(()), [];
      }
      var candidates := set id | id in jobs && Claimable(jobs[id], now, lease) && id !in locked;
      var claimed := SelectOldest(candidates, limit);
      ghost var before := jobs;
      jobs := map id | id in jobs :: if IsClaimed(claimed, id) then Lock(jobs[id], now) else jobs[id];
      assert OnlyLocked(before, jobs, claimed, now) by { LockedIs(before, jobs, claimed, now); }
      ClaimInColumns(before, jobs, candidates, now, lease, locked, limit, claimed);
      return if fault == NoFault then Ok(claimed) else Err(()), claimed;
    }

    /** The inner SELECT: ORDER BY created_at LIMIT limit. */
    method SelectOldest(candidates: set<Id>, limit: int) returns (claimed: seq<ClaimedJob>)
      requires candidates <= jobs.Keys
      ensures OldestFirst(jobs, candidates, limit, claimed)
    {
      claimed := [];
      var rest := candidates;
      while |claimed| < limit && rest != {}
        invariant |claimed| <= limit || claimed == []
        invariant rest <= candidates && |claimed| + |rest| == |candidates|
        invariant forall id :: id in candidates <==> id in rest || IsClaimed(claimed, id)
        invariant forall i :: 0 <= i < |claimed| ==>
                    claimed[i].booking in candidates && claimed[i].booking !in rest
                    && claimed[i].attempts == jobs[claimed[i].booking].attempts
        invariant Distinct(claimed)
        invariant forall i, id :: 0 <= i < |claimed| && id in rest ==>
                  jobs[claimed[i].booking].createdAt <= jobs[id].createdAt
        decreases |rest|
      {
        var id := Oldest(rest);
        ClaimedGrows(claimed, id, jobs[id].attempts);
        claimed := claimed + [ClaimedJob(id, jobs[id].attempts)];
        rest := rest - {id};
      }
    }

    method Oldest(ids: set<Id>) returns (oldest: Id)
      requires ids != {} && ids <= jobs.Keys
      ensures oldest in ids && forall id :: id in ids ==> jobs[oldest].createdAt <= jobs[id].createdAt
    {
      oldest :| oldest in ids;
      var rest := ids - {oldest};
      while rest != {}
        invariant rest <= ids && oldest in ids
        invariant forall id :: id in ids - rest ==> jobs[oldest].createdAt <= jobs[id].createdAt
        decreases |rest|
      {
        var id :| id in rest;
        if jobs[id].createdAt < jobs[oldest].createdAt {
          oldest := id;
        }
        rest := rest - {id};
      }
    }

    method RescheduleConferenceJob(id: Id, attempts: nat, nextRetry: Instant, fault: Fault) returns (ok: bool)
      modifies this`jobs
      ensures Contents() == Faulty(fault, old(Contents()),
                                   Apply(old(Contents()), id, Rescheduling(attempts, nextRetry)))
      ensures ok <==> fault == NoFault && Writable(old(Contents()), id)
    {
      if fault == FailBefore {
        return false;
      }
      var affected := 0;
      if id in jobs && jobs[id].status == JobProcessing {
        jobs := jobs[id := jobs[id].(status := JobPending, attempts := attempts, nextRetry := Some(nextRetry),
                                     lockedAt := None)];
        affected := 1;
      }
      return fault == NoFault && affected == 1;
    }

    method CompleteConferenceJob(id: Id, link: Link, attempts: nat, fault: Fault) returns (ok: bool)
      modifies this
      ensures Contents() == Faulty(fault, old(Contents()), Apply(old(Contents()), id, Completion(link, attempts)))
      ensures ok <==> fault == NoFault && Writable(old(Contents()), id)
    {
      ok := FinishConferenceJob(id, SetReady(link), JobDone, attempts, fault);
    }

    method FailConferenceJob(id: Id, attempts: nat, fault: Fault) returns (ok: bool)
      modifies this
      ensures Contents() == Faulty(fault, old(Contents()), Apply(old(Contents()), id, Failure(attempts)))
      ensures ok <==> fault == NoFault && Writable(old(Contents()), id)
    {
      ok := FinishConferenceJob(id, SetFailed, JobFailed, attempts, fault);
    }

    method DiscardConferenceJob(id: Id, attempts: nat, fault: Fault) returns (ok: bool)
      modifies this
      ensures Contents() == Faulty(fault, old(Contents()), Apply(old(Contents()), id, Discarding(attempts)))
      ensures ok <==> fault == NoFault && Writable(old(Contents()), id)
    {
      ok := FinishConferenceJob(id, SetNotRequested, JobDone, attempts, fault);
    }

    /** The booking is updated first; when the job turns out not to be processing, that update is rolled back. */
    method FinishConferenceJob(id: Id, u: BookingUpdate, status: JobStatus, attempts: nat, fault: Fault)
      returns (ok: bool)
      modifies this
      ensures Contents() == Faulty(fault, old(Contents()),
                                   Apply(old(Contents()), id, JobWrite(Some(u), status, attempts, None)))
      ensures ok <==> fault == NoFault && Writable(old(Contents()), id)
    {
      if fault == FailBefore {
        return false;
      }
      var saved := bookings;
      if id in bookings {
        bookings := bookings[id := UpdateRow(bookings[id], u)];
      }
      var affected := 0;
      if id in jobs && jobs[id].status == JobProcessing {
        jobs := jobs[id := jobs[id].(status := status, attempts := attempts, nextRetry := None, lockedAt := None)];
        affected := 1;
      }
      if affected != 1 {
        bookings := saved;
        return false;
      }
      return fault == NoFault;
    }
  }

  lemma NothingClaimed(jobs: map<Id, Job>, now: Instant)
    ensures OnlyLocked(jobs, jobs, [], now)
  {
  }

  lemma NoLimit(jobs: map<Id, Job>, candidates: set<Id>, limit: int)
    requires candidates <= jobs.Keys && limit <= 0
    ensures OldestFirst(jobs, candidates, limit, [])
  {
  }

  lemma LockedIs(before: map<Id, Job>, after: map<Id, Job>, claimed: seq<ClaimedJob>, now: Instant)
    requires after == map id | id in before :: if IsClaimed(claimed, id) then Lock(before[id], now) else before[id]
    ensures OnlyLocked(before, after, claimed, now)
  {
    hide Lock, IsClaimed;
  }

  /** A claim, column by column: who may be taken, who must be, and what it changes. */
  lemma ClaimInColumns(before: map<Id, Job>, after: map<Id, Job>, candidates: set<Id>, now: Instant, lease: int,
                       locked: set<Id>, limit: int, taken: seq<ClaimedJob>)
    requires candidates == set id | id in before && Claimable(before[id], now, lease) && id !in locked
    requires limit > 0 && OldestFirst(before, candidates, limit, taken) && OnlyLocked(before, after, taken, now)
    ensures forall i :: 0 <= i < |taken| ==>
              && taken[i].booking in before && taken[i].booking in after && taken[i].booking !in locked
              && (var j, k := before[taken[i].booking], after[taken[i].booking];
                  && ((j.status == JobPending && (j.nextRetry == None || j.nextRetry.value <= now))
                      || (j.status == JobProcessing && (j.lockedAt == None || j.lockedAt.value <= now - lease)))
                  && taken[i].attempts == j.attempts == k.attempts && k.nextRetry == j.nextRetry
                  && k.status == JobProcessing && k.lockedAt == Some(now) && k.createdAt == j.createdAt)
    ensures forall id :: id in before && id !in locked && (forall i :: 0 <= i < |taken| ==> taken[i].booking != id) ==>
              var j := before[id];
              (j.status == JobPending && (j.nextRetry == None || j.nextRetry.value <= now))
              || (j.status == JobProcessing && (j.lockedAt == None || j.lockedAt.value <= now - lease))
              ==> |taken| == limit
                  && forall i :: 0 <= i < |taken| ==> before[taken[i].booking].createdAt <= j.createdAt
    ensures forall id :: id in before && (forall i :: 0 <= i < |taken| ==> taken[i].booking != id) ==>
              id in after && after[id] == before[id]
  {
    WhoIsClaimed(before, candidates, limit, taken);
  }

  lemma WhoIsClaimed(jobs: map<Id, Job>, candidates: set<Id>, limit: int, claimed: seq<ClaimedJob>)
    requires candidates <= jobs.Keys && OldestFirst(jobs, candidates, limit, claimed) && limit > 0
    ensures forall i :: 0 <= i < |claimed| ==> IsClaimed(claimed, claimed[i].booking)
    ensures forall id :: id in candidates && !IsClaimed(claimed, id) ==> |claimed| == limit
  {
    forall id | id in candidates && !IsClaimed(claimed, id)
      ensures |claimed| == limit
    {
      DistinctWithin(claimed, candidates - {id});
    }
  }

  /** Distinct jobs of a set are at most as many as the set. */
  lemma {:induction false} DistinctWithin(claimed: seq<ClaimedJob>, ids: set<Id>)
    requires Distinct(claimed) && forall i :: 0 <= i < |claimed| ==> claimed[i].booking in ids
    ensures |claimed| <= |ids|
    decreases |claimed|
  {
    if claimed == [] {
    } else {
      var last := claimed[|claimed| - 1].booking;
      DistinctWithin(claimed[..|claimed| - 1], ids - {last});
    }
  }

  lemma ClaimedGrows(claimed: seq<ClaimedJob>, id: Id, attempts: nat)
    ensures forall k :: IsClaimed(claimed + [ClaimedJob(id, attempts)], k) <==> IsClaimed(claimed, k) || k == id
  {
    var more := claimed + [ClaimedJob(id, attempts)];
    assert more[|claimed|].booking == id;
    forall k | IsClaimed(claimed, k)
      ensures IsClaimed(more, k)
    {
      var i :| 0 <= i < |claimed| && claimed[i].booking == k;
      assert more[i].booking == k;
    }
  }
}
