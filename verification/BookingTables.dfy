/** The bookings and conference_jobs tables of booking_db and the effect of each statement on them. */
module BookingTables {
  import opened Common
  import opened SlotTable

  const SECOND: int := 1_000_000
  const LEASE: int := 300_000_000
  const BATCH: nat := 10
  const MAX_ATTEMPTS: nat := 5

  type Link = string

  datatype BookingStatus = Active | Cancelled
  datatype ConfStatus = NotRequested | Pending | Ready | Failed
  datatype JobStatus = JobPending | JobProcessing | JobDone | JobFailed

  datatype Booking = Booking(slot: Id, user: Id, room: Id, status: BookingStatus,
                             link: Option<Link>, requested: bool, conf: ConfStatus,
                             startAt: Instant, endAt: Instant, cancelledAt: Option<Instant>)

  datatype Job = Job(status: JobStatus, attempts: nat, nextRetry: Option<Instant>,
                     lockedAt: Option<Instant>, createdAt: Instant)

  datatype Db = Db(bookings: map<Id, Booking>, jobs: map<Id, Job>)

  /** The row CreateBooking writes for a slot it has just reserved. */
  function NewBooking(meta: SlotMeta, user: Id, requested: bool): Booking {
    Booking(meta.slot, user, meta.room, Active, None, requested,
            if requested then Pending else NotRequested, meta.startAt, meta.endAt, None)
  }

  /** Primary keys, and the partial unique index on the slots of active bookings. */
  predicate CanCreate(db: Db, id: Id, row: Booking) {
    && id !in db.bookings
    && (row.requested ==> id !in db.jobs)
    && (row.status == Active ==>
          forall b :: b in db.bookings && db.bookings[b].status == Active ==> db.bookings[b].slot != row.slot)
  }

  /** CreateWithConferenceJob: booking and job in one transaction, or neither. */
  function Create(db: Db, id: Id, row: Booking, now: Instant): Db {
    if !CanCreate(db, id, row) then db
    else Db(db.bookings[id := row],
            if row.requested then db.jobs[id := Job(JobPending, 0, None, None, now)] else db.jobs)
  }

  function CancelRow(b: Booking, now: Instant): Booking {
    b.(status := Cancelled, cancelledAt := Some(now), link := None,
       conf := if b.requested then NotRequested else b.conf)
  }

  /** The cancelling UPDATE: keyed by id alone, so it also hits a row that is already cancelled. */
  function Cancel(db: Db, id: Id, now: Instant): Db {
    if id in db.bookings then db.(bookings := db.bookings[id := CancelRow(db.bookings[id], now)]) else db
  }

  /** The WHERE clause of the claim. */
  predicate Claimable(j: Job, now: Instant, lease: int) {
    || (j.status == JobPending && (j.nextRetry.Some? ==> j.nextRetry.value <= now))
    || (j.status == JobProcessing && (j.lockedAt.Some? ==> j.lockedAt.value <= now - lease))
  }

  function Lock(j: Job, now: Instant): Job {
    j.(status := JobProcessing, lockedAt := Some(now))
  }

  function Claim(db: Db, id: Id, now: Instant): Db {
    if id in db.jobs && Claimable(db.jobs[id], now, LEASE) then db.(jobs := db.jobs[id := Lock(db.jobs[id], now)])
    else db
  }

  /** The guard shared by every worker write: WHERE booking_id = $1 AND status = 'processing'. */
  predicate Writable(db: Db, id: Id) {
    id in db.jobs && db.jobs[id].status == JobProcessing
  }

  /** The booking half of the three finishing transactions. */
  datatype BookingUpdate = SetReady(link: Link) | SetFailed | SetNotRequested

  function UpdateRow(b: Booking, u: BookingUpdate): Booking {
    match u
    case SetReady(link) => if b.status == Active then b.(link := Some(link), conf := Ready) else b
    case SetFailed => if b.status == Active then b.(conf := Failed) else b
    case SetNotRequested => b.(conf := NotRequested)
  }

  function UpdateBooking(bookings: map<Id, Booking>, id: Id, u: BookingUpdate): map<Id, Booking> {
    if id in bookings then bookings[id := UpdateRow(bookings[id], u)] else bookings
  }

  /** What a worker's write sets: the booking half, if any, and the job's columns. locked_at becomes NULL. */
  datatype JobWrite = JobWrite(update: Option<BookingUpdate>, status: JobStatus, attempts: nat,
                               nextRetry: Option<Instant>)

  /** Both updates in one transaction, or a rollback when no processing job matched. */
  function Apply(db: Db, id: Id, w: JobWrite): Db {
    if Writable(db, id)
    then Db(if w.update.Some? then UpdateBooking(db.bookings, id, w.update.value) else db.bookings,
            db.jobs[id := Job(w.status, w.attempts, w.nextRetry, None, db.jobs[id].createdAt)])
    else db
  }

  function Completion(link: Link, attempts: nat): JobWrite {
    JobWrite(Some(SetReady(link)), JobDone, attempts, None)
  }

  function Failure(attempts: nat): JobWrite {
    JobWrite(Some(SetFailed), JobFailed, attempts, None)
  }

  function Discarding(attempts: nat): JobWrite {
    JobWrite(Some(SetNotRequested), JobDone, attempts, None)
  }

  function Rescheduling(attempts: nat, nextRetry: Instant): JobWrite {
    JobWrite(None, JobPending, attempts, Some(nextRetry))
  }

  /** 1 << attempts. */
  function Pow2(n: nat): nat {
    if n == 0 then 1 else 2 * Pow2(n - 1)
  }

  function Backoff(attempts: nat): int {
    Pow2(attempts) * 1_000_000
  }

  /** What a worker knows once it has loaded the booking and had the external service's answer. */
  datatype Verdict = BookingCancelled | LinkReady(link: Link) | CallFailed(at: Instant)

  /** processJob's four writes, from the attempts counter the worker claimed. */
  function WriteFor(v: Verdict, attempts: nat): JobWrite {
    match v
    case BookingCancelled => Discarding(attempts)
    case LinkReady(link) => Completion(link, attempts + 1)
    case CallFailed(at) =>
      if attempts + 1 >= MAX_ATTEMPTS then Failure(attempts + 1)
      else Rescheduling(attempts + 1, at + Backoff(attempts + 1))
  }

  // ---------- the statements, column by column ----------

  /** The row that CreateBooking writes. */
  lemma NewBookingColumns(meta: SlotMeta, user: Id, requested: bool)
    ensures var b := NewBooking(meta, user, requested);
            && b.slot == meta.slot && b.room == meta.room && b.startAt == meta.startAt && b.endAt == meta.endAt
            && b.user == user && b.status == Active && b.requested == requested && b.link == None
            && b.cancelledAt == None && b.conf == if requested then Pending else NotRequested
  {
  }

  /** When the creating transaction commits, and what it inserts. */
  lemma CreateColumns(db: Db, id: Id, row: Booking, now: Instant)
    ensures var fits := && id !in db.bookings && (row.requested ==> id !in db.jobs)
                        && (row.status == Active ==>
                              forall b :: b in db.bookings && db.bookings[b].status == Active ==>
                                db.bookings[b].slot != row.slot);
            var after := Create(db, id, row, now);
            && (CanCreate(db, id, row) <==> fits)
            && after.bookings == (if fits then db.bookings[id := row] else db.bookings)
            && (if fits && row.requested then
                  && id in after.jobs && after.jobs == db.jobs[id := after.jobs[id]]
                  && after.jobs[id].status == JobPending && after.jobs[id].attempts == 0
                  && after.jobs[id].nextRetry == None && after.jobs[id].lockedAt == None
                  && after.jobs[id].createdAt == now
                else after.jobs == db.jobs)
  {
  }

  /** The cancelling UPDATE. */
  lemma CancelColumns(db: Db, id: Id, now: Instant)
    ensures var after := Cancel(db, id, now);
            && after.jobs == db.jobs
            && (if id in db.bookings then
                  var a, b := db.bookings[id], after.bookings[id];
                  && after.bookings == db.bookings[id := b]
                  && b.status == Cancelled && b.cancelledAt == Some(now) && b.link == None
                  && b.conf == (if a.requested then NotRequested else a.conf)
                  && b.slot == a.slot && b.user == a.user && b.room == a.room && b.requested == a.requested
                  && b.startAt == a.startAt && b.endAt == a.endAt
                else after.bookings == db.bookings)
  {
  }

  /** Which jobs a claim may take, and what it does to one. */
  lemma ClaimColumns(j: Job, now: Instant, lease: int)
    ensures Claimable(j, now, lease) <==>
            || (j.status == JobPending && (j.nextRetry == None || j.nextRetry.value <= now))
            || (j.status == JobProcessing && (j.lockedAt == None || j.lockedAt.value <= now - lease))
    ensures var l := Lock(j, now);
            && l.status == JobProcessing && l.lockedAt == Some(now)
            && l.attempts == j.attempts && l.nextRetry == j.nextRetry && l.createdAt == j.createdAt
  {
  }

  /** A worker's write: it needs a processing job, and otherwise changes neither table. */
  lemma WriteColumns(db: Db, id: Id, w: JobWrite)
    ensures var after := Apply(db, id, w);
            if id in db.jobs && db.jobs[id].status == JobProcessing then
              && id in after.jobs && after.jobs == db.jobs[id := after.jobs[id]]
              && after.jobs[id].status == w.status && after.jobs[id].attempts == w.attempts
              && after.jobs[id].nextRetry == w.nextRetry && after.jobs[id].lockedAt == None
              && after.jobs[id].createdAt == db.jobs[id].createdAt
              && (if w.update.Some? && id in db.bookings then
                    id in after.bookings && after.bookings == db.bookings[id := after.bookings[id]]
                  else after.bookings == db.bookings)
            else after == db
  {
  }

  /** The booking half of a finishing write: only a discard touches a cancelled booking, and only its status. */
  lemma UpdateColumns(b: Booking, u: BookingUpdate)
    ensures var a := UpdateRow(b, u);
            && a == b.(link := a.link, conf := a.conf)
            && (u == SetNotRequested ==> a.conf == NotRequested && a.link == b.link)
            && (u != SetNotRequested && b.status == Cancelled ==> a == b)
            && (u == SetFailed && b.status == Active ==> a.conf == Failed && a.link == b.link)
            && (u.SetReady? && b.status == Active ==> a.conf == Ready && a.link == Some(u.link))
  {
  }

  /** processJob's choice: discard, complete, fail after the fifth attempt, or retry after 2, 4, 8 or 16 seconds. */
  lemma ChoiceColumns(v: Verdict, attempts: nat)
    ensures var w := WriteFor(v, attempts);
            && (v == BookingCancelled ==>
                  && w.update == Some(SetNotRequested) && w.status == JobDone && w.attempts == attempts
                  && w.nextRetry == None)
            && (v.LinkReady? ==>
                  && w.update == Some(SetReady(v.link)) && w.status == JobDone && w.attempts == attempts + 1
                  && w.nextRetry == None)
            && (v.CallFailed? && attempts >= 4 ==>
                  && w.update == Some(SetFailed) && w.status == JobFailed && w.attempts == attempts + 1
                  && w.nextRetry == None)
            && (v.CallFailed? && attempts <= 3 ==>
                  && w.update == None && w.status == JobPending && w.attempts == attempts + 1
                  && w.nextRetry == Some(v.at + 1_000_000 * (if attempts == 0 then 2 else if attempts == 1 then 4
                                                             else if attempts == 2 then 8 else 16)))
  {
    assert Pow2(1) == 2 && Pow2(2) == 4 && Pow2(3) == 8 && Pow2(4) == 16;
  }

  predicate Unfinished(j: Job) {
    j.status == JobPending || j.status == JobProcessing
  }

  /** No two active bookings share a slot. */
  ghost predicate UniqueActive(bookings: map<Id, Booking>) {
    forall a, b :: a in bookings && b in bookings && Rivals(bookings[a], bookings[b]) ==> a == b
  }

  predicate Rivals(a: Booking, b: Booking) {
    a.status == Active && b.status == Active && a.slot == b.slot
  }
}
