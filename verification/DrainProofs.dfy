/** Progress: a punctual queue drains, whatever the external service answers. */
module DrainProofs {
  import opened Common
  import opened BookingTables
  import opened Platform
  import opened JobProofs
  import opened SagaProofs
  import opened LeaseProofs

  /** The attempts an unfinished job has left. */
  function Left(j: Job): nat {
    if Unfinished(j) && j.attempts < MAX_ATTEMPTS then MAX_ATTEMPTS - j.attempts else 0
  }

  /** The attempts left over a set of jobs. */
  ghost function LeftOver(jobs: map<Id, Job>, ids: set<Id>): nat
    requires ids <= jobs.Keys
  {
    if ids == {} then 0
    else
      var id :| id in ids;
      Left(jobs[id]) + LeftOver(jobs, ids - {id})
  }

  ghost function Potential(jobs: map<Id, Job>): nat {
    LeftOver(jobs, jobs.Keys)
  }

  /** The sum does not depend on the order in which it is taken. */
  lemma {:induction false} LeftOverSplits(jobs: map<Id, Job>, ids: set<Id>, id: Id)
    requires ids <= jobs.Keys && id in ids
    ensures LeftOver(jobs, ids) == Left(jobs[id]) + LeftOver(jobs, ids - {id})
    decreases ids
  {
    var x :| x in ids && LeftOver(jobs, ids) == Left(jobs[x]) + LeftOver(jobs, ids - {x});
    if x != id {
      LeftOverSplits(jobs, ids - {x}, id);
      LeftOverSplits(jobs, ids - {id}, x);
      assert ids - {x} - {id} == ids - {id} - {x};
    }
  }

  lemma {:induction false} LeftOverSame(a: map<Id, Job>, b: map<Id, Job>, ids: set<Id>)
    requires ids <= a.Keys && ids <= b.Keys
    requires forall id :: id in ids ==> a[id] == b[id]
    ensures LeftOver(a, ids) == LeftOver(b, ids)
    decreases ids
  {
    if ids != {} {
      var x :| x in ids;
      LeftOverSplits(a, ids, x);
      LeftOverSplits(b, ids, x);
      LeftOverSame(a, b, ids - {x});
    }
  }

  /** Changing one job changes the potential by that job's share; a new job adds its own. */
  lemma PotentialOfUpdate(before: map<Id, Job>, after: map<Id, Job>, id: Id)
    requires id in after && after == before[id := after[id]]
    ensures Potential(after) == Potential(before) + Left(after[id]) - (if id in before then Left(before[id]) else 0)
  {
    LeftOverSplits(after, after.Keys, id);
    LeftOverSame(before, after, after.Keys - {id});
    if id in before {
      LeftOverSplits(before, before.Keys, id);
      assert after.Keys == before.Keys;
    } else {
      assert before.Keys == after.Keys - {id};
    }
  }

  /** When nothing is left, every job is done or failed. */
  lemma DrainedMeansFinished(jobs: map<Id, Job>, id: Id)
    requires id in jobs && Potential(jobs) == 0
    requires Unfinished(jobs[id]) ==> jobs[id].attempts <= 4
    ensures Finished(jobs[id])
  {
    LeftOverSplits(jobs, jobs.Keys, id);
  }

  // ---------- one event ----------

  /** A worker's write that the database carried out. */
  predicate Processes(s: State, e: Event) {
    WritesBack(s, e) && e.w.writeFault != FailBefore
  }

  function NewJobs(s: State, e: Event): nat {
    if e.Cre? && e.id !in s.db.jobs && e.id in Next(s, e).db.jobs then 1 else 0
  }

  /** From a current counter, every verdict uses up at least one of the job's attempts. */
  lemma WriteSpends(j: Job, v: Verdict, attempts: nat)
    requires j.status == JobProcessing && j.attempts == attempts <= 4
    ensures var w := WriteFor(v, attempts);
            Left(Job(w.status, w.attempts, w.nextRetry, None, j.createdAt)) + 1 <= Left(j)
  {
  }

  lemma WriteDrains(s: State, e: Event)
    requires JobInv(s) && LeaseInv(s) && Processes(s, e) && Fresh(s, s.hands[e.hid])
    ensures Potential(Next(s, e).db.jobs) + 1 <= Potential(s.db.jobs)
  {
    hide NextWorker, HandOk, WriteFor;
    var h := s.hands[e.hid];
    assert OwnsLock(s, h);
    assert AttemptsOk(s.db.jobs[h.booking]);
    var w := WriteFor(h.phase.verdict, h.attempts);
    WritesTakeEffect(s, e, h.booking);
    WriteSpends(s.db.jobs[h.booking], h.phase.verdict, h.attempts);
    PotentialOfUpdate(s.db.jobs, Next(s, e).db.jobs, h.booking);
  }

  lemma ClaimCostsNothing(s: State, hid: Id, w: WorkerStep)
    requires !Processes(s, Wrk(hid, w))
    ensures Potential(NextWorker(s, hid, w).db.jobs) == Potential(s.db.jobs)
  {
    hide HandNext, HandLinks, Apply, WriteFor;
    if hid !in s.hands && w.ClaimJob? && MayClaim(s.db, w.booking, s.now) {
      PotentialOfUpdate(s.db.jobs, NextWorker(s, hid, w).db.jobs, w.booking);
    } else {
      assert NextWorker(s, hid, w).db == s.db;
    }
  }

  lemma CreateAddsOneJob(s: State, id: Id, c: CreateStep)
    ensures Potential(NextCreate(s, id, c).db.jobs) == Potential(s.db.jobs) + 5 * NewJobs(s, Cre(id, c))
  {
    hide CreateNext, CreateSlots, LeftOver;
    var after := NextCreate(s, id, c).db.jobs;
    CreateEffect(s, id, c, id);
    if id !in s.db.jobs && id in after {
      OnlyOwnJob(s, id, c);
      PotentialOfUpdate(s.db.jobs, after, id);
    } else {
      OnlyOwnJob(s, id, c);
      assert after == s.db.jobs;
    }
  }

  lemma OnlyOwnJob(s: State, id: Id, c: CreateStep)
    ensures var after := NextCreate(s, id, c).db.jobs;
            after == s.db.jobs || (id !in s.db.jobs && id in after && after == s.db.jobs[id := after[id]])
  {
    hide CreateNext, CreateSlots;
  }

  lemma NextDrains(s: State, e: Event)
    requires JobInv(s) && LeaseInv(s)
    requires WritesBack(s, e) ==> Fresh(s, s.hands[e.hid])
    ensures Potential(Next(s, e).db.jobs) + (if Processes(s, e) then 1 else 0)
            <= Potential(s.db.jobs) + 5 * NewJobs(s, e)
  {
    hide NextWorker, NextCreate, NextCancel, LeftOver, JobInv, LeaseInv;
    match e
    case Wrk(hid, w) =>
      if Processes(s, e) {
        WriteDrains(s, e);
      } else {
        ClaimCostsNothing(s, hid, w);
      }
    case Cre(id, c) => CreateAddsOneJob(s, id, c);
    case Can(pid, x) => CancelTouchesNoJob(s, pid, x);
    case _ => assert Next(s, e).db == s.db;
  }

  // ---------- whole runs ----------

  function Processed(s: State, es: seq<Event>): nat {
    if es == [] then 0
    else Processed(s, es[..|es| - 1]) + if Processes(Run(s, es[..|es| - 1]), es[|es| - 1]) then 1 else 0
  }

  function JobsCreated(s: State, es: seq<Event>): nat {
    if es == [] then 0
    else JobsCreated(s, es[..|es| - 1]) + NewJobs(Run(s, es[..|es| - 1]), es[|es| - 1])
  }

  /** The queue drains: in every punctual run of any number of workers, N jobs are processed at most 5 N
      times, and what is left of that budget bounds the attempts still to come. */
  lemma {:induction false} QueueDrains(now: Instant, es: seq<Event>)
    requires Punctual(Init(now), es)
    ensures Processed(Init(now), es) + Potential(Run(Init(now), es).db.jobs) <= 5 * JobsCreated(Init(now), es)
    decreases |es|
  {
    hide Next, Processes, NewJobs, LeaseInv, JobInv;
    if es == [] {
    } else {
      var u := Run(Init(now), es[..|es| - 1]);
      QueueDrains(now, es[..|es| - 1]);
      assert Reachable(u);
      ReachableJobs(u);
      PunctualKeepsLease(now, es[..|es| - 1]);
      NextDrains(u, es[|es| - 1]);
    }
  }

  lemma PunctualKeepsLease(now: Instant, es: seq<Event>)
    requires Punctual(Init(now), es)
    ensures LeaseInv(Run(Init(now), es))
  {
    RunKeepsLease(Init(now), es);
  }

  function UnfinishedJobs(jobs: map<Id, Job>): set<Id> {
    set id | id in jobs && Unfinished(jobs[id])
  }

  /** Every unfinished job has at least one attempt left. */
  lemma {:induction false} EachHasOneLeft(jobs: map<Id, Job>, ids: set<Id>)
    requires forall id :: id in ids ==> id in jobs && Unfinished(jobs[id]) && jobs[id].attempts <= 4
    ensures |ids| <= LeftOver(jobs, ids)
    decreases ids
  {
    if ids == {} {
    } else {
      var x :| x in ids;
      LeftOverSplits(jobs, ids, x);
      EachHasOneLeft(jobs, ids - {x});
    }
  }

  lemma {:induction false} LeftOverOfPart(jobs: map<Id, Job>, part: set<Id>, ids: set<Id>)
    requires part <= ids <= jobs.Keys
    ensures LeftOver(jobs, part) <= LeftOver(jobs, ids)
    decreases ids
  {
    if ids <= part {
      assert ids == part;
    } else {
      var x :| x in ids && x !in part;
      LeftOverSplits(jobs, ids, x);
      LeftOverOfPart(jobs, part, ids - {x});
    }
  }

  lemma UnfinishedWithin(jobs: map<Id, Job>)
    requires forall id :: id in jobs && Unfinished(jobs[id]) ==> jobs[id].attempts <= 4
    ensures |UnfinishedJobs(jobs)| <= Potential(jobs)
  {
    EachHasOneLeft(jobs, UnfinishedJobs(jobs));
    LeftOverOfPart(jobs, UnfinishedJobs(jobs), jobs.Keys);
  }

  lemma BoundedAttempts(s: State)
    requires JobInv(s)
    ensures forall id :: id in s.db.jobs && Unfinished(s.db.jobs[id]) ==> s.db.jobs[id].attempts <= 4
  {
    forall id | id in s.db.jobs && Unfinished(s.db.jobs[id])
      ensures s.db.jobs[id].attempts <= 4
    {
      assert AttemptsOk(s.db.jobs[id]);
    }
  }

  /** In every punctual run the budget of five processings a job outlasts the queue: the processings so far and
      the jobs still unfinished together never exceed it. */
  lemma BudgetOutlastsTheQueue(now: Instant, es: seq<Event>)
    requires Punctual(Init(now), es)
    ensures Processed(Init(now), es) + |UnfinishedJobs(Run(Init(now), es).db.jobs)| <= 5 * JobsCreated(Init(now), es)
  {
    hide Run, Next, Reachable, Punctual, Processes, NewJobs, LeaseInv, JobInv, SagaInv, Potential, UnfinishedJobs;
    var s := Run(Init(now), es);
    QueueDrains(now, es);
    RunIsFromInit(now, es);
    ReachableJobs(s);
    BoundedAttempts(s);
    UnfinishedWithin(s.db.jobs);
  }

  lemma RunIsFromInit(now: Instant, es: seq<Event>)
    ensures Reachable(Run(Init(now), es))
  {
  }
}
