/** The queue can always be drained: whatever the external service answers, N jobs need at most 5 N processings. */
module QueueProgress {
  import opened Common
  import opened SlotTable
  import opened BookingTables
  import opened ConferenceStore
  import opened Platform
  import opened SagaProofs
  import opened JobProofs
  import opened LeaseProofs
  import opened DrainProofs

  // ---------- one job, once ----------

  /** How long until the claim's WHERE clause holds of an unfinished job. */
  function WaitFor(j: Job, now: Instant): nat {
    var due := match j.status
      case JobPending => if j.nextRetry.Some? then j.nextRetry.value else now
      case _ => if j.lockedAt.Some? then j.lockedAt.value + LEASE else now;
    if due <= now then 0 else due - now
  }

  /** One worker takes one job all the way. */
  function Round(hid: Id, id: Id, wait: nat, answer: Fault): seq<Event> {
    [Tick(wait), Wrk(hid, ClaimJob(id)), Wrk(hid, Load), Wrk(hid, Ask(answer)), Wrk(hid, WriteBack(NoFault))]
  }

  lemma WaitedIsClaimable(j: Job, now: Instant)
    requires Unfinished(j)
    ensures Claimable(j, now + WaitFor(j, now), LEASE)
  {
  }

  /** The hand after loading the booking. */
  function LoadedHand(db: Db, id: Id, now: Instant): Hand
    requires id in db.jobs && id in db.bookings
  {
    Hand(id, db.jobs[id].attempts, now,
         if db.bookings[id].status == Cancelled then Decided(BookingCancelled) else Loaded)
  }

  lemma ClaimAndLoad(s: State, hid: Id, id: Id)
    requires hid !in s.hands && MayClaim(s.db, id, s.now) && id in s.db.bookings
    ensures Next(Next(s, Wrk(hid, ClaimJob(id))), Wrk(hid, Load)) ==
            s.(db := s.db.(jobs := s.db.jobs[id := Lock(s.db.jobs[id], s.now)]),
               hands := s.hands[hid := LoadedHand(s.db, id, s.now)])
  {
    hide Claimable, Lock;
  }

  /** What the worker decides, given the answer. */
  function Decision(h: Hand, answer: Fault, at: Instant): Verdict {
    if h.phase.Decided? then h.phase.verdict
    else if answer == NoFault then LinkReady(LinkFor(h.booking))
    else CallFailed(at)
  }

  lemma AskAndWrite(s: State, hid: Id, h: Hand, answer: Fault)
    requires hid in s.hands && s.hands[hid] == h && Derived(s.links)
    requires h.phase.Loaded? || h.phase.Decided?
    ensures var u := Next(s, Wrk(hid, Ask(answer)));
            && hid in u.hands && u.hands[hid] == h.(phase := Decided(Decision(h, answer, s.now)))
            && u.now == s.now && u.db == s.db
    ensures var t := Next(Next(s, Wrk(hid, Ask(answer))), Wrk(hid, WriteBack(NoFault)));
            t.db == Apply(s.db, h.booking, WriteFor(Decision(h, answer, s.now), h.attempts))
  {
    hide Apply, WriteFor, LinkFor, NextGen, NextCreate, NextCancel;
  }

  /** Where a worker stands before its write: it has locked the job just now and knows what to write. */
  predicate AboutToWrite(s: State, u: State, hid: Id, id: Id, v: Verdict) {
    && id in s.db.jobs && hid in u.hands
    && u.hands[hid] == Hand(id, s.db.jobs[id].attempts, u.now, Decided(v))
    && u.db == s.db.(jobs := s.db.jobs[id := Lock(s.db.jobs[id], u.now)])
  }

  lemma RoundUpToWrite(s: State, hid: Id, id: Id, answer: Fault) returns (u: State, v: Verdict)
    requires JobInv(s) && hid !in s.hands && id in s.db.jobs && Unfinished(s.db.jobs[id])
    ensures var es := Round(hid, id, WaitFor(s.db.jobs[id], s.now), answer);
            && u == Run(s, es[..4]) && AboutToWrite(s, u, hid, id, v)
            && Run(s, es) == Next(u, Wrk(hid, WriteBack(NoFault)))
    ensures v == BookingCancelled || v == LinkReady(LinkFor(id)) || v.CallFailed?
  {
    hide Run, Next, Claimable, Lock, LinkFor;
    var wait := WaitFor(s.db.jobs[id], s.now);
    var es := Round(hid, id, wait, answer);
    Unroll(s, es, 0);
    Unroll(s, es, 1);
    Unroll(s, es, 2);
    Unroll(s, es, 3);
    Unroll(s, es, 4);
    assert es[..5] == es;
    WaitedIsClaimable(s.db.jobs[id], s.now);
    HasRow(s, id);
    var s1 := Run(s, es[..1]);
    Waits(s, wait);
    ClaimAndLoad(s1, hid, id);
    var s3 := Run(s, es[..3]);
    AskAndWrite(s3, hid, s3.hands[hid], answer);
    u := Run(s, es[..4]);
    v := Decision(s3.hands[hid], answer, s3.now);
  }

  lemma Waits(s: State, wait: nat)
    ensures Next(s, Tick(wait)) == s.(now := s.now + wait)
  {
  }

  lemma HasRow(s: State, id: Id)
    requires JobInv(s) && id in s.db.jobs
    ensures id in s.db.bookings && s.db.jobs[id].attempts <= 5 && Derived(s.links)
    ensures Unfinished(s.db.jobs[id]) ==> s.db.jobs[id].attempts <= 4
  {
    assert AttemptsOk(s.db.jobs[id]);
  }

  /** The write that ends a round spends an attempt of this job, and touches no other job. */
  lemma WriteEndsRound(s: State, u: State, hid: Id, id: Id, v: Verdict)
    requires JobInv(s) && id in s.db.jobs && Unfinished(s.db.jobs[id]) && AboutToWrite(s, u, hid, id, v)
    ensures var t := Next(u, Wrk(hid, WriteBack(NoFault)));
            && Potential(t.db.jobs) + 1 <= Potential(s.db.jobs)
            && Punctual(u, [Wrk(hid, WriteBack(NoFault))])
            && Processes(u, Wrk(hid, WriteBack(NoFault)))
  {
    hide Potential, JobInv, WriteFor, NextCreate, NextCancel, NextGen;
    var e := Wrk(hid, WriteBack(NoFault));
    var j, w := Lock(s.db.jobs[id], u.now), WriteFor(v, s.db.jobs[id].attempts);
    HasRow(s, id);
    WriteSpends(j, v, j.attempts);
    WritesTakeEffect(u, e, id);
    PotentialOfUpdate(s.db.jobs, Next(u, e).db.jobs, id);
    RunNothing(u);
    assert [e][..0] == [] && Punctual(u, []);
  }

  /** Progress: from every state that the invariant allows, for every unfinished job, every fresh hand and every
      answer, there is a round that strictly lowers the potential; the round is punctual and one processing. */
  lemma RoundDrains(s: State, hid: Id, id: Id, answer: Fault)
    requires JobInv(s) && hid !in s.hands && id in s.db.jobs && Unfinished(s.db.jobs[id])
    ensures var es := Round(hid, id, WaitFor(s.db.jobs[id], s.now), answer);
            && Potential(Run(s, es).db.jobs) + 1 <= Potential(s.db.jobs)
            && Punctual(s, es) && Processed(s, es) == 1 && JobsCreated(s, es) == 0 && Answers(es) == [answer]
  {
    hide Run, Next, Punctual, Potential, Processed, JobsCreated, Processes, JobInv, AboutToWrite, WaitFor;
    var es := Round(hid, id, WaitFor(s.db.jobs[id], s.now), answer);
    var e := Wrk(hid, WriteBack(NoFault));
    var u, v := RoundUpToWrite(s, hid, id, answer);
    WriteEndsRound(s, u, hid, id, v);
    QuietIsPunctual(s, es[..4]);
    QuietProcessesNothing(s, es[..4]);
    assert es == es[..4] + [e];
    PunctualConcat(s, es[..4], [e]);
    ProcessedOneMore(s, es[..4], e);
    OthersCreateNothing(s, es);
    RoundAnswers(hid, id, WaitFor(s.db.jobs[id], s.now), answer);
  }

  /** The answers that the external service gives in a run, in order. */
  function Answers(es: seq<Event>): seq<Fault> {
    if es == [] then []
    else
      var last := es[|es| - 1];
      Answers(es[..|es| - 1]) + if last.Wrk? && last.w.Ask? then [last.w.askFault] else []
  }

  lemma RoundAnswers(hid: Id, id: Id, wait: nat, answer: Fault)
    ensures Answers(Round(hid, id, wait, answer)) == [answer]
  {
    var es := Round(hid, id, wait, answer);
    assert es[..1] == [es[0]] && es[..2] == es[..1] + [es[1]] && es[..3] == es[..2] + [es[2]];
    assert es[..4] == es[..3] + [es[3]] && es == es[..4] + [es[4]];
    AnswersSnoc([], es[0]);
    AnswersSnoc(es[..1], es[1]);
    AnswersSnoc(es[..2], es[2]);
    AnswersSnoc(es[..3], es[3]);
    AnswersSnoc(es[..4], es[4]);
  }

  lemma AnswersSnoc(es: seq<Event>, e: Event)
    ensures Answers(es + [e]) == Answers(es) + if e.Wrk? && e.w.Ask? then [e.w.askFault] else []
  {
    assert (es + [e])[..|es + [e]| - 1] == es;
  }

  lemma {:induction false} AnswersConcat(a: seq<Event>, b: seq<Event>)
    ensures Answers(a + b) == Answers(a) + Answers(b)
    decreases |b|
  {
    if b == [] {
      assert a + b == a;
    } else {
      AnswersConcat(a, b[..|b| - 1]);
      assert (a + b)[..|a + b| - 1] == a + b[..|b| - 1];
    }
  }

  lemma {:induction false} QuietProcessesNothing(s: State, es: seq<Event>)
    requires forall e :: e in es ==> !(e.Wrk? && e.w.WriteBack?)
    ensures Processed(s, es) == 0
    decreases |es|
  {
    hide Run, Next;
    if es == [] {
    } else {
      assert es[|es| - 1] in es;
      assert forall e :: e in es[..|es| - 1] ==> e in es;
      QuietProcessesNothing(s, es[..|es| - 1]);
    }
  }

  lemma ProcessedOneMore(s: State, es: seq<Event>, e: Event)
    requires Processes(Run(s, es), e)
    ensures Processed(s, es + [e]) == Processed(s, es) + 1
  {
    hide Run, Next, Processes;
    assert (es + [e])[..|es + [e]| - 1] == es;
  }

  lemma {:induction false} ProcessedConcat(s: State, a: seq<Event>, b: seq<Event>)
    ensures Processed(s, a + b) == Processed(s, a) + Processed(Run(s, a), b)
    decreases |b|
  {
    hide Run, Next, Processes;
    if b == [] {
      assert a + b == a;
    } else {
      ProcessedConcat(s, a, b[..|b| - 1]);
      RunConcat(s, a, b[..|b| - 1]);
      assert (a + b)[..|a + b| - 1] == a + b[..|b| - 1];
    }
  }

  lemma {:induction false} JobsCreatedConcat(s: State, a: seq<Event>, b: seq<Event>)
    ensures JobsCreated(s, a + b) == JobsCreated(s, a) + JobsCreated(Run(s, a), b)
    decreases |b|
  {
    hide Run, Next, NewJobs;
    if b == [] {
      assert a + b == a;
    } else {
      JobsCreatedConcat(s, a, b[..|b| - 1]);
      RunConcat(s, a, b[..|b| - 1]);
      assert (a + b)[..|a + b| - 1] == a + b[..|b| - 1];
    }
  }

  lemma {:induction false} OthersCreateNothing(s: State, es: seq<Event>)
    requires forall e :: e in es ==> !e.Cre?
    ensures JobsCreated(s, es) == 0
    decreases |es|
  {
    hide Run, Next;
    if es == [] {
    } else {
      assert es[|es| - 1] in es;
      assert forall e :: e in es[..|es| - 1] ==> e in es;
      OthersCreateNothing(s, es[..|es| - 1]);
    }
  }

  // ---------- the whole queue ----------

  ghost predicate AllFinished(jobs: map<Id, Job>) {
    forall id :: id in jobs ==> Finished(jobs[id])
  }

  lemma {:induction false} FreshId(used: set<Id>) returns (id: Id)
    ensures id !in used && forall k :: k in used ==> k < id
    decreases used
  {
    if used == {} {
      id := 0;
    } else {
      var x :| x in used;
      var other := FreshId(used - {x});
      id := if x < other then other else x + 1;
      assert forall k :: k in used ==> k == x || k in used - {x};
    }
  }

  /** From every reachable state, whatever the external service answers: some punctual continuation finishes every
      job, with at most as many processings as the potential, and with those answers in that order. */
  lemma {:induction false} QueueCanBeDrained(s: State, answers: seq<Fault>) returns (es: seq<Event>)
    requires Reachable(s) && Potential(s.db.jobs) <= |answers|
    ensures AllFinished(Run(s, es).db.jobs) && Punctual(s, es)
    ensures Processed(s, es) <= Potential(s.db.jobs) && JobsCreated(s, es) == 0
    ensures Answers(es) <= answers
    decreases Potential(s.db.jobs)
  {
    hide Run, Reachable, Punctual, Potential, Processed, JobsCreated, JobInv, SagaInv, Answers, WaitFor, Round;
    ReachableJobs(s);
    if AllFinished(s.db.jobs) {
      es := [];
      NothingToDo(s);
    } else {
      var id :| id in s.db.jobs && Unfinished(s.db.jobs[id]);
      var hid := FreshId(s.hands.Keys);
      PositiveWhileUnfinished(s, id);
      var round := Round(hid, id, WaitFor(s.db.jobs[id], s.now), answers[0]);
      RoundDrains(s, hid, id, answers[0]);
      RunIsReachable(s, round);
      var rest := QueueCanBeDrained(Run(s, round), answers[1..]);
      es := round + rest;
      RunConcat(s, round, rest);
      PunctualConcat(s, round, rest);
      ProcessedConcat(s, round, rest);
      JobsCreatedConcat(s, round, rest);
      AnswersConcat(round, rest);
      PrefixOfAnswers(Answers(rest), answers);
    }
  }

  lemma PrefixOfAnswers(rest: seq<Fault>, answers: seq<Fault>)
    requires answers != [] && rest <= answers[1..]
    ensures [answers[0]] + rest <= answers
  {
    assert answers == [answers[0]] + answers[1..];
  }

  lemma NothingToDo(s: State)
    ensures Run(s, []) == s && Punctual(s, []) && Processed(s, []) == 0 && JobsCreated(s, []) == 0 && Answers([]) == []
  {
  }

  lemma PositiveWhileUnfinished(s: State, id: Id)
    requires JobInv(s) && id in s.db.jobs && Unfinished(s.db.jobs[id])
    ensures Potential(s.db.jobs) >= 1
  {
    hide JobInv, Potential;
    BoundedAttempts(s);
    if Potential(s.db.jobs) == 0 {
      DrainedMeansFinished(s.db.jobs, id);
    }
  }

  /** N jobs finish within 5 N processings: every punctual run in which N jobs have been created can be continued,
      whatever the external service answers, to a punctual run with the same N jobs in which all of them are done
      or failed and no more than 5 N processings have been made in all. */
  lemma NJobsFinishWithinFiveN(now: Instant, es: seq<Event>, answers: seq<Fault>) returns (more: seq<Event>)
    requires Punctual(Init(now), es) && 5 * JobsCreated(Init(now), es) <= |answers|
    ensures Punctual(Init(now), es + more) && Answers(more) <= answers
    ensures JobsCreated(Init(now), es + more) == JobsCreated(Init(now), es)
    ensures AllFinished(Run(Init(now), es + more).db.jobs)
    ensures Processed(Init(now), es + more) <= 5 * JobsCreated(Init(now), es)
  {
    hide Run, Reachable, Punctual, Potential, Processed, JobsCreated, Answers, AllFinished;
    var s := Run(Init(now), es);
    QueueDrains(now, es);
    RunIsFromInit(now, es);
    more := QueueCanBeDrained(s, answers);
    RunConcat(Init(now), es, more);
    PunctualConcat(Init(now), es, more);
    ProcessedConcat(Init(now), es, more);
    JobsCreatedConcat(Init(now), es, more);
  }
}
