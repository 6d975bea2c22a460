/** How often the external service is called, and what a late worker can do. */
module CallProofs {
  import opened Common
  import opened BookingTables
  import opened ConferenceStore
  import opened Platform
  import opened SagaProofs
  import opened JobProofs
  import opened LeaseProofs
  import opened DrainProofs
  import opened QueueProgress

  // ---------- calls, attempts and lost calls ----------

  /** This event calls the external service for this job. */
  predicate Asks(s: State, e: Event, id: Id) {
    e.Wrk? && e.w.Ask? && e.hid in s.hands && s.hands[e.hid].booking == id && s.hands[e.hid].phase.Loaded?
  }

  /** This event writes back the outcome of a call for this job, and takes effect. */
  predicate Credits(s: State, e: Event, id: Id) {
    Writes(s, e, id) && s.hands[e.hid].phase.verdict != BookingCancelled
  }

  function Calls(s: State, es: seq<Event>, id: Id): nat {
    if es == [] then 0
    else Calls(s, es[..|es| - 1], id) + if Asks(Run(s, es[..|es| - 1]), es[|es| - 1], id) then 1 else 0
  }

  /** The hands that have called for this job. */
  function Callers(s: State, es: seq<Event>, id: Id): set<Id> {
    if es == [] then {}
    else
      var ids, u, e := Callers(s, es[..|es| - 1], id), Run(s, es[..|es| - 1]), es[|es| - 1];
      if Asks(u, e, id) then ids + {e.hid} else ids
  }

  /** The hands whose call for this job has been written back with effect. */
  function Credited(s: State, es: seq<Event>, id: Id): set<Id> {
    if es == [] then {}
    else
      var ids, u, e := Credited(s, es[..|es| - 1], id), Run(s, es[..|es| - 1]), es[|es| - 1];
      if Credits(u, e, id) then ids + {e.hid} else ids
  }

  /** The worker has the outcome of its call and has not written it back. */
  predicate HasAnswer(h: Hand) {
    h.phase.Decided? && h.phase.verdict != BookingCancelled
  }

  predicate HasCalled(hands: map<Id, Hand>, hid: Id, id: Id) {
    hid in hands && hands[hid].booking == id && (hands[hid].phase.Decided? || hands[hid].phase.Over?)
  }

  /** What is known of the hands on a job, and of its counter while every worker is punctual. */
  ghost predicate CallsOk(s: State, id: Id, callers: set<Id>, credited: set<Id>) {
    && (forall h :: h in callers ==> HasCalled(s.hands, h, id))
    && (forall h :: h in credited ==> h in callers && s.hands[h].phase.Over?)
    && (forall h :: h in s.hands && s.hands[h].booking == id && HasAnswer(s.hands[h]) ==> h in callers)
    && |credited| == Attempts(s.db, id)
  }

  function Attempts(db: Db, id: Id): nat {
    if id in db.jobs then db.jobs[id].attempts else 0
  }

  /** How a hand may move. */
  lemma HandMoves(s: State, h: Hand, w: WorkerStep)
    ensures var g := HandNext(s, h, w);
            && g.booking == h.booking
            && (h.phase.Over? ==> g.phase.Over?)
            && (h.phase.Decided? ==> g.phase.Decided? || g.phase.Over?)
            && (w.Ask? && h.phase.Loaded? ==> g.phase.Decided?)
            && (w.WriteBack? && h.phase.Decided? ==> g.phase.Over?)
            && (HasAnswer(g) ==> g == h || (w.Ask? && h.phase.Loaded?))
  {
  }

  lemma HandsMove(s: State, hid: Id, w: WorkerStep)
    ensures var t := NextWorker(s, hid, w);
            && (forall k :: k in s.hands ==> k in t.hands)
            && (forall k :: k in s.hands && k != hid ==> t.hands[k] == s.hands[k])
            && (forall k :: k in t.hands && k !in s.hands ==> k == hid && t.hands[k].phase.Claimed?)
            && (hid in s.hands ==> t.hands[hid] == HandNext(s, s.hands[hid], w))
  {
    hide NextWorker, HandNext;
    NextHands(s, hid, w);
  }

  lemma NextHands(s: State, hid: Id, w: WorkerStep)
    ensures NextWorker(s, hid, w).hands ==
            if hid in s.hands then s.hands[hid := HandNext(s, s.hands[hid], w)]
            else if w.ClaimJob? && MayClaim(s.db, w.booking, s.now) then
              s.hands[hid := Hand(w.booking, s.db.jobs[w.booking].attempts, s.now, Claimed)]
            else s.hands
  {
    hide HandNext, HandDb, HandLinks, Claim, MayClaim;
  }

  /** A call is made once by a hand, and what a hand has called for it may write back once. */
  lemma CallersStep(s: State, e: Event, id: Id, callers: set<Id>, credited: set<Id>)
    requires CallsOk(s, id, callers, credited) && e.Wrk?
    ensures forall h :: h in callers ==> HasCalled(Next(s, e).hands, h, id)
    ensures forall h :: h in credited ==> HasCalled(Next(s, e).hands, h, id) && Next(s, e).hands[h].phase.Over?
    ensures Asks(s, e, id) ==> e.hid !in callers && HasCalled(Next(s, e).hands, e.hid, id)
    ensures Credits(s, e, id) ==>
              e.hid in callers && e.hid !in credited && e.hid in Next(s, e).hands && Next(s, e).hands[e.hid].phase.Over?
    ensures forall h :: h in Next(s, e).hands && Next(s, e).hands[h].booking == id && HasAnswer(Next(s, e).hands[h]) ==>
              h in callers || (Asks(s, e, id) && h == e.hid)
  {
    hide NextWorker, HandNext, Writable;
    HandsMove(s, e.hid, e.w);
    if e.hid in s.hands {
      HandMoves(s, s.hands[e.hid], e.w);
    }
  }

  /** In a punctual run every credited call counts exactly one attempt, and nothing else does. */
  lemma AttemptsStep(s: State, e: Event, id: Id)
    requires JobInv(s) && LeaseInv(s) && (WritesBack(s, e) ==> Fresh(s, s.hands[e.hid]))
    ensures Attempts(Next(s, e).db, id) == Attempts(s.db, id) + if Credits(s, e, id) then 1 else 0
  {
    hide Next, JobInv, LeaseInv, WriteFor, Apply, Fresh, Claims;
    JobEffect(s, e, id);
    if Writes(s, e, id) {
      CurrentCounter(s, e.hid);
      WritesTakeEffect(s, e, id);
      WriteCounts(s.db, id, s.hands[e.hid].phase.verdict, s.hands[e.hid].attempts);
    }
  }

  lemma CurrentCounter(s: State, hid: Id)
    requires LeaseInv(s) && hid in s.hands && Fresh(s, s.hands[hid])
    ensures OwnsLock(s, s.hands[hid])
  {
  }

  lemma WriteCounts(db: Db, id: Id, v: Verdict, attempts: nat)
    requires Writable(db, id)
    ensures var after := Apply(db, id, WriteFor(v, attempts));
            id in after.jobs && after.jobs[id].attempts == attempts + if v == BookingCancelled then 0 else 1
  {
  }

  lemma CallsStep(s: State, e: Event, id: Id, callers: set<Id>, credited: set<Id>)
    requires JobInv(s) && LeaseInv(s) && (WritesBack(s, e) ==> Fresh(s, s.hands[e.hid]))
    requires CallsOk(s, id, callers, credited)
    ensures CallsOk(Next(s, e), id,
                    if Asks(s, e, id) then callers + {e.hid} else callers,
                    if Credits(s, e, id) then credited + {e.hid} else credited)
    ensures Asks(s, e, id) ==> e.hid !in callers
  {
    hide Next, JobInv, LeaseInv, Fresh, Writes, HasAnswer, HasCalled, Attempts;
    AttemptsStep(s, e, id);
    if e.Wrk? {
      CallersStep(s, e, id, callers, credited);
    } else {
      HandsStayElsewhere(s, e);
      assert !Asks(s, e, id) && !Credits(s, e, id);
    }
  }

  lemma HandsStayElsewhere(s: State, e: Event)
    requires !e.Wrk?
    ensures Next(s, e).hands == s.hands && forall id :: !Writes(s, e, id)
  {
    hide NextCreate, NextCancel, NextGen;
    match e
    case Cre(id, c) => CreateFrame(s, id, c);
    case Can(pid, x) => CancelFrame(s, pid, x);
    case Gen(run, g) => GenFrame(s, run, g);
    case _ =>
  }

  lemma {:induction false} CallsOfRun(now: Instant, es: seq<Event>, id: Id)
    requires Punctual(Init(now), es)
    ensures CallsOk(Run(Init(now), es), id, Callers(Init(now), es, id), Credited(Init(now), es, id))
    ensures Calls(Init(now), es, id) == |Callers(Init(now), es, id)|
    decreases |es|
  {
    hide Next, JobInv, LeaseInv, SagaInv, Fresh, Asks, Credits, CallsOk;
    if es == [] {
      NobodyHasCalled(now, id);
    } else {
      var front, e := es[..|es| - 1], es[|es| - 1];
      var u := Run(Init(now), front);
      CallsOfRun(now, front, id);
      ReachableIsOk(now, front);
      CallsStep(u, e, id, Callers(Init(now), front, id), Credited(Init(now), front, id));
    }
  }

  lemma NobodyHasCalled(now: Instant, id: Id)
    ensures CallsOk(Init(now), id, {}, {})
  {
  }

  lemma ReachableIsOk(now: Instant, es: seq<Event>)
    requires Punctual(Init(now), es)
    ensures JobInv(Run(Init(now), es)) && LeaseInv(Run(Init(now), es))
  {
    hide Run, Next, Reachable, JobInv, LeaseInv, SagaInv, Punctual;
    RunIsFromInit(now, es);
    ReachableJobs(Run(Init(now), es));
    PunctualKeepsLease(now, es);
  }

  /** The hands whose call has been lost so far: made, and not written back with effect. */
  function LostCalls(s: State, es: seq<Event>, id: Id): set<Id> {
    Callers(s, es, id) - Credited(s, es, id)
  }

  /** The calls for a job in a punctual run, exactly: its attempts and the lost calls. So at most five calls are made
      exactly when no more calls are lost than attempts are left. */
  lemma CallsAreAttemptsAndLostCalls(now: Instant, es: seq<Event>, id: Id)
    requires Punctual(Init(now), es) && id in Run(Init(now), es).db.jobs
    ensures var job, lost := Run(Init(now), es).db.jobs[id], LostCalls(Init(now), es, id);
            && Calls(Init(now), es, id) == job.attempts + |lost|
            && (Calls(Init(now), es, id) <= MAX_ATTEMPTS <==> |lost| <= MAX_ATTEMPTS - job.attempts)
  {
    hide Run, Callers, Credited, Calls, Punctual;
    CallsOfRun(now, es, id);
    var callers, credited := Callers(Init(now), es, id), Credited(Init(now), es, id);
    assert credited <= callers;
    assert callers == (callers - credited) + credited;
  }

  // ---------- calls are not bounded by the attempts ----------

  /** One call whose outcome is lost: the worker stops before its write, and the lease runs out. */
  function LostCall(hid: Id, id: Id, answer: Fault): seq<Event> {
    [Wrk(hid, ClaimJob(id)), Wrk(hid, Load), Wrk(hid, Ask(answer)), Wrk(hid, Drop), Tick(LEASE)]
  }

  /** A job that may be claimed, of an active booking. */
  predicate Callable(s: State, id: Id) {
    MayClaim(s.db, id, s.now) && id in s.db.bookings && s.db.bookings[id].status == Active
  }

  lemma AskAndDrop(s: State, hid: Id, h: Hand, id: Id, answer: Fault)
    requires hid in s.hands && s.hands[hid] == h && h.phase.Loaded? && h.booking == id
    ensures Asks(s, Wrk(hid, Ask(answer)), id)
    ensures var u, t := Next(s, Wrk(hid, Ask(answer))), Next(Next(s, Wrk(hid, Ask(answer))), Wrk(hid, Drop));
            && t.db == s.db && t.now == s.now && !Asks(u, Wrk(hid, Drop), id)
            && (forall k :: k in t.hands ==> k in s.hands)
  {
    hide StoreLink, LinkFor;
  }

  /** A lost call costs no attempt: the call is made, the stretch is punctual, the counter stays as it was, and at
      its end the job may be claimed again. */
  lemma LostCallCostsNoAttempt(s: State, hid: Id, id: Id, answer: Fault)
    requires hid !in s.hands && Callable(s, id)
    ensures var es, t := LostCall(hid, id, answer), Run(s, LostCall(hid, id, answer));
            && Calls(s, es, id) == 1 && Punctual(s, es)
            && Callable(t, id) && t.db.jobs[id].attempts == s.db.jobs[id].attempts
            && (forall k :: k in t.hands ==> k in s.hands || k == hid)
  {
    hide Run, Next, Punctual, Asks, MayClaim, Lock;
    var es := LostCall(hid, id, answer);
    var u := LoadsForCall(s, hid, id, answer);
    Unroll(s, es, 2);
    Unroll(s, es, 3);
    Unroll(s, es, 4);
    assert es[..5] == es;
    AskAndDrop(u, hid, u.hands[hid], id, answer);
    Waits(Run(s, es[..4]), LEASE);
    QuietIsPunctual(s, es);
    LapsedMayBeClaimed(s.db, id, s.now);
    OneCall(s, es, id);
  }

  lemma LoadsForCall(s: State, hid: Id, id: Id, answer: Fault) returns (u: State)
    requires hid !in s.hands && Callable(s, id)
    ensures u == Run(s, LostCall(hid, id, answer)[..2])
    ensures id in s.db.jobs && hid in u.hands && u.now == s.now
    ensures u.hands[hid] == Hand(id, s.db.jobs[id].attempts, s.now, Loaded)
    ensures forall k :: k in u.hands ==> k in s.hands || k == hid
    ensures u.db == s.db.(jobs := s.db.jobs[id := Lock(s.db.jobs[id], s.now)])
  {
    hide Run, Next, Claimable, Lock;
    var es := LostCall(hid, id, answer);
    Unroll(s, es, 0);
    Unroll(s, es, 1);
    ClaimAndLoad(s, hid, id);
    u := Run(s, es[..2]);
  }

  lemma LapsedMayBeClaimed(db: Db, id: Id, now: Instant)
    requires id in db.jobs
    ensures MayClaim(db.(jobs := db.jobs[id := Lock(db.jobs[id], now)]), id, now + LEASE)
    ensures Lock(db.jobs[id], now).attempts == db.jobs[id].attempts
  {
  }

  lemma OneCall(s: State, es: seq<Event>, id: Id)
    requires |es| == 5 && es[0].Wrk? && es[0].w.ClaimJob? && es[1].Wrk? && es[1].w.Load? && es[4].Tick?
    requires Asks(Run(s, es[..2]), es[2], id) && !Asks(Run(s, es[..3]), es[3], id)
    ensures Calls(s, es, id) == 1
  {
    hide Run, Next;
    assert es[..4] == es[..5][..4] && es[..3] == es[..4][..3] && es[..2] == es[..3][..2] && es[..1] == es[..2][..1];
    assert es[..0] == es[..1][..0] && es[..5] == es;
    assert Calls(s, es[..1], id) == 0;
    assert Calls(s, es[..2], id) == 0;
    assert Calls(s, es[..3], id) == 1;
    assert Calls(s, es[..4], id) == 1;
  }

  lemma {:induction false} CallsConcat(s: State, a: seq<Event>, b: seq<Event>, id: Id)
    ensures Calls(s, a + b, id) == Calls(s, a, id) + Calls(Run(s, a), b, id)
    decreases |b|
  {
    hide Run, Next, Asks;
    if b == [] {
      assert a + b == a;
    } else {
      CallsConcat(s, a, b[..|b| - 1], id);
      RunConcat(s, a, b[..|b| - 1]);
      assert (a + b)[..|a + b| - 1] == a + b[..|b| - 1];
    }
  }

  /** The calls for a job are unbounded, even if every worker is punctual: any number of them can be made without
      its counter moving. */
  lemma {:induction false} CallsAreUnbounded(s: State, id: Id, n: nat, answer: Fault) returns (es: seq<Event>)
    requires Callable(s, id)
    ensures Punctual(s, es) && Calls(s, es, id) == n
    ensures Callable(Run(s, es), id) && Run(s, es).db.jobs[id].attempts == s.db.jobs[id].attempts
    decreases n
  {
    hide Run, Next, Punctual, Calls, Callable, LostCall;
    if n == 0 {
      es := [];
      NoCalls(s, id);
    } else {
      var hid := FreshId(s.hands.Keys);
      var one := LostCall(hid, id, answer);
      LostCallCostsNoAttempt(s, hid, id, answer);
      var rest := CallsAreUnbounded(Run(s, one), id, n - 1, answer);
      es := one + rest;
      RunConcat(s, one, rest);
      PunctualConcat(s, one, rest);
      CallsConcat(s, one, rest, id);
    }
  }

  lemma NoCalls(s: State, id: Id)
    ensures Run(s, []) == s && Punctual(s, []) && Calls(s, [], id) == 0
  {
  }

  // ---------- why lease exclusion needs punctual workers ----------

  /** Worker a fails its call and writes only after its lease, when b has the job; then c claims it too. */
  function LateReschedule(a: Id, b: Id, c: Id, id: Id): seq<Event> {
    [Wrk(a, ClaimJob(id)), Wrk(a, Load), Wrk(a, Ask(FailBefore)), Tick(LEASE),
     Wrk(b, ClaimJob(id)), Wrk(a, WriteBack(NoFault)), Wrk(c, ClaimJob(id))]
  }

  lemma FailsAndWaits(s: State, a: Id, h: Hand)
    requires a in s.hands && s.hands[a] == h && h.phase.Loaded?
    ensures Next(Next(s, Wrk(a, Ask(FailBefore))), Tick(LEASE)) ==
            s.(now := s.now + LEASE, hands := s.hands[a := h.(phase := Decided(CallFailed(s.now)))])
  {
    hide StoreLink, LinkFor;
  }

  lemma LateWrite(s: State, a: Id, h: Hand, id: Id, at: Instant)
    requires a in s.hands && s.hands[a] == h && h.booking == id && h.phase == Decided(CallFailed(at))
    requires h.attempts <= 3 && at + LEASE == s.now
    requires id in s.db.jobs && s.db.jobs[id].status == JobProcessing
    ensures var t := Next(s, Wrk(a, WriteBack(NoFault)));
            && t == s.(db := t.db, hands := s.hands[a := h.(phase := Over)]) && MayClaim(t.db, id, s.now)
  {
    assert Pow2(1) == 2 && Pow2(2) == 4 && Pow2(3) == 8 && Pow2(4) == 16;
  }

  lemma ClaimsNow(s: State, hid: Id, id: Id)
    requires hid !in s.hands && MayClaim(s.db, id, s.now)
    ensures Next(s, Wrk(hid, ClaimJob(id))) ==
            s.(db := s.db.(jobs := s.db.jobs[id := Lock(s.db.jobs[id], s.now)]),
               hands := s.hands[hid := Hand(id, s.db.jobs[id].attempts, s.now, Claimed)])
  {
    hide Claimable, Lock;
  }

  /** Without punctual workers lease exclusion fails, for every job that may be claimed with an attempt to spare:
      a late reschedule puts it into two hands, each within its lease. */
  lemma LateRescheduleSharesAJob(s: State, a: Id, b: Id, c: Id, id: Id)
    requires a !in s.hands && b !in s.hands && c !in s.hands && a != b && b != c && a != c
    requires Callable(s, id) && s.db.jobs[id].attempts <= 3
    ensures var t := Run(s, LateReschedule(a, b, c, id)); InHand(t, b, id) && InHand(t, c, id)
  {
    hide Run, Next, MayClaim, Pending;
    var es := LateReschedule(a, b, c, id);
    var u := CallFails(s, a, b, c, id);
    Unroll(s, es, 4);
    Unroll(s, es, 5);
    Unroll(s, es, 6);
    assert es[..7] == es;
    TwoClaims(u, a, b, c, id);
  }

  /** Worker a has failed its call a whole lease ago, and has not written yet. */
  predicate Pending(s: State, a: Id, id: Id) {
    && a in s.hands && s.hands[a].booking == id && s.hands[a].attempts <= 3
    && s.hands[a].phase == Decided(CallFailed(s.now - LEASE))
    && MayClaim(s.db, id, s.now)
  }

  lemma CallFails(s: State, a: Id, b: Id, c: Id, id: Id) returns (u: State)
    requires a !in s.hands && b !in s.hands && c !in s.hands && a != b && a != c
    requires Callable(s, id) && s.db.jobs[id].attempts <= 3
    ensures u == Run(s, LateReschedule(a, b, c, id)[..4])
    ensures Pending(u, a, id) && b !in u.hands && c !in u.hands
  {
    hide Run, Next, MayClaim, Lock;
    var es := LateReschedule(a, b, c, id);
    assert es[..2] == LostCall(a, id, FailBefore)[..2];
    var loaded := LoadsForCall(s, a, id, FailBefore);
    Unroll(s, es, 2);
    Unroll(s, es, 3);
    FailsAndWaits(loaded, a, loaded.hands[a]);
    LapsedMayBeClaimed(s.db, id, s.now);
    u := Run(s, es[..4]);
  }

  lemma TwoClaims(s: State, a: Id, b: Id, c: Id, id: Id)
    requires Pending(s, a, id) && b !in s.hands && c !in s.hands && b != c
    ensures var t := Next(Next(Next(s, Wrk(b, ClaimJob(id))), Wrk(a, WriteBack(NoFault))), Wrk(c, ClaimJob(id)));
            InHand(t, b, id) && InHand(t, c, id)
  {
    hide Next, Claimable, Lock;
    ClaimsNow(s, b, id);
    var v := Next(s, Wrk(b, ClaimJob(id)));
    LockIsProcessing(s.db.jobs[id], s.now);
    LateWrite(v, a, v.hands[a], id, s.now - LEASE);
    ClaimsNow(Next(v, Wrk(a, WriteBack(NoFault))), c, id);
  }

  lemma LockIsProcessing(j: Job, now: Instant)
    ensures Lock(j, now).status == JobProcessing
  {
  }
}
