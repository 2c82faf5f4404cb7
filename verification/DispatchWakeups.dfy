/**
 * Wake-ups. `enqueue_task` signals without holding `thread_lock`, so a signal sent between a worker's
 * test of the counter and its wait is lost. That can leave a task queued with nobody awake to take it
 * exactly when the pool has at most one worker: with two, the other one is still awake.
 */
module DispatchWakeups {
  import opened Wrappers
  import opened Dispatch
  import opened DispatchSafety

  /** The producer has linked a task and has its signal still to send. */
  predicate SignalDue(p: Producer) {
    p.Enqueueing? && (p.phase.Linked? || p.phase.Loaded? || p.phase.Stored? || p.phase.Unlocked?)
  }

  /** Neither missing, nor waiting, nor bound to wait whatever happens to the counter now. */
  predicate Awake(me: Worker) {
    !me.NotCreated? && !me.Dozing? && !me.Waiting?
  }

  /** A task is queued, no signal is on its way, and no worker will look at the counter before it waits. */
  ghost predicate Forgotten(s: State) {
    s.queue != [] && !SignalDue(s.producer) && forall w :: 0 <= w < |s.workers| ==> !Awake(s.workers[w])
  }

  // ---------------------------------------------------------------- two workers suffice

  predicate Due(s: State, w: nat) {
    s.sentinel || (s.producer.Starting? && w < s.producer.created)
  }

  /** While starting, the workers below `created` exist; once the sentinel is there, all do. */
  ghost predicate Roster(s: State) {
    && (s.producer.Starting? ==> !s.sentinel)
    && forall w :: 0 <= w < |s.workers| && Due(s, w) ==> !s.workers[w].NotCreated?
  }

  ghost predicate SomeoneAwake(workers: seq<Worker>) {
    exists w :: 0 <= w < |workers| && Awake(workers[w])
  }

  /** A queued task has a signal coming or a worker awake. */
  ghost predicate Attended(s: State) {
    s.queue == [] || SignalDue(s.producer) || SomeoneAwake(s.workers)
  }

  lemma ProducerKeepsRoster(s: State, p: ProducerStep)
    requires Roster(s) && ProducerEnabled(s, p)
    ensures Roster(ProducerNext(s, p)) && |ProducerNext(s, p).workers| == |s.workers|
  {
    var s' := ProducerNext(s, p);
    forall w: nat | w < |s'.workers| && Due(s', w) ensures !s'.workers[w].NotCreated? {
      assert Due(s, w) || p.CreateWorker? || p.AllocateSentinel?;
      assert s'.workers[w] != s.workers[w] ==> s'.workers[w].Outside? || s'.workers[w].Woken?;
    }
  }

  lemma WorkerKeepsRoster(s: State, w: nat, k: WorkerStep)
    requires Roster(s) && WorkerEnabled(s, w, k)
    ensures Roster(WorkerNext(s, w, k)) && |WorkerNext(s, w, k).workers| == |s.workers|
  {
    var s' := WorkerNext(s, w, k);
    assert !s'.workers[w].NotCreated?;
    forall v: nat | v < |s'.workers| && Due(s', v) ensures !s'.workers[v].NotCreated? {
      assert Due(s, v);
    }
  }

  /** With thread_lock held by at most one, of two workers that do not wait one is awake. */
  lemma OneOfTwoIsAwake(s: State)
    requires Locks(s) && Roster(s) && s.sentinel && |s.workers| >= 2
    requires forall w :: 0 <= w < |s.workers| ==> !s.workers[w].Waiting?
    ensures SomeoneAwake(s.workers)
  {
    assert LocksOf(s, 0, s.workers[0]) && LocksOf(s, 1, s.workers[1]);
    assert Awake(s.workers[0]) || Awake(s.workers[1]);
  }

  lemma SignalKeepsAttended(s: State, woken: Option<nat>)
    requires Locks(s) && Counter(s) && Roster(s) && |s.workers| >= 2 && ProducerEnabled(s, Signal(woken))
    ensures Attended(ProducerNext(s, Signal(woken)))
  {
    if woken.Some? {
      assert Awake(ProducerNext(s, Signal(woken)).workers[woken.value]);
    } else {
      OneOfTwoIsAwake(s);
    }
  }

  lemma ProducerKeepsAttended(s: State, p: ProducerStep)
    requires Locks(s) && Counter(s) && Roster(s) && Attended(s) && |s.workers| >= 2 && ProducerEnabled(s, p)
    ensures Attended(ProducerNext(s, p))
  {
    if p.Signal? {
      SignalKeepsAttended(s, p.woken);
    } else if p.CreateWorker? {
      assert Awake(ProducerNext(s, p).workers[s.producer.created]);
    } else {
      assert ProducerNext(s, p).workers == s.workers;
    }
  }

  lemma WorkerKeepsAttended(s: State, w: nat, k: WorkerStep)
    requires Locks(s) && Counter(s) && Attended(s) && WorkerEnabled(s, w, k)
    ensures Attended(WorkerNext(s, w, k))
  {
    var s' := WorkerNext(s, w, k);
    assert LocksOf(s, w, s.workers[w]);
    if k.SeeNone? {
      EmptyOrDue(s, w);
    } else if Awake(s'.workers[w]) {
      assert SomeoneAwake(s'.workers);
    } else if s.queue != [] && !SignalDue(s.producer) {
      var v :| 0 <= v < |s.workers| && Awake(s.workers[v]);
      assert Awake(s'.workers[v]);
    }
  }

  /** A worker that reads zero under thread_lock has seen an empty queue, or one whose signal is still due. */
  lemma EmptyOrDue(s: State, w: nat)
    requires Locks(s) && Counter(s) && WorkerEnabled(s, w, SeeNone)
    ensures s.queue == [] || SignalDue(s.producer)
  {
  }

  lemma {:induction false} RunKeepsAttended(s: State, steps: seq<Step>, t: State)
    requires Invariant(s) && Roster(s) && Attended(s) && |s.workers| >= 2 && Reaches(s, steps, t)
    ensures Attended(t)
    decreases |steps|
  {
    if steps != [] {
      StepKeepsInvariant(s, steps[0]);
      match steps[0] {
        case OfProducer(p) =>
          ProducerKeepsRoster(s, p);
          ProducerKeepsAttended(s, p);
        case OfWorker(w, k) =>
          WorkerKeepsRoster(s, w, k);
          WorkerKeepsAttended(s, w, k);
      }
      RunKeepsAttended(Next(s, steps[0]), steps[1..], t);
    }
  }

  lemma TwoWorkersForgetNothing(n: nat, s: State)
    requires n >= 2 && Reachable(n, s)
    ensures !Forgotten(s)
  {
    var steps :| Reaches(Init(n), steps, s);
    assert Reaches(Init(n), [], Init(n));
    ReachableInvariant(n, Init(n));
    RunKeepsAttended(Init(n), steps, s);
  }

  // ---------------------------------------------------------------- one worker, or none, does not

  lemma {:induction false} Extend(s: State, steps: seq<Step>, t: State, step: Step)
    requires Reaches(s, steps, t) && Enabled(t, step)
    ensures Reaches(s, steps + [step], Next(t, step))
    decreases |steps|
  {
    if steps == [] {
      assert Reaches(Next(t, step), [step][1..], Next(t, step));
    } else {
      assert (steps + [step])[1..] == steps[1..] + [step];
      Extend(Next(s, steps[0]), steps[1..], t, step);
    }
  }

  lemma AndThen(n: nat, s: State, step: Step, s': State)
    requires Reachable(n, s) && Enabled(s, step) && Next(s, step) == s'
    ensures Reachable(n, s')
  {
    var steps :| Reaches(Init(n), steps, s);
    Extend(Init(n), steps, s, step);
  }

  const CLIENT := Task(5, 0)

  /** The producer polls and nothing has happened yet. */
  function Quiet(workers: seq<Worker>): State {
    State(Polling, [], workers, None, None, true, [], 0, map[], {}, {}, [], 0, [], [], [])
  }

  /** `k` of `n` workers have been created. */
  function Crew(n: nat, k: nat): seq<Worker> {
    seq(n, i => if i < k then Outside else NotCreated)
  }

  lemma {:induction false} CrewIsReachable(n: nat, k: nat)
    requires k <= n
    ensures Reachable(n, Init(n).(producer := Starting(k), workers := Crew(n, k)))
  {
    if k == 0 {
      assert Init(n).workers == Crew(n, 0);
      assert Reaches(Init(n), [], Init(n));
    } else {
      CrewIsReachable(n, k - 1);
      assert Crew(n, k - 1)[k - 1 := Outside] == Crew(n, k);
      AndThen(n, Init(n).(producer := Starting(k - 1), workers := Crew(n, k - 1)), OfProducer(CreateWorker),
              Init(n).(producer := Starting(k), workers := Crew(n, k)));
    }
  }

  /** A pool of any size comes up. */
  lemma QuietIsReachable(n: nat)
    ensures Reachable(n, Quiet(Crew(n, n)))
    ensures Crew(n, n) == seq(n, _ => Outside)
  {
    CrewIsReachable(n, n);
    AndThen(n, Init(n).(producer := Starting(n), workers := Crew(n, n)), OfProducer(AllocateSentinel),
            Quiet(Crew(n, n)));
  }

  /** The client has been accepted and registered. */
  function Connected(workers: seq<Worker>): State {
    Quiet(workers).(open := map[5 := 0], armed := {CLIENT}, nextConn := 1)
  }

  lemma ConnectedIsReachable(n: nat, workers: seq<Worker>)
    requires Reachable(n, Quiet(workers))
    ensures Reachable(n, Connected(workers))
  {
    var s1 := Quiet(workers).(batch := [Listen]);
    AndThen(n, Quiet(workers), OfProducer(DeliverListen), s1);
    var s2 := s1.(producer := Handling);
    AndThen(n, s1, OfProducer(PollReturns), s2);
    var s3 := s2.(producer := Accepted(CLIENT), batch := [], open := map[5 := 0], nextConn := 1);
    assert s2.batch[1..] == [] && s2.open[5 := 0] == map[5 := 0];
    AndThen(n, s2, OfProducer(Accept(5)), s3);
    var s4 := Connected(workers).(producer := Handling);
    assert s3.armed + {CLIENT} == {CLIENT};
    AndThen(n, s3, OfProducer(Register), s4);
    AndThen(n, s4, OfProducer(NextPoll), Connected(workers));
  }

  /** The client's data event is in the producer's hand. */
  function InHand(workers: seq<Worker>, threadLock: Option<nat>): State {
    Connected(workers).(producer := Enqueueing(WantLock, CLIENT, false), threadLock := threadLock,
                        armed := {}, disarmed := {CLIENT})
  }

  lemma InHandIsReachable(n: nat, workers: seq<Worker>)
    requires Reachable(n, Connected(workers))
    ensures Reachable(n, InHand(workers, None))
  {
    var s0 := Connected(workers);
    var s1 := s0.(batch := [Data(CLIENT, false)], armed := {}, disarmed := {CLIENT});
    assert s0.armed - {CLIENT} == {} && s0.disarmed + {CLIENT} == {CLIENT};
    AndThen(n, s0, OfProducer(DeliverData(CLIENT, false)), s1);
    var s2 := s1.(producer := Handling);
    AndThen(n, s1, OfProducer(PollReturns), s2);
    assert s2.batch[1..] == [];
    AndThen(n, s2, OfProducer(TakeData), InHand(workers, None));
  }

  /** The only worker tests the counter, and does not wait yet. */
  lemma DozingIsReachable()
    requires Reachable(1, InHand([Outside], None))
    ensures Reachable(1, InHand([Dozing], Some(0)))
  {
    var s0, s1 := InHand([Outside], None), InHand([Testing], Some(0));
    assert s0.workers[0 := Testing] == [Testing] && s1.workers[0 := Dozing] == [Dozing];
    AndThen(1, s0, OfWorker(0, LockThread), s1);
    AndThen(1, s1, OfWorker(0, SeeNone), InHand([Dozing], Some(0)));
  }

  function AfterLink(workers: seq<Worker>, threadLock: Option<nat>): State {
    InHand(workers, threadLock).(producer := Enqueueing(Linked, CLIENT, false), enqueueLock := Some(TheProducer),
                                 queue := [CLIENT], enqueued := [CLIENT])
  }

  lemma AfterLinkIsReachable(n: nat, workers: seq<Worker>, threadLock: Option<nat>)
    requires Reachable(n, InHand(workers, threadLock))
    ensures Reachable(n, AfterLink(workers, threadLock))
  {
    var s0 := InHand(workers, threadLock);
    var s1 := s0.(producer := Enqueueing(Locked, CLIENT, false), enqueueLock := Some(TheProducer));
    AndThen(n, s0, OfProducer(LockQueue), s1);
    assert s1.queue + [CLIENT] == [CLIENT] == s1.enqueued + [CLIENT];
    AndThen(n, s1, OfProducer(Link), AfterLink(workers, threadLock));
  }

  function AfterUnlock(workers: seq<Worker>, threadLock: Option<nat>): State {
    AfterLink(workers, threadLock).(producer := Enqueueing(Unlocked, CLIENT, false), enqueueLock := None,
                                    numConnections := 1)
  }

  lemma AfterUnlockIsReachable(n: nat, workers: seq<Worker>, threadLock: Option<nat>)
    requires Reachable(n, AfterLink(workers, threadLock))
    ensures Reachable(n, AfterUnlock(workers, threadLock))
  {
    var s0 := AfterLink(workers, threadLock);
    var s1 := s0.(producer := Enqueueing(Loaded(0), CLIENT, false));
    AndThen(n, s0, OfProducer(LoadCount), s1);
    var s2 := s1.(producer := Enqueueing(Stored, CLIENT, false), numConnections := 1);
    AndThen(n, s1, OfProducer(StoreCount), s2);
    AndThen(n, s2, OfProducer(UnlockQueue), AfterUnlock(workers, threadLock));
  }

  /** The producer polls again, its signal having found nobody waiting. */
  function Lost(workers: seq<Worker>, threadLock: Option<nat>): State {
    AfterUnlock(workers, threadLock).(producer := Polling)
  }

  lemma LostIsReachable(n: nat, workers: seq<Worker>, threadLock: Option<nat>)
    requires Reachable(n, InHand(workers, threadLock)) && Waiting !in workers
    ensures Reachable(n, Lost(workers, threadLock))
  {
    AfterLinkIsReachable(n, workers, threadLock);
    AfterUnlockIsReachable(n, workers, threadLock);
    var s0 := AfterUnlock(workers, threadLock);
    var s1 := s0.(producer := Enqueueing(Signalled, CLIENT, false));
    AndThen(n, s0, OfProducer(Signal(None)), s1);
    var s2 := s1.(producer := Handling);
    AndThen(n, s1, OfProducer(FinishData), s2);
    AndThen(n, s2, OfProducer(NextPoll), Lost(workers, threadLock));
  }

  /** The failing run of a pool of one: test, enqueue, signal, wait. A pool of none has nobody to wake. */
  lemma SmallPoolForgets(n: nat)
    requires n <= 1
    ensures exists s :: Reachable(n, s) && Forgotten(s) && s.producer.Polling? && s.batch == [] && s.armed == {}
  {
    var workers := if n == 0 then [] else [Outside];
    QuietIsReachable(n);
    assert Crew(n, n) == workers;
    ConnectedIsReachable(n, workers);
    InHandIsReachable(n, workers);
    if n == 0 {
      LostIsReachable(0, [], None);
      assert Forgotten(Lost([], None));
    } else {
      DozingIsReachable();
      LostIsReachable(1, [Dozing], Some(0));
      var s := Lost([Waiting], None);
      assert Lost([Dozing], Some(0)).workers[0 := Waiting] == [Waiting];
      AndThen(1, Lost([Dozing], Some(0)), OfWorker(0, StartWait), s);
      assert Forgotten(s);
    }
  }

  /** A queued task can be forgotten exactly when the pool has at most one worker. */
  lemma WakeUpIsLostOnlyInSmallPools(n: nat)
    ensures (exists s :: Reachable(n, s) && Forgotten(s)) <==> n <= 1
  {
    if n <= 1 {
      SmallPoolForgets(n);
    } else {
      forall s | Reachable(n, s) ensures !Forgotten(s) { TwoWorkersForgetNothing(n, s); }
    }
  }
}
