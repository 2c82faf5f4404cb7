/**
 * Which connections can still be closed: exactly those that were not given up, as long as there is a worker
 * and the producer has not stopped with them. From every reachable state some run closes each of them.
 */
module DispatchClosing {
  import opened Wrappers
  import opened Dispatch
  import opened DispatchSafety
  import opened DispatchWakeups
  import opened DispatchProgress

  ghost predicate Closes(s: State, steps: seq<Step>, s': State, conn: nat) {
    Reaches(s, steps, s') && conn in s'.closed
  }

  lemma StepThen(s: State, step: Step, steps: seq<Step>, s': State)
    requires Enabled(s, step) && Reaches(Next(s, step), steps, s')
    ensures Reaches(s, [step] + steps, s')
  {
    assert ([step] + steps)[1..] == steps;
  }

  // ---------------------------------------------------------------- from a worker

  /** How far a worker is from its next pop, or from waiting, closing or testing again. */
  function Rank(me: Worker): nat {
    match me
    case Popped(_) => 16
    case Counting(_, _) => 15
    case Counted(_) => 14
    case Leaving(_) => 13
    case Dozing => 12
    case Processing(_) => 11
    case Waiting => 10
    case Outside => 9
    case Woken => 9
    case Testing => 8
    case Ready => 7
    case Pulling => 6
    case Taken(_) => 5
    case _ => 0
  }

  lemma {:induction false} WorkerCloses(s: State, w: nat, t: Task) returns (steps: seq<Step>, s': State)
    requires Progress(s) && w < |s.workers| && Holds(s.workers[w], t)
    ensures Closes(s, steps, s', t.conn) && forall step :: step in steps ==> step.OfWorker?
    decreases Rank(s.workers[w])
  {
    hide Invariant, Roster, Delivered, Batched, StartsInOrder;
    var step := OfWorker(w, NextOf(s, w));
    StepKeepsProgress(s, step);
    var s1 := Next(s, step);
    if s.workers[w].Processing? {
      CloseIsExact(s, w);
      steps, s' := [], s1;
    } else {
      steps, s' := WorkerCloses(s1, w, t);
    }
    StepThen(s, step, steps, s');
    steps := [step] + steps;
  }

  lemma CloseIsExact(s: State, w: nat)
    requires Invariant(s) && w < |s.workers| && s.workers[w].Processing?
    ensures WorkerNext(s, w, Close).closed == s.closed + [s.workers[w].task.conn]
  {
    CloseOwns(s, w);
  }

  // ---------------------------------------------------------------- from the queue

  /** The worker that is let go on: the one that has thread_lock, or the first. */
  function Chosen(s: State): nat {
    if s.threadLock.Some? then s.threadLock.value else 0
  }

  function PhaseRank(p: Phase): nat {
    match p
    case WantLock => 8
    case Locked => 7
    case Linked => 6
    case Loaded(_) => 5
    case Stored => 4
    case Unlocked => 3
    case Signalled => 2
  }

  function PullRank(s: State): nat
    requires Chosen(s) < |s.workers|
  {
    if ProducerHasQueueLock(s.producer) then 100 + PhaseRank(s.producer.phase) else Rank(s.workers[Chosen(s)])
  }

  ghost predicate Staffed(s: State) {
    Progress(s) && s.workers != []
  }

  lemma ChosenExists(s: State)
    requires Staffed(s)
    ensures Chosen(s) < |s.workers|
    ensures s.sentinel ==> !s.workers[Chosen(s)].NotCreated?
    ensures s.threadLock.None? ==> !HasThreadLock(s.workers[Chosen(s)])
    ensures s.threadLock.Some? ==> HasThreadLock(s.workers[Chosen(s)])
  {
    assert LocksOf(s, Chosen(s), s.workers[Chosen(s)]);
    assert s.sentinel ==> Due(s, Chosen(s));
  }

  /** The producer leaves its critical section without touching what is queued. */
  lemma ProducerMakesWay(s: State) returns (step: Step)
    requires Staffed(s) && ProducerHasQueueLock(s.producer)
    ensures Enabled(s, step) && s.queue <= Next(s, step).queue && Next(s, step).workers == s.workers
    ensures step.OfProducer? && step.p in {Link, LoadCount, StoreCount, UnlockQueue}
    ensures Chosen(s) < |s.workers| && Chosen(Next(s, step)) < |s.workers| && PullRank(Next(s, step)) < PullRank(s)
  {
    ChosenExists(s);
    step := OfProducer(NextPhase(s));
  }

  /** The chosen worker gets closer to a pop, or pops. */
  lemma WorkerComesCloser(s: State) returns (step: Step)
    requires Staffed(s) && s.queue != [] && !ProducerHasQueueLock(s.producer)
    ensures Chosen(s) < |s.workers| && step == OfWorker(Chosen(s), NextOf(s, Chosen(s))) && Enabled(s, step)
    ensures var s' := Next(s, step);
            if step.k.Unlink? then s'.queue == s.queue[1..] && s'.workers[step.w] == Popped(s.queue[0])
            else s'.queue == s.queue && Chosen(s') < |s'.workers| && PullRank(s') < PullRank(s)
  {
    var w := Chosen(s);
    ChosenExists(s);
    step := OfWorker(w, NextOf(s, w));
    if s.threadLock.Some? { HolderMoves(s, w); }
    assert SureOfTask(s, s.workers[w]);
    StepKeepsProgress(s, step);
    ChosenExists(Next(s, step));
  }

  lemma {:induction false} QueueCloses(s: State, i: nat, t: Task) returns (steps: seq<Step>, s': State)
    requires Staffed(s) && i < |s.queue| && s.queue[i] == t && Chosen(s) < |s.workers|
    ensures Closes(s, steps, s', t.conn)
    ensures forall step :: step in steps ==> step.OfWorker? || step.p in {Link, LoadCount, StoreCount, UnlockQueue}
    decreases i, PullRank(s)
  {
    hide Progress, PullRank, Chosen, NextOf, ProducerHasQueueLock;
    var step;
    if ProducerHasQueueLock(s.producer) {
      step := ProducerMakesWay(s);
    } else {
      step := WorkerComesCloser(s);
    }
    var s1 := Next(s, step);
    StepKeepsProgress(s, step);
    if step.OfWorker? && step.k.Unlink? {
      if i == 0 {
        steps, s' := WorkerCloses(s1, step.w, t);
      } else {
        ChosenExists(s1);
        steps, s' := QueueCloses(s1, i - 1, t);
      }
    } else {
      steps, s' := QueueCloses(s1, i, t);
    }
    StepThen(s, step, steps, s');
    steps := [step] + steps;
  }

  // ---------------------------------------------------------------- from the producer's side

  /** One while `t` is not delivered yet. */
  function Stage(s: State, t: Task): nat {
    One(t in s.armed || s.producer == Accepted(t))
  }

  /** What is left of a worker's critical section under enqueue_lock. */
  function LockRank(me: Worker): nat {
    match me
    case Pulling => 5
    case Taken(_) => 4
    case Popped(_) => 3
    case Counting(_, _) => 2
    case Counted(_) => 1
    case _ => 0
  }

  function Delay(s: State): nat {
    match s.enqueueLock
    case Some(TheWorker(w)) => if w < |s.workers| then LockRank(s.workers[w]) else 0
    case _ => 0
  }

  /** What the producer has to do before it can deliver `t`, or before it has handled the events it has. */
  function Load(s: State, t: Task): nat {
    match s.producer
    case Polling => if t in s.armed && |s.batch| < 256 then 0 else 2 + 20 * |s.batch|
    case Handling => 1 + 20 * |s.batch|
    case Accepted(_) => 2 + 20 * |s.batch|
    case Enqueueing(phase, _, _) => 1 + 20 * |s.batch| + PhaseRank(phase) + if phase.WantLock? then Delay(s) else 0
    case _ => 0
  }

  /** The worker that keeps the producer from enqueue_lock gets on. */
  lemma WorkerMakesWay(s: State, t: Task) returns (step: Step)
    requires Staffed(s) && InPhase(s, WantLock) && s.enqueueLock.Some?
    ensures Enabled(s, step) && step.OfWorker? && Next(s, step).producer == s.producer
    ensures Upstream(Next(s, step), t) == Upstream(s, t)
    ensures Closer(s, Next(s, step), t)
  {
    var w := s.enqueueLock.value.w;
    assert LocksOf(s, w, s.workers[w]) && SureOfTask(s, s.workers[w]);
    step := OfWorker(w, NextOf(s, w));
    WorkerLeavesUpstream(s, w, step.k, t);
  }

  /** The next step of the producer when nothing fails and nothing more is delivered than `t`. */
  ghost function ProducerGoesOn(s: State, t: Task): ProducerStep
    requires !s.producer.Starting? && !s.producer.Stopped?
  {
    match s.producer
    case Polling => if t in s.armed && |s.batch| < 256 then DeliverData(t, false) else PollReturns
    case Handling =>
      if s.batch == [] then NextPoll else if s.batch[0].Listen? then AcceptFails else TakeData
    case Accepted(_) => Register
    case Enqueueing(_, _, _) => NextPhase(s)
  }

  lemma ProducerCanGoOn(s: State, t: Task)
    requires Staffed(s) && !s.producer.Stopped? && !s.producer.Starting?
    requires InPhase(s, WantLock) ==> s.enqueueLock.None?
    ensures ProducerEnabled(s, ProducerGoesOn(s, t)) && !ProducerNext(s, ProducerGoesOn(s, t)).producer.Stopped?
  {
  }

  /** Less is left of the way to `t`'s delivery, or of the events at hand. */
  ghost predicate Closer(s: State, s': State, t: Task) {
    Stage(s', t) < Stage(s, t) || (Stage(s', t) == Stage(s, t) && Load(s', t) < Load(s, t))
  }

  lemma HandlingShrinks(s: State, t: Task)
    requires s.producer.Enqueueing? && ProducerEnabled(s, NextPhase(s))
    ensures Closer(s, ProducerNext(s, NextPhase(s)), t)
  {
    hide SomeWaiting, Forget;
    match s.producer.phase
    case Signalled =>
      assert forall r :: r in ProducerNext(s, FinishData).armed ==> r in s.armed;
    case _ =>
      assert Stage(ProducerNext(s, NextPhase(s)), t) == Stage(s, t);
  }

  lemma LoadShrinks(s: State, t: Task)
    requires !s.producer.Stopped? && !s.producer.Starting? && ProducerEnabled(s, ProducerGoesOn(s, t))
    requires Upstream(s, t) > 0
    ensures Closer(s, ProducerNext(s, ProducerGoesOn(s, t)), t)
  {
    hide NextPhase;
    if s.producer.Enqueueing? {
      hide Closer;
      HandlingShrinks(s, t);
    }
  }

  lemma ProducerComesCloser(s: State, t: Task) returns (step: Step)
    requires Staffed(s) && !s.producer.Stopped? && Upstream(s, t) > 0
    requires InPhase(s, WantLock) ==> s.enqueueLock.None?
    ensures !s.producer.Starting? && step == OfProducer(ProducerGoesOn(s, t)) && Enabled(s, step)
    ensures var s' := Next(s, step);
            && !s'.producer.Stopped? && Closer(s, s', t)
            && if step.p.Link? && s.producer.task == t then s'.queue == s.queue + [t] else Upstream(s', t) > 0
  {
    var p := ProducerGoesOn(s, t);
    step := OfProducer(p);
    ProducerCanGoOn(s, t);
    LoadShrinks(s, t);
    hide Closer, ProducerGoesOn, Upstream;
    UpstreamMoves(s, p, t);
  }

  lemma {:induction false} ProducerCloses(s: State, t: Task) returns (steps: seq<Step>, s': State)
    requires Staffed(s) && !s.producer.Stopped? && Upstream(s, t) > 0
    ensures Closes(s, steps, s', t.conn)
    decreases Stage(s, t), Load(s, t)
  {
    hide Invariant, Roster, Delivered, Batched, StartsInOrder, Stage, Load, ProducerGoesOn;
    var step;
    if InPhase(s, WantLock) && s.enqueueLock.Some? {
      step := WorkerMakesWay(s, t);
    } else {
      step := ProducerComesCloser(s, t);
    }
    var s1 := Next(s, step);
    StepKeepsProgress(s, step);
    if step.OfProducer? && step.p.Link? && s.producer.task == t {
      ChosenExists(s1);
      steps, s' := QueueCloses(s1, |s.queue|, t);
    } else {
      steps, s' := ProducerCloses(s1, t);
    }
    StepThen(s, step, steps, s');
    steps := [step] + steps;
  }

  // ---------------------------------------------------------------- exactly these

  /** No worker will ever hold `t`: there is none, or `t` was given up, or the producer stopped before its data came. */
  ghost predicate Stranded(s: State, t: Task) {
    s.workers == [] || t in s.abandoned || (s.producer.Stopped? && t in s.armed)
  }

  lemma {:induction false} Listed(tasks: seq<Task>, t: Task)
    ensures InList(tasks, t) > 0 <==> t in tasks
  {
    if tasks != [] { Listed(tasks[1..], t); }
  }

  lemma {:induction false} WorkerHolding(workers: seq<Worker>, t: Task) returns (w: nat)
    requires AtWorkers(workers, t) > 0
    ensures w < |workers| && Holds(workers[w], t)
  {
    if Holds(workers[0], t) {
      w := 0;
    } else {
      w := WorkerHolding(workers[1..], t);
      w := w + 1;
    }
  }

  lemma StepKeepsAbandoned(s: State, step: Step, t: Task)
    requires t in s.abandoned && Enabled(s, step)
    ensures t in Next(s, step).abandoned && Places(Next(s, step), t) > 0
  {
    assert Next(s, step).abandoned == s.abandoned || s.abandoned <= Next(s, step).abandoned;
    Listed(Next(s, step).abandoned, t);
  }

  lemma StepKeepsStopped(s: State, step: Step, t: Task)
    requires Progress(s) && s.producer.Stopped? && t in s.armed && Enabled(s, step)
    ensures Next(s, step).producer.Stopped? && t in Next(s, step).armed && Places(Next(s, step), t) > 0
  {
    WorkerLeavesUpstream(s, step.w, step.k, t);
    assert Next(s, step).batch == [];
  }

  lemma StepKeepsIdle(s: State, step: Step, t: Task)
    requires s.workers == [] && IsOpen(s, t) && Enabled(s, step)
    ensures IsOpen(Next(s, step), t)
  {
  }

  lemma StepKeepsStranded(s: State, step: Step, t: Task)
    requires Progress(s) && IsOpen(s, t) && Stranded(s, t) && Enabled(s, step)
    ensures IsOpen(Next(s, step), t) && Stranded(Next(s, step), t)
  {
    StepKeepsProgress(s, step);
    hide ProducerNext, WorkerNext, ProducerEnabled, WorkerEnabled, Delivered, Batched, Roster, StartsInOrder;
    hide Places, IsOpen, Owned, Locks, Counter, Registered, Numbered, Ordered;
    if t in s.abandoned {
      StepKeepsAbandoned(s, step, t);
      OpenIfSomewhere(Next(s, step), t);
    } else if s.workers == [] {
      StepKeepsIdle(s, step, t);
    } else {
      StepKeepsStopped(s, step, t);
      OpenIfSomewhere(Next(s, step), t);
    }
  }

  lemma OpenIfSomewhere(s: State, t: Task)
    requires Owned(s) && Places(s, t) > 0
    ensures IsOpen(s, t)
  {
  }

  lemma {:induction false} RunKeepsStranded(s: State, steps: seq<Step>, s': State, t: Task)
    requires Progress(s) && IsOpen(s, t) && Stranded(s, t) && Reaches(s, steps, s')
    ensures IsOpen(s', t)
    decreases |steps|
  {
    if steps != [] {
      StepKeepsStranded(s, steps[0], t);
      StepKeepsProgress(s, steps[0]);
      RunKeepsStranded(Next(s, steps[0]), steps[1..], s', t);
    }
  }

  lemma OpenCloses(s: State, t: Task) returns (steps: seq<Step>, s': State)
    requires Progress(s) && IsOpen(s, t) && !Stranded(s, t)
    ensures Closes(s, steps, s', t.conn)
  {
    assert Places(s, t) == 1;
    Listed(s.queue, t);
    Listed(s.abandoned, t);
    if Upstream(s, t) > 0 {
      assert s.producer.Stopped? ==> s.batch == [];
      steps, s' := ProducerCloses(s, t);
    } else if t in s.queue {
      var i :| 0 <= i < |s.queue| && s.queue[i] == t;
      ChosenExists(s);
      steps, s' := QueueCloses(s, i, t);
    } else {
      var w := WorkerHolding(s.workers, t);
      steps, s' := WorkerCloses(s, w, t);
    }
  }

  /**
   * In every reachable state, some continuation closes an open connection exactly if there is a worker, the
   * connection was not given up, and the producer has not stopped while it waited for the connection's data.
   */
  lemma ClosableUnlessStranded(n: nat, s: State, t: Task)
    requires Reachable(n, s) && IsOpen(s, t)
    ensures (exists steps, s' :: Closes(s, steps, s', t.conn)) <==>
              n > 0 && t !in s.abandoned && (s.producer.Stopped? ==> t !in s.armed)
  {
    ReachableProgress(n, s);
    if Stranded(s, t) {
      forall steps, s' | Reaches(s, steps, s') ensures t.conn !in s'.closed {
        RunKeepsStranded(s, steps, s', t);
        RunKeepsProgress(s, steps, s');
      }
    } else {
      var steps, s' := OpenCloses(s, t);
    }
  }

  // ---------------------------------------------------------------- one whole run

  /** One connection, from its accept to its close: nothing is left of it but the history. */
  function Served(): State {
    Quiet([Outside]).(nextConn := 1, enqueued := [CLIENT], dequeued := [CLIENT], closed := [0])
  }

  /** The client is queued, the producer polls, and the only worker is on its way. */
  function Serving(me: Worker, threadLock: Option<nat>, enqueueLock: Option<Actor>): State {
    Lost([me], threadLock).(enqueueLock := enqueueLock)
  }

  /** The client has left the queue. */
  function Pulled(me: Worker, threadLock: Option<nat>, enqueueLock: Option<Actor>, numConnections: int): State {
    Serving(me, threadLock, enqueueLock).(queue := [], dequeued := [CLIENT], numConnections := numConnections)
  }

  lemma WorkerStepTo(s: State, k: WorkerStep, s': State)
    requires Reachable(1, s) && WorkerEnabled(s, 0, k) && WorkerNext(s, 0, k) == s'
    ensures Reachable(1, s')
  {
    AndThen(1, s, OfWorker(0, k), s');
  }

  lemma TakenIsReachable()
    ensures Reachable(1, Serving(Taken(CLIENT), Some(0), Some(TheWorker(0))))
  {
    var s0, s1 := Serving(Outside, None, None), Serving(Testing, Some(0), None);
    var s2, s3 := Serving(Ready, Some(0), None), Serving(Pulling, Some(0), Some(TheWorker(0)));
    QuietIsReachable(1);
    assert Crew(1, 1) == [Outside];
    ConnectedIsReachable(1, [Outside]);
    InHandIsReachable(1, [Outside]);
    LostIsReachable(1, [Outside], None);
    WorkerStepTo(s0, LockThread, s1);
    WorkerStepTo(s1, SeeSome, s2);
    WorkerStepTo(s2, LockPull, s3);
    WorkerStepTo(s3, ReadHead, Serving(Taken(CLIENT), Some(0), Some(TheWorker(0))));
  }

  lemma LeavingIsReachable()
    ensures Reachable(1, Pulled(Leaving(CLIENT), Some(0), None, 0))
  {
    var s0 := Serving(Taken(CLIENT), Some(0), Some(TheWorker(0)));
    var s1 := Pulled(Popped(CLIENT), Some(0), Some(TheWorker(0)), 1);
    var s2 := Pulled(Counting(CLIENT, 1), Some(0), Some(TheWorker(0)), 1);
    var s3 := Pulled(Counted(CLIENT), Some(0), Some(TheWorker(0)), 0);
    TakenIsReachable();
    WorkerStepTo(s0, Unlink, s1);
    WorkerStepTo(s1, LoadDecrement, s2);
    WorkerStepTo(s2, StoreDecrement, s3);
    WorkerStepTo(s3, UnlockPull, Pulled(Leaving(CLIENT), Some(0), None, 0));
  }

  /** A run of one worker that accepts, registers, delivers, queues, pulls and closes one connection. */
  lemma ServedIsReachable()
    ensures Reachable(1, Served())
    ensures Served().closed == [0] && Served().open == map[] && Served().queue == [] && Served().abandoned == []
    ensures Served().armed == Served().disarmed == {} && Served().numConnections == 0 && Served().producer == Polling
  {
    var s0, s1 := Pulled(Leaving(CLIENT), Some(0), None, 0), Pulled(Processing(CLIENT), None, None, 0);
    LeavingIsReachable();
    WorkerStepTo(s0, UnlockThread, s1);
    CloseServes(s1);
    WorkerStepTo(s1, Close, Served());
  }

  lemma CloseServes(s: State)
    requires s == Pulled(Processing(CLIENT), None, None, 0)
    ensures WorkerNext(s, 0, Close) == Served()
  {
    var s' := WorkerNext(s, 0, Close);
    assert s'.open == map[] && s'.armed == {} && s'.disarmed == {};
    assert s'.workers == [Outside] && s'.closed == [0];
  }
}
