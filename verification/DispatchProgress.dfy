/**
 * What becomes of events and connections: delivered events are handled one by one and in order, and an
 * accepted connection can still be closed unless it was given up or the producer stopped with it.
 */
module DispatchProgress {
  import opened Wrappers
  import opened Dispatch
  import opened DispatchSafety
  import opened DispatchWakeups

  // ---------------------------------------------------------------- events

  /** The registrations of delivered events are disarmed until the event has been handled. */
  ghost predicate Delivered(s: State) {
    && s.armed !! s.disarmed
    && (forall e :: e in s.batch && e.Data? ==> e.task in s.disarmed)
    && (s.producer.Enqueueing? ==>
          s.producer.task in if HeldUpstream(s.producer, s.producer.task) then s.disarmed else Sent(s))
    && (s.producer.Accepted? ==> s.producer.task !in s.armed + s.disarmed)
  }

  function Sent(s: State): set<Task> {
    set t | t in s.enqueued
  }

  /** One kevent call returns at most 256 events, and the listening socket once. */
  ghost predicate Batched(s: State) {
    && |s.batch| <= 256
    && forall i, j :: 0 <= i < j < |s.batch| ==> !s.batch[i].Listen? || !s.batch[j].Listen?
  }

  /** Nothing is delivered before every worker exists, and no event is at hand when the producer stops. */
  ghost predicate StartsInOrder(s: State) {
    && (s.producer.Starting? || s.producer.Stopped? ==> s.batch == [])
    && (s.producer.Starting? ==>
          && s.armed == {} && s.producer.created <= |s.workers|
          && forall w :: s.producer.created <= w < |s.workers| ==> s.workers[w].NotCreated?)
  }

  ghost predicate Progress(s: State) {
    Invariant(s) && Roster(s) && Delivered(s) && Batched(s) && StartsInOrder(s)
  }

  lemma {:induction false} BatchCounts(batch: seq<Event>, e: Event)
    requires e in batch && e.Data?
    ensures InBatch(batch, e.task) > 0
  {
    if batch[0] != e { BatchCounts(batch[1..], e); }
  }

  lemma {:induction false} CountsInBatch(batch: seq<Event>, t: Task) returns (e: Event)
    requires InBatch(batch, t) > 0
    ensures e in batch && e.Data? && e.task == t
  {
    if batch[0].Data? && batch[0].task == t {
      e := batch[0];
    } else {
      e := CountsInBatch(batch[1..], t);
    }
  }

  /** EV_DELETE touches no registration whose event is still to be handled. */
  lemma FinishKeepsDelivered(s: State)
    requires Invariant(s) && Delivered(s) && ProducerEnabled(s, FinishData)
    ensures Delivered(ProducerNext(s, FinishData))
  {
    forall e | e in s.batch && e.Data? ensures e.task.fd != s.producer.task.fd {
      BatchCounts(s.batch, e);
      assert s.producer.task in s.enqueued;
      assert Upstream(s, s.producer.task) == 0;
    }
  }

  lemma ProducerKeepsDelivered(s: State, p: ProducerStep)
    requires Invariant(s) && Delivered(s) && ProducerEnabled(s, p)
    ensures Delivered(ProducerNext(s, p))
  {
    if p.FinishData? {
      FinishKeepsDelivered(s);
    } else if p.TakeData? {
      assert s.batch[0] in s.batch;
    }
  }

  lemma CloseKeepsDelivered(s: State, w: nat)
    requires Invariant(s) && Delivered(s) && WorkerEnabled(s, w, Close)
    ensures Delivered(WorkerNext(s, w, Close))
  {
    var t := s.workers[w].task;
    CloseOwns(s, w);
    WorkersUpdate(s.workers, w, Outside, t);
    assert Upstream(s, t) == 0;
    forall e | e in s.batch && e.Data? ensures e.task.fd != t.fd {
      BatchCounts(s.batch, e);
    }
  }

  lemma WorkerKeepsDelivered(s: State, w: nat, k: WorkerStep)
    requires Invariant(s) && Delivered(s) && WorkerEnabled(s, w, k)
    ensures Delivered(WorkerNext(s, w, k))
  {
    if k.Close? { CloseKeepsDelivered(s, w); }
  }

  lemma ProducerKeepsBatched(s: State, p: ProducerStep)
    requires Batched(s) && ProducerEnabled(s, p)
    ensures Batched(ProducerNext(s, p))
  {
  }

  lemma ProducerStartsInOrder(s: State, p: ProducerStep)
    requires StartsInOrder(s) && ProducerEnabled(s, p)
    ensures StartsInOrder(ProducerNext(s, p))
  {
  }

  lemma WorkerKeepsOrder(s: State, w: nat, k: WorkerStep)
    requires Batched(s) && StartsInOrder(s) && WorkerEnabled(s, w, k)
    ensures Batched(WorkerNext(s, w, k)) && StartsInOrder(WorkerNext(s, w, k))
  {
    assert WorkerNext(s, w, k).batch == s.batch;
  }

  lemma StepKeepsProgress(s: State, step: Step)
    requires Progress(s) && Enabled(s, step)
    ensures Progress(Next(s, step)) && |Next(s, step).workers| == |s.workers|
  {
    hide Invariant, Delivered, Roster, Batched, StartsInOrder;
    StepKeepsInvariant(s, step);
    match step {
      case OfProducer(p) =>
        ProducerKeepsRoster(s, p);
        ProducerKeepsDelivered(s, p);
        ProducerKeepsBatched(s, p);
        ProducerStartsInOrder(s, p);
      case OfWorker(w, k) =>
        WorkerKeepsRoster(s, w, k);
        WorkerKeepsDelivered(s, w, k);
        WorkerKeepsOrder(s, w, k);
    }
  }

  lemma {:induction false} RunKeepsProgress(s: State, steps: seq<Step>, t: State)
    requires Progress(s) && Reaches(s, steps, t)
    ensures Progress(t) && |t.workers| == |s.workers|
    decreases |steps|
  {
    if steps != [] {
      StepKeepsProgress(s, steps[0]);
      RunKeepsProgress(Next(s, steps[0]), steps[1..], t);
    }
  }

  lemma ReachableProgress(n: nat, s: State)
    requires Reachable(n, s)
    ensures Progress(s) && |s.workers| == n
  {
    var steps :| Reaches(Init(n), steps, s);
    assert Reaches(Init(n), [], Init(n));
    ReachableInvariant(n, Init(n));
    RunKeepsProgress(Init(n), steps, s);
  }

  /** A delivered event's registration stays disarmed until its task is linked, so it is delivered once. */
  lemma DeliveredOnce(n: nat, s: State, t: Task, eof: bool)
    requires Reachable(n, s)
    ensures Data(t, eof) in s.batch ==> t in s.disarmed && t !in s.armed && IsOpen(s, t)
    ensures ProducerEnabled(s, DeliverData(t, eof)) ==>
              var s' := ProducerNext(s, DeliverData(t, eof));
              && s'.batch == s.batch + [Data(t, eof)] && s'.armed == s.armed - {t} && s'.disarmed == s.disarmed + {t}
              && forall e :: Data(t, e) !in s.batch
    ensures |s.batch| <= 256 && forall i, j :: 0 <= i < j < |s.batch| ==> !s.batch[i].Listen? || !s.batch[j].Listen?
  {
    ReachableProgress(n, s);
  }

  /** Until an event has been handled the producer goes on with its task and flag; the batch loses its first event. */
  lemma OneEventAtATime(s: State, p: ProducerStep)
    requires ProducerEnabled(s, p)
    ensures var s' := ProducerNext(s, p);
            && (s.producer.Polling? ==> s'.batch == s.batch || exists e :: s'.batch == s.batch + [e])
            && (s.producer.Handling? && s.batch != [] ==>
                  s'.batch == s.batch[1..] &&
                  match s.batch[0]
                  case Listen => s'.producer.Handling? || s'.producer.Accepted?
                  case Data(t, eof) => s'.producer == Enqueueing(WantLock, t, eof))
            && (s.producer.Enqueueing? && !s'.producer.Enqueueing? ==>
                  s'.producer == Handling && s'.batch == s.batch &&
                  (s'.abandoned == s.abandoned + [s.producer.task] || s.producer.phase == Signalled))
            && (s.producer.Enqueueing? && s'.producer.Enqueueing? ==>
                  s'.batch == s.batch && s'.producer.task == s.producer.task && s'.producer.eof == s.producer.eof)
  {
    match p
    case DeliverListen => assert ProducerNext(s, p).batch == s.batch + [Listen];
    case DeliverData(t, eof) => assert ProducerNext(s, p).batch == s.batch + [Data(t, eof)];
    case _ =>
  }

  // ---------------------------------------------------------------- every outcome of a system call can come

  /** Which results of kevent, accept, calloc and the condition variable the model allows, state by state. */
  lemma EnvironmentIsFree(s: State, t: Task, eof: bool, fd: nat, w: nat)
    ensures s.producer.Starting? ==> ProducerEnabled(s, InitFails)
    ensures s.producer.Polling? ==> ProducerEnabled(s, PollReturns)
    ensures s.producer.Polling? && s.batch == [] ==> ProducerEnabled(s, PollFails)
    ensures s.producer.Polling? && |s.batch| < 256 && t in s.armed ==> ProducerEnabled(s, DeliverData(t, eof))
    ensures s.producer.Polling? && |s.batch| < 256 && Listen !in s.batch ==> ProducerEnabled(s, DeliverListen)
    ensures s.producer.Handling? && s.batch != [] && s.batch[0].Listen? ==>
              ProducerEnabled(s, AcceptFails) && (fd !in s.open ==> ProducerEnabled(s, Accept(fd)))
    ensures s.producer.Accepted? ==> ProducerEnabled(s, LoseAccepted) && ProducerEnabled(s, Register)
    ensures InPhase(s, Locked) ==> ProducerEnabled(s, AllocationFails) && ProducerEnabled(s, Link)
    ensures w < |s.workers| && s.workers[w].Waiting? ==> WorkerEnabled(s, w, Wake)
    ensures w < |s.workers| && s.workers[w].Waiting? && InPhase(s, Unlocked) ==> ProducerEnabled(s, Signal(Some(w)))
  {
  }

  lemma {:induction false} StoppedStays(s: State, steps: seq<Step>, t: State)
    requires Reaches(s, steps, t) && s.producer.Stopped?
    ensures t.producer.Stopped? && t.batch == s.batch && t.enqueued == s.enqueued && t.nextConn == s.nextConn
    decreases |steps|
  {
    if steps != [] {
      StoppedStays(Next(s, steps[0]), steps[1..], t);
    }
  }

  /** After a failed start or a failed poll, and only then, the producer does nothing any more. */
  lemma FailuresStop(s: State, p: ProducerStep, steps: seq<Step>, t: State)
    requires ProducerEnabled(s, p) && Reaches(ProducerNext(s, p), steps, t)
    ensures ProducerNext(s, p).producer.Stopped? <==> p.InitFails? || p.PollFails?
    ensures p.InitFails? || p.PollFails? ==>
              && (forall q :: !ProducerEnabled(t, q))
              && t.batch == s.batch && t.enqueued == s.enqueued && t.nextConn == s.nextConn
  {
    if p.InitFails? || p.PollFails? {
      StoppedStays(ProducerNext(s, p), steps, t);
    }
  }

  // ---------------------------------------------------------------- who can move

  ghost predicate WorkerCanMove(s: State, w: nat) {
    exists k :: WorkerEnabled(s, w, k)
  }

  ghost predicate ProducerCanMove(s: State) {
    exists p :: ProducerEnabled(s, p)
  }

  /** The step a worker takes next, if no lock is in its way. */
  function NextOf(s: State, w: nat): WorkerStep
    requires w < |s.workers|
  {
    match s.workers[w]
    case NotCreated => Close
    case Outside => LockThread
    case Testing => if s.numConnections == 0 then SeeNone else SeeSome
    case Dozing => StartWait
    case Waiting => Wake
    case Woken => LockThread
    case Ready => LockPull
    case Pulling => ReadHead
    case NotFound => GiveUp
    case Taken(_) => Unlink
    case Popped(_) => LoadDecrement
    case Counting(_, _) => StoreDecrement
    case Counted(_) => UnlockPull
    case Leaving(_) => UnlockThread
    case Processing(_) => Close
  }

  ghost function SomeWaiting(s: State): (w: Option<nat>)
    ensures w.Some? ==> w.value < |s.workers| && s.workers[w.value].Waiting?
    ensures w.None? ==> forall v :: 0 <= v < |s.workers| ==> !s.workers[v].Waiting?
  {
    if v: nat :| v < |s.workers| && s.workers[v].Waiting? then Some(v) else None
  }

  /** How the producer gets on with a task in its hand, nothing failing. */
  ghost function NextPhase(s: State): ProducerStep
    requires s.producer.Enqueueing?
  {
    match s.producer.phase
    case WantLock => LockQueue
    case Locked => Link
    case Linked => LoadCount
    case Loaded(_) => StoreCount
    case Stored => UnlockQueue
    case Unlocked => Signal(SomeWaiting(s))
    case Signalled => FinishData
  }

  /** A worker that has thread_lock can go on, unless it needs enqueue_lock and the producer has it. */
  lemma HolderMoves(s: State, w: nat)
    requires Invariant(s) && w < |s.workers| && HasThreadLock(s.workers[w])
    ensures !s.workers[w].Ready? || s.enqueueLock != Some(TheProducer) ==> WorkerEnabled(s, w, NextOf(s, w))
  {
    assert LocksOf(s, w, s.workers[w]);
    if s.enqueueLock.Some? && s.enqueueLock.value.TheWorker? {
      var v := s.enqueueLock.value.w;
      assert LocksOf(s, v, s.workers[v]);
    }
  }

  /** A worker is held up only by a lock, and the holder of enqueue_lock never is. */
  lemma WorkerMovesUnlessLocked(n: nat, s: State, w: nat)
    requires Reachable(n, s) && w < n
    ensures |s.workers| == n
    ensures var me := s.workers[w];
            WorkerCanMove(s, w) <==>
              && !me.NotCreated? && ((me.Outside? || me.Woken?) ==> s.threadLock == None)
              && (me.Ready? ==> s.enqueueLock != Some(TheProducer))
    ensures s.enqueueLock == Some(TheWorker(w)) ==> WorkerCanMove(s, w)
    ensures s.threadLock == Some(w) && s.enqueueLock != Some(TheProducer) ==> WorkerCanMove(s, w)
  {
    ReachableProgress(n, s);
    assert LocksOf(s, w, s.workers[w]);
    if HasThreadLock(s.workers[w]) {
      HolderMoves(s, w);
    } else {
      assert WorkerEnabled(s, w, NextOf(s, w)) || s.workers[w].NotCreated? || s.threadLock.Some?;
    }
  }

  /** The producer is held up only by a worker that has enqueue_lock, or for good after a failure. */
  lemma ProducerMovesUnlessLocked(n: nat, s: State)
    requires Reachable(n, s)
    ensures ProducerCanMove(s) <==>
              !s.producer.Stopped? && !(InPhase(s, WantLock) && s.enqueueLock.Some?)
    ensures s.enqueueLock == Some(TheProducer) ==> ProducerCanMove(s)
  {
    ReachableProgress(n, s);
    hide Owned, Registered, Numbered, Ordered, Delivered, Roster, Batched;
    match s.producer {
      case Starting(_) => assert ProducerEnabled(s, InitFails);
      case Polling => assert ProducerEnabled(s, PollReturns);
      case Handling =>
        assert ProducerEnabled(s, NextPoll) || ProducerEnabled(s, AcceptFails) || ProducerEnabled(s, TakeData);
      case Accepted(_) => assert ProducerEnabled(s, Register);
      case Enqueueing(phase, _, _) =>
        assert ProducerEnabled(s, NextPhase(s)) || (phase.WantLock? && s.enqueueLock.Some?);
      case Stopped =>
    }
  }
}
