/**
 * The producer/consumer protocol of orchestrator.c and thread_handler.c as an interleaved step
 * system: one producer, any number of workers, `thread_lock`, `enqueue_lock`, one condition
 * variable, and the kernel's descriptor table and kqueue. One step is one access to shared state;
 * memory is sequentially consistent and wake-ups may be spurious.
 */
module Dispatch {
  import opened Wrappers

  const MAX_EVENTS := 256

  /**
   * A queued descriptor. `conn` numbers the `accept` it came from, so that a reused descriptor
   * number can be told apart; no step looks at it.
   */
  datatype Task = Task(fd: nat, conn: nat)

  datatype Event = Listen | Data(task: Task, eof: bool)

  /** Where the producer is inside `enqueue_task` and the rest of `process_data_event`. */
  datatype Phase = WantLock | Locked | Linked | Loaded(seen: int) | Stored | Unlocked | Signalled

  datatype Producer =
    | Starting(created: nat)     // creating workers; the queue sentinel does not exist yet
    | Polling                    // inside kevent
    | Handling                   // about to look at the next event of the batch
    | Accepted(task: Task)       // accept returned, not registered yet
    | Enqueueing(phase: Phase, task: Task, eof: bool)
    | Stopped

  datatype Worker =
    | NotCreated
    | Outside                    // top of the loop
    | Testing                    // has thread_lock, about to read num_connections
    | Dozing                     // has thread_lock, saw num_connections == 0, about to wait
    | Waiting                    // in pthread_cond_wait, lock given up
    | Woken                      // must get thread_lock back before testing again
    | Ready                      // has thread_lock, saw num_connections != 0
    | Pulling                    // has both locks, about to read queue_head->next
    | NotFound                   // has both locks, in the "no task found" branch
    | Taken(task: Task)          // has both locks, task still linked
    | Popped(task: Task)         // has both locks, task unlinked
    | Counting(task: Task, seen: int)  // has both locks, num_connections read for the decrement
    | Counted(task: Task)        // has both locks, decrement stored
    | Leaving(task: Task)        // has thread_lock only
    | Processing(task: Task)     // no lock

  datatype Actor = TheProducer | TheWorker(w: nat)

  datatype State = State(
    producer: Producer,
    batch: seq<Event>,             // events of the current kevent call not handled yet
    workers: seq<Worker>,
    threadLock: Option<nat>,
    enqueueLock: Option<Actor>,
    sentinel: bool,                // queue_head != NULL
    queue: seq<Task>,
    numConnections: int,
    open: map<nat, nat>,           // kernel: descriptor -> accept number
    armed: set<Task>,              // kqueue registrations that may still deliver
    disarmed: set<Task>,           // registrations EV_DISPATCH has disabled
    abandoned: seq<Task>,          // left open after an error, on no list any more
    nextConn: nat,
    enqueued: seq<Task>,           // history
    dequeued: seq<Task>,           // history
    closed: seq<nat>)              // history: accept numbers actually closed

  function Init(n: nat): State {
    State(Starting(0), [], seq(n, _ => NotCreated), None, None, false, [], 0,
          map[], {}, {}, [], 0, [], [], [])
  }

  // ---------------------------------------------------------------- the producer

  datatype ProducerStep =
    | CreateWorker | InitFails | AllocateSentinel
    | DeliverListen | DeliverData(task: Task, eof: bool) | PollReturns | PollFails
    | NextPoll | AcceptFails | Accept(fd: nat) | LoseAccepted | Register
    | TakeData | LockQueue | AllocationFails | Link | LoadCount | StoreCount | UnlockQueue
    | Signal(woken: Option<nat>) | FinishData

  predicate InPhase(s: State, phase: Phase) {
    s.producer.Enqueueing? && s.producer.phase == phase
  }

  predicate ProducerEnabled(s: State, p: ProducerStep) {
    match p
    case CreateWorker =>
      s.producer.Starting? && s.producer.created < |s.workers| && s.workers[s.producer.created].NotCreated?
    case InitFails => s.producer.Starting?
    case AllocateSentinel => s.producer == Starting(|s.workers|)
    case DeliverListen => s.producer.Polling? && |s.batch| < MAX_EVENTS && Listen !in s.batch
    case DeliverData(task, eof) => s.producer.Polling? && |s.batch| < MAX_EVENTS && task in s.armed
    case PollReturns => s.producer.Polling?
    case PollFails => s.producer.Polling? && s.batch == []
    case NextPoll => s.producer.Handling? && s.batch == []
    case AcceptFails => s.producer.Handling? && s.batch != [] && s.batch[0].Listen?
    case Accept(fd) => s.producer.Handling? && s.batch != [] && s.batch[0].Listen? && fd !in s.open
    case LoseAccepted => s.producer.Accepted?
    case Register => s.producer.Accepted?
    case TakeData => s.producer.Handling? && s.batch != [] && s.batch[0].Data?
    case LockQueue => InPhase(s, WantLock) && s.enqueueLock.None?
    case AllocationFails => InPhase(s, Locked)
    case Link => InPhase(s, Locked)
    case LoadCount => InPhase(s, Linked)
    case StoreCount => s.producer.Enqueueing? && s.producer.phase.Loaded?
    case UnlockQueue => InPhase(s, Stored)
    case Signal(woken) =>
      && InPhase(s, Unlocked)
      && (woken.Some? ==> woken.value < |s.workers| && s.workers[woken.value].Waiting?)
      && (woken.None? ==> forall w :: 0 <= w < |s.workers| ==> !s.workers[w].Waiting?)
    case FinishData => InPhase(s, Signalled)
  }

  function Advance(s: State, phase: Phase): State
    requires s.producer.Enqueueing?
  {
    s.(producer := s.producer.(phase := phase))
  }

  /** What EV_DELETE and close do to the registrations of a descriptor. */
  function Forget(registrations: set<Task>, fd: nat): (r: set<Task>)
    ensures forall t :: t in r <==> t in registrations && t.fd != fd
  {
    set t | t in registrations && t.fd != fd
  }

  function ProducerNext(s: State, p: ProducerStep): State
    requires ProducerEnabled(s, p)
  {
    match p
    case CreateWorker =>
      s.(producer := Starting(s.producer.created + 1), workers := s.workers[s.producer.created := Outside])
    case InitFails => s.(producer := Stopped)
    case AllocateSentinel => s.(producer := Polling, sentinel := true)
    case DeliverListen => s.(batch := s.batch + [Listen])
    case DeliverData(task, eof) =>
      s.(batch := s.batch + [Data(task, eof)], armed := s.armed - {task}, disarmed := s.disarmed + {task})
    case PollReturns => s.(producer := Handling)
    case PollFails => s.(producer := Stopped)
    case NextPoll => s.(producer := Polling)
    case AcceptFails => s.(batch := s.batch[1..])
    case Accept(fd) =>
      s.(producer := Accepted(Task(fd, s.nextConn)), batch := s.batch[1..],
         open := s.open[fd := s.nextConn], nextConn := s.nextConn + 1)
    case LoseAccepted => s.(producer := Handling, abandoned := s.abandoned + [s.producer.task])
    case Register => s.(producer := Handling, armed := s.armed + {s.producer.task})
    case TakeData => s.(producer := Enqueueing(WantLock, s.batch[0].task, s.batch[0].eof), batch := s.batch[1..])
    case LockQueue => Advance(s, Locked).(enqueueLock := Some(TheProducer))
    case AllocationFails =>
      s.(producer := Handling, enqueueLock := None, abandoned := s.abandoned + [s.producer.task])
    case Link =>
      Advance(s, Linked).(queue := s.queue + [s.producer.task], enqueued := s.enqueued + [s.producer.task])
    case LoadCount => Advance(s, Loaded(s.numConnections))
    case StoreCount => Advance(s, Stored).(numConnections := s.producer.phase.seen + 1)
    case UnlockQueue => Advance(s, Unlocked).(enqueueLock := None)
    case Signal(woken) =>
      Advance(s, Signalled).(workers := if woken.Some? then s.workers[woken.value := Woken] else s.workers)
    case FinishData =>
      if s.producer.eof then
        var fd := s.producer.task.fd;
        s.(producer := Handling, armed := Forget(s.armed, fd), disarmed := Forget(s.disarmed, fd))
      else s.(producer := Handling)
  }

  // ---------------------------------------------------------------- a worker

  datatype WorkerStep =
    | LockThread | SeeNone | SeeSome | StartWait | Wake | LockPull | ReadHead | GiveUp
    | Unlink | LoadDecrement | StoreDecrement | UnlockPull | UnlockThread | Close

  predicate WorkerEnabled(s: State, w: nat, k: WorkerStep) {
    w < |s.workers| &&
    var me := s.workers[w];
    match k
    case LockThread => (me.Outside? || me.Woken?) && s.threadLock.None?
    case SeeNone => me.Testing? && s.numConnections == 0
    case SeeSome => me.Testing? && s.numConnections != 0
    case StartWait => me.Dozing?
    case Wake => me.Waiting?
    case LockPull => me.Ready? && s.enqueueLock.None?
    case ReadHead => me.Pulling?
    case GiveUp => me.NotFound?
    case Unlink => me.Taken?
    case LoadDecrement => me.Popped?
    case StoreDecrement => me.Counting?
    case UnlockPull => me.Counted?
    case UnlockThread => me.Leaving?
    case Close => me.Processing?
  }

  function Move(s: State, w: nat, me: Worker): State
    requires w < |s.workers|
  {
    s.(workers := s.workers[w := me])
  }

  function WorkerNext(s: State, w: nat, k: WorkerStep): State
    requires WorkerEnabled(s, w, k)
  {
    var me := s.workers[w];
    match k
    case LockThread => Move(s, w, Testing).(threadLock := Some(w))
    case SeeNone => Move(s, w, Dozing)
    case SeeSome => Move(s, w, Ready)
    case StartWait => Move(s, w, Waiting).(threadLock := None)
    case Wake => Move(s, w, Woken)
    case LockPull => Move(s, w, Pulling).(enqueueLock := Some(TheWorker(w)))
    case ReadHead => Move(s, w, if s.queue == [] then NotFound else Taken(s.queue[0]))
    case GiveUp => Move(s, w, Outside).(enqueueLock := None, threadLock := None)
    case Unlink =>
      Move(s, w, Popped(me.task)).(
        queue := if s.queue == [] then [] else s.queue[1..], dequeued := s.dequeued + [me.task])
    case LoadDecrement => Move(s, w, Counting(me.task, s.numConnections))
    case StoreDecrement => Move(s, w, Counted(me.task)).(numConnections := me.seen - 1)
    case UnlockPull => Move(s, w, Leaving(me.task)).(enqueueLock := None)
    case UnlockThread => Move(s, w, Processing(me.task)).(threadLock := None)
    case Close =>
      var fd := me.task.fd;
      Move(s, w, Outside).(
        open := s.open - {fd}, armed := Forget(s.armed, fd), disarmed := Forget(s.disarmed, fd),
        closed := if fd in s.open then s.closed + [s.open[fd]] else s.closed)
  }

  // ---------------------------------------------------------------- runs

  datatype Step = OfProducer(p: ProducerStep) | OfWorker(w: nat, k: WorkerStep)

  predicate Enabled(s: State, step: Step) {
    match step
    case OfProducer(p) => ProducerEnabled(s, p)
    case OfWorker(w, k) => WorkerEnabled(s, w, k)
  }

  function Next(s: State, step: Step): State
    requires Enabled(s, step)
  {
    match step
    case OfProducer(p) => ProducerNext(s, p)
    case OfWorker(w, k) => WorkerNext(s, w, k)
  }

  /** `t` can be reached from `s` by performing `steps` in order. */
  predicate Reaches(s: State, steps: seq<Step>, t: State)
    decreases |steps|
  {
    if steps == [] then s == t
    else Enabled(s, steps[0]) && Reaches(Next(s, steps[0]), steps[1..], t)
  }
}
