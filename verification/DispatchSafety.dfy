/**
 * What every step of the dispatch protocol keeps, for any number of workers and any interleaving,
 * and what that means for every reachable state.
 */
module DispatchSafety {
  import opened Wrappers
  import opened Dispatch

  // ---------------------------------------------------------------- locks

  predicate HasThreadLock(me: Worker) {
    me.Testing? || me.Dozing? || me.Ready? || me.Pulling? || me.NotFound? || me.Taken? || me.Popped? || me.Counting?
    || me.Counted? || me.Leaving?
  }

  predicate HasQueueLock(me: Worker) {
    me.Pulling? || me.NotFound? || me.Taken? || me.Popped? || me.Counting? || me.Counted?
  }

  predicate ProducerHasQueueLock(p: Producer) {
    p.Enqueueing? && (p.phase.Locked? || p.phase.Linked? || p.phase.Loaded? || p.phase.Stored?)
  }

  ghost predicate LocksOf(s: State, w: nat, me: Worker) {
    (HasThreadLock(me) <==> s.threadLock == Some(w)) && (HasQueueLock(me) <==> s.enqueueLock == Some(TheWorker(w)))
  }

  /** Each lock has at most one holder, and the holder is the thread inside the critical section. */
  ghost predicate Locks(s: State) {
    && (forall w :: 0 <= w < |s.workers| ==> LocksOf(s, w, s.workers[w]))
    && (ProducerHasQueueLock(s.producer) <==> s.enqueueLock == Some(TheProducer))
    && (s.threadLock.Some? ==> s.threadLock.value < |s.workers|)
    && (s.enqueueLock.Some? && s.enqueueLock.value.TheWorker? ==> s.enqueueLock.value.w < |s.workers|)
  }

  /** `Locks` looks at the workers only through who holds what. */
  lemma SameHolders(s: State, s': State)
    requires Locks(s) && |s'.workers| == |s.workers| && s'.threadLock == s.threadLock
    requires forall w :: 0 <= w < |s.workers| ==> HasThreadLock(s'.workers[w]) == HasThreadLock(s.workers[w])
    requires forall w :: 0 <= w < |s.workers| ==> HasQueueLock(s'.workers[w]) == HasQueueLock(s.workers[w])
    requires s'.enqueueLock == s.enqueueLock ||
             (s.enqueueLock in {None, Some(TheProducer)} && s'.enqueueLock in {None, Some(TheProducer)})
    requires ProducerHasQueueLock(s'.producer) <==> s'.enqueueLock == Some(TheProducer)
    ensures Locks(s')
  {
    assert forall w :: 0 <= w < |s.workers| ==> LocksOf(s, w, s.workers[w]) ==> LocksOf(s', w, s'.workers[w]);
  }

  lemma ProducerKeepsLocks(s: State, p: ProducerStep)
    requires Locks(s) && ProducerEnabled(s, p)
    ensures Locks(ProducerNext(s, p))
  {
    SameHolders(s, ProducerNext(s, p));
  }

  lemma WorkerKeepsLocksOf(s: State, w: nat, k: WorkerStep, v: nat)
    requires Locks(s) && WorkerEnabled(s, w, k) && v < |s.workers|
    ensures LocksOf(WorkerNext(s, w, k), v, WorkerNext(s, w, k).workers[v])
  {
    assert LocksOf(s, w, s.workers[w]) && LocksOf(s, v, s.workers[v]);
  }

  lemma WorkerKeepsLocks(s: State, w: nat, k: WorkerStep)
    requires Locks(s) && WorkerEnabled(s, w, k)
    ensures Locks(WorkerNext(s, w, k))
  {
    var s' := WorkerNext(s, w, k);
    assert LocksOf(s, w, s.workers[w]);
    forall v | 0 <= v < |s'.workers| ensures LocksOf(s', v, s'.workers[v]) {
      WorkerKeepsLocksOf(s, w, k, v);
    }
  }

  // ---------------------------------------------------------------- the counter

  /** How far `num_connections` is off the linked length: only inside the critical section of a holder. */
  function Lag(s: State): int {
    match s.enqueueLock
    case None => 0
    case Some(TheProducer) =>
      if InPhase(s, Linked) || (s.producer.Enqueueing? && s.producer.phase.Loaded?) then -1 else 0
    case Some(TheWorker(w)) => if w < |s.workers| && (s.workers[w].Popped? || s.workers[w].Counting?) then 1 else 0
  }

  /** A worker past the test finds a task: the queue cannot run empty before it has popped. */
  ghost predicate SureOfTask(s: State, me: Worker) {
    match me
    case Ready => s.queue != []
    case Pulling => s.queue != []
    case Taken(t) => s.queue != [] && s.queue[0] == t
    case NotFound => false
    case Counting(_, seen) => seen == s.numConnections
    case _ => true
  }

  ghost predicate Counter(s: State) {
    && s.numConnections == |s.queue| + Lag(s)
    && s.numConnections >= 0
    && (s.producer.Enqueueing? && s.producer.phase.Loaded? ==> s.producer.phase.seen == s.numConnections)
    && (forall w :: 0 <= w < |s.workers| ==> SureOfTask(s, s.workers[w]))
    && (s.sentinel || ((s.producer.Starting? || s.producer.Stopped?) && s.queue == [] && s.enqueueLock.None?))
  }

  /** What a producer step can do to a worker's certainty: nothing, as it only appends and counts up. */
  lemma ProducerKeepsSure(s: State, p: ProducerStep, w: nat)
    requires Locks(s) && Counter(s) && ProducerEnabled(s, p) && w < |s.workers|
    ensures SureOfTask(ProducerNext(s, p), ProducerNext(s, p).workers[w])
  {
    assert SureOfTask(s, s.workers[w]);
  }

  lemma ProducerKeepsCounter(s: State, p: ProducerStep)
    requires Locks(s) && Counter(s) && ProducerEnabled(s, p)
    ensures Counter(ProducerNext(s, p))
  {
    forall w | 0 <= w < |s.workers| ensures SureOfTask(ProducerNext(s, p), ProducerNext(s, p).workers[w]) {
      ProducerKeepsSure(s, p, w);
    }
  }

  /** Of two different workers, the step of one leaves the other's certainty alone. */
  lemma WorkerKeepsSure(s: State, w: nat, k: WorkerStep, v: nat)
    requires Locks(s) && Counter(s) && WorkerEnabled(s, w, k) && v < |s.workers|
    ensures SureOfTask(WorkerNext(s, w, k), WorkerNext(s, w, k).workers[v])
  {
    assert SureOfTask(s, s.workers[w]) && SureOfTask(s, s.workers[v]);
  }

  lemma WorkerKeepsCounter(s: State, w: nat, k: WorkerStep)
    requires Locks(s) && Counter(s) && WorkerEnabled(s, w, k)
    ensures Counter(WorkerNext(s, w, k))
  {
    assert SureOfTask(s, s.workers[w]);
    forall v | 0 <= v < |s.workers| ensures SureOfTask(WorkerNext(s, w, k), WorkerNext(s, w, k).workers[v]) {
      WorkerKeepsSure(s, w, k, v);
    }
  }

  // ---------------------------------------------------------------- descriptors

  predicate Holds(me: Worker, t: Task) {
    match me
    case Popped(u) => u == t
    case Counting(u, _) => u == t
    case Counted(u) => u == t
    case Leaving(u) => u == t
    case Processing(u) => u == t
    case _ => false
  }

  predicate HeldUpstream(p: Producer, t: Task) {
    match p
    case Accepted(u) => u == t
    case Enqueueing(phase, u, _) => (phase.WantLock? || phase.Locked?) && u == t
    case _ => false
  }

  function One(b: bool): nat {
    if b then 1 else 0
  }

  /** How often `t` occurs among the tasks of a list. */
  function InList(tasks: seq<Task>, t: Task): nat {
    if tasks == [] then 0 else One(tasks[0] == t) + InList(tasks[1..], t)
  }

  function InBatch(batch: seq<Event>, t: Task): nat {
    if batch == [] then 0 else One(batch[0].Data? && batch[0].task == t) + InBatch(batch[1..], t)
  }

  function AtWorkers(workers: seq<Worker>, t: Task): nat {
    if workers == [] then 0 else One(Holds(workers[0], t)) + AtWorkers(workers[1..], t)
  }

  /** Places on the producer's side of the queue: armed in the kqueue, in the batch, in hand. */
  function Upstream(s: State, t: Task): nat {
    One(t in s.armed) + InBatch(s.batch, t) + One(HeldUpstream(s.producer, t))
  }

  /** In how many places `t` is: upstream, queued, at a worker, or abandoned. */
  function Places(s: State, t: Task): nat {
    Upstream(s, t) + InList(s.queue, t) + AtWorkers(s.workers, t) + InList(s.abandoned, t)
  }

  predicate IsOpen(s: State, t: Task) {
    t.fd in s.open && s.open[t.fd] == t.conn
  }

  /** Every open descriptor is in exactly one place, once, and no place holds a closed one. */
  ghost predicate Owned(s: State) {
    forall t: Task :: Places(s, t) == One(IsOpen(s, t))
  }

  lemma {:induction false} ListAppend(tasks: seq<Task>, u: Task, t: Task)
    ensures InList(tasks + [u], t) == InList(tasks, t) + One(u == t)
  {
    if tasks == [] {
      assert tasks + [u] == [u];
    } else {
      assert (tasks + [u])[1..] == tasks[1..] + [u];
      ListAppend(tasks[1..], u, t);
    }
  }

  lemma {:induction false} BatchAppend(batch: seq<Event>, e: Event, t: Task)
    ensures InBatch(batch + [e], t) == InBatch(batch, t) + One(e.Data? && e.task == t)
  {
    if batch == [] {
      assert batch + [e] == [e];
    } else {
      assert (batch + [e])[1..] == batch[1..] + [e];
      BatchAppend(batch[1..], e, t);
    }
  }

  lemma {:induction false} WorkersUpdate(workers: seq<Worker>, w: nat, me: Worker, t: Task)
    requires w < |workers|
    ensures AtWorkers(workers[w := me], t) + One(Holds(workers[w], t)) == AtWorkers(workers, t) + One(Holds(me, t))
  {
    if w == 0 {
      assert workers[w := me][1..] == workers[1..];
    } else {
      assert workers[w := me][1..] == workers[1..][w - 1 := me];
      WorkersUpdate(workers[1..], w - 1, me, t);
    }
  }

  /** Registrations belong to open descriptors, and the one being enqueued has no armed one. */
  ghost predicate Registered(s: State) {
    && (forall t :: t in s.armed + s.disarmed ==> t.fd in s.open && s.open[t.fd] == t.conn)
    && (s.producer.Enqueueing? ==>
          && (forall t :: t in s.armed ==> t.fd != s.producer.task.fd)
          && (forall t :: t in s.disarmed && t.fd == s.producer.task.fd ==> t == s.producer.task))
  }

  /** Accept numbers are handed out once: to one descriptor, until it is closed, once. */
  ghost predicate Numbers(open: map<nat, nat>, closed: seq<nat>, next: nat) {
    && (forall fd :: fd in open ==> open[fd] < next && open[fd] !in closed)
    && (forall fd, fd' :: fd in open && fd' in open && open[fd] == open[fd'] ==> fd == fd')
    && (forall c :: c in closed ==> c < next)
    && (forall i, j :: 0 <= i < j < |closed| ==> closed[i] != closed[j])
    && (forall c :: 0 <= c < next ==> c in closed || InUse(open, c))
  }

  ghost predicate InUse(open: map<nat, nat>, c: nat) {
    exists fd :: fd in open && open[fd] == c
  }

  ghost predicate Numbered(s: State) {
    Numbers(s.open, s.closed, s.nextConn)
  }

  /** The queue is first-in first-out, and no connection is queued twice. */
  ghost predicate Ordered(s: State) {
    && s.enqueued == s.dequeued + s.queue
    && (forall t :: t in s.enqueued ==> t.conn < s.nextConn && Upstream(s, t) == 0)
    && (forall t :: t in s.enqueued ==> t.conn in s.closed || IsOpen(s, t))
    && (forall i, j :: 0 <= i < j < |s.enqueued| ==> s.enqueued[i].conn != s.enqueued[j].conn)
  }

  ghost predicate Invariant(s: State) {
    Locks(s) && Counter(s) && Owned(s) && Registered(s) && Numbered(s) && Ordered(s)
  }

  /** A descriptor that is somewhere is open, and armed or batched tasks share no descriptor with it. */
  lemma OnePlace(s: State, t: Task)
    requires Owned(s) && Places(s, t) > 0
    ensures IsOpen(s, t) && Places(s, t) == 1
    ensures Places(s, t) > One(t in s.armed) ==> forall r :: r in s.armed ==> r.fd != t.fd
  {
    forall r | r in s.armed && r.fd == t.fd ensures r == t {
      assert Places(s, r) > 0;
    }
  }

  predicate TouchesBatch(p: ProducerStep) {
    p.DeliverListen? || p.DeliverData? || p.AcceptFails? || p.Accept? || p.TakeData?
  }

  lemma BatchMoves(s: State, p: ProducerStep, t: Task)
    requires ProducerEnabled(s, p) && TouchesBatch(p)
    ensures Upstream(ProducerNext(s, p), t) == Upstream(s, t) + One(p.Accept? && t == Task(p.fd, s.nextConn))
  {
    match p
    case DeliverListen => BatchAppend(s.batch, Listen, t);
    case DeliverData(task, eof) => BatchAppend(s.batch, Data(task, eof), t);
    case _ =>
  }

  /** What each producer step does upstream: accept adds, queueing and giving up take away. */
  lemma UpstreamMoves(s: State, p: ProducerStep, t: Task)
    requires Owned(s) && Registered(s) && ProducerEnabled(s, p)
    ensures Upstream(ProducerNext(s, p), t)
         == Upstream(s, t) + One(p.Accept? && t == Task(p.fd, s.nextConn))
            - One((p.Link? || p.LoseAccepted? || p.AllocationFails?) && t == s.producer.task)
  {
    if TouchesBatch(p) {
      BatchMoves(s, p, t);
    } else {
      var s' := ProducerNext(s, p);
      assert s'.batch == s.batch;
      if p.Register? {
        assert Places(s, s.producer.task) <= 1;
      } else {
        assert s'.armed == s.armed;
      }
    }
  }

  lemma DownstreamMoves(s: State, p: ProducerStep, t: Task)
    requires ProducerEnabled(s, p)
    ensures InList(ProducerNext(s, p).queue, t) + AtWorkers(ProducerNext(s, p).workers, t)
            + InList(ProducerNext(s, p).abandoned, t)
         == InList(s.queue, t) + AtWorkers(s.workers, t) + InList(s.abandoned, t)
            + One((p.Link? || p.LoseAccepted? || p.AllocationFails?) && t == s.producer.task)
  {
    match p
    case CreateWorker => WorkersUpdate(s.workers, s.producer.created, Outside, t);
    case Signal(woken) => if woken.Some? { WorkersUpdate(s.workers, woken.value, Woken, t); }
    case LoseAccepted => ListAppend(s.abandoned, s.producer.task, t);
    case AllocationFails => ListAppend(s.abandoned, s.producer.task, t);
    case Link => ListAppend(s.queue, s.producer.task, t);
    case _ =>
  }

  /** A producer step moves descriptors between places; only accept brings a new one. */
  lemma ProducerMoves(s: State, p: ProducerStep, t: Task)
    requires Owned(s) && Registered(s) && ProducerEnabled(s, p)
    ensures Places(ProducerNext(s, p), t) == Places(s, t) + One(p.Accept? && t == Task(p.fd, s.nextConn))
  {
    UpstreamMoves(s, p, t);
    DownstreamMoves(s, p, t);
  }

  lemma ProducerKeepsOwned(s: State, p: ProducerStep)
    requires Owned(s) && Registered(s) && Numbered(s) && ProducerEnabled(s, p)
    ensures Owned(ProducerNext(s, p))
  {
    forall t: Task ensures Places(ProducerNext(s, p), t) == One(IsOpen(ProducerNext(s, p), t)) {
      ProducerMoves(s, p, t);
    }
  }

  /** A worker about to close holds the only reference to the descriptor, which is the one it was given. */
  lemma CloseOwns(s: State, w: nat)
    requires Owned(s) && w < |s.workers| && s.workers[w].Processing?
    ensures var t := s.workers[w].task;
            IsOpen(s, t) && Places(s, t) == 1 && forall r :: r in s.armed ==> r.fd != t.fd
  {
    var t := s.workers[w].task;
    WorkersUpdate(s.workers, w, Outside, t);
    OnePlace(s, t);
  }

  lemma WorkerLeavesUpstream(s: State, w: nat, k: WorkerStep, t: Task)
    requires Owned(s) && WorkerEnabled(s, w, k)
    ensures Upstream(WorkerNext(s, w, k), t) == Upstream(s, t)
  {
    if k.Close? { CloseOwns(s, w); }
    assert WorkerNext(s, w, k).armed == s.armed;
  }

  /** A worker step moves descriptors between places; only close takes one away. */
  lemma WorkerMoves(s: State, w: nat, k: WorkerStep, t: Task)
    requires Owned(s) && Counter(s) && WorkerEnabled(s, w, k)
    ensures Places(WorkerNext(s, w, k), t) + One(k.Close? && t == s.workers[w].task) == Places(s, t)
  {
    var s' := WorkerNext(s, w, k);
    WorkerLeavesUpstream(s, w, k, t);
    WorkersUpdate(s.workers, w, s'.workers[w], t);
    assert s'.workers == s.workers[w := s'.workers[w]] && s'.abandoned == s.abandoned;
    if k.Unlink? {
      assert SureOfTask(s, s.workers[w]);
    } else {
      assert s'.queue == s.queue;
    }
  }

  lemma WorkerKeepsOwned(s: State, w: nat, k: WorkerStep)
    requires Owned(s) && Counter(s) && WorkerEnabled(s, w, k)
    ensures Owned(WorkerNext(s, w, k))
  {
    if k.Close? { CloseOwns(s, w); }
    forall t: Task ensures Places(WorkerNext(s, w, k), t) == One(IsOpen(WorkerNext(s, w, k), t)) {
      WorkerMoves(s, w, k, t);
    }
  }

  lemma ProducerKeepsRegistered(s: State, p: ProducerStep)
    requires Owned(s) && Registered(s) && ProducerEnabled(s, p)
    ensures Registered(ProducerNext(s, p))
  {
    if p.TakeData? {
      OnePlace(s, s.batch[0].task);
    } else if p.Register? {
      OnePlace(s, s.producer.task);
    }
  }

  lemma WorkerKeepsRegistered(s: State, w: nat, k: WorkerStep)
    requires Registered(s) && WorkerEnabled(s, w, k)
    ensures Registered(WorkerNext(s, w, k))
  {
  }

  lemma NumbersAfterAccept(open: map<nat, nat>, closed: seq<nat>, next: nat, fd: nat)
    requires Numbers(open, closed, next) && fd !in open
    ensures Numbers(open[fd := next], closed, next + 1)
  {
    forall c | 0 <= c < next + 1 ensures c in closed || InUse(open[fd := next], c) {
      if c == next {
        assert open[fd := next][fd] == c;
      } else if c !in closed {
        var other :| other in open && open[other] == c;
        assert open[fd := next][other] == c;
      }
    }
  }

  lemma NumbersAfterClose(open: map<nat, nat>, closed: seq<nat>, next: nat, fd: nat)
    requires Numbers(open, closed, next) && fd in open
    ensures Numbers(open - {fd}, closed + [open[fd]], next)
  {
    var closed' := closed + [open[fd]];
    assert closed'[|closed|] == open[fd];
    forall c | 0 <= c < next ensures c in closed' || InUse(open - {fd}, c) {
      if c !in closed' {
        assert c !in closed;
        var other :| other in open && open[other] == c;
        assert (open - {fd})[other] == c;
      }
    }
  }

  lemma ProducerKeepsNumbered(s: State, p: ProducerStep)
    requires Numbered(s) && ProducerEnabled(s, p)
    ensures Numbered(ProducerNext(s, p))
  {
    hide Numbers;
    if p.Accept? { NumbersAfterAccept(s.open, s.closed, s.nextConn, p.fd); }
  }

  lemma WorkerKeepsNumbered(s: State, w: nat, k: WorkerStep)
    requires Owned(s) && Numbered(s) && WorkerEnabled(s, w, k)
    ensures Numbered(WorkerNext(s, w, k))
  {
    hide Numbers;
    if k.Close? {
      CloseOwns(s, w);
      NumbersAfterClose(s.open, s.closed, s.nextConn, s.workers[w].task.fd);
    }
  }

  lemma LinkKeepsOrdered(s: State)
    requires Owned(s) && Registered(s) && Numbered(s) && Ordered(s) && ProducerEnabled(s, Link)
    ensures Ordered(ProducerNext(s, Link))
  {
    var s', task := ProducerNext(s, Link), s.producer.task;
    OnePlace(s, task);
    assert Upstream(s, task) == 1;
    forall t | t in s'.enqueued ensures t.conn < s'.nextConn && Upstream(s', t) == 0 {
      UpstreamMoves(s, Link, t);
    }
    forall t | t in s.enqueued ensures t.conn != task.conn {
      assert t.conn in s.closed || IsOpen(s, t);
    }
  }

  /** `Ordered` survives when the history stays, nothing old reappears upstream, and nothing old is lost. */
  lemma SameKeepsOrdered(s: State, s': State)
    requires Ordered(s) && s'.enqueued == s.enqueued && s'.nextConn >= s.nextConn
    requires s'.dequeued + s'.queue == s.dequeued + s.queue
    requires forall t :: t in s.enqueued ==> Upstream(s', t) == 0 && (t.conn in s'.closed || IsOpen(s', t))
    ensures Ordered(s')
  {
  }

  lemma ProducerKeepsOrdered(s: State, p: ProducerStep)
    requires Owned(s) && Registered(s) && Numbered(s) && Ordered(s) && ProducerEnabled(s, p)
    ensures Ordered(ProducerNext(s, p))
  {
    var s' := ProducerNext(s, p);
    if p.Link? {
      LinkKeepsOrdered(s);
    } else {
      forall t | t in s.enqueued ensures Upstream(s', t) == 0 && (t.conn in s'.closed || IsOpen(s', t)) {
        UpstreamMoves(s, p, t);
        assert s'.closed == s.closed && (IsOpen(s, t) ==> IsOpen(s', t));
      }
      SameKeepsOrdered(s, s');
    }
  }

  lemma WorkerKeepsOrdered(s: State, w: nat, k: WorkerStep)
    requires Owned(s) && Counter(s) && Ordered(s) && WorkerEnabled(s, w, k)
    ensures Ordered(WorkerNext(s, w, k))
  {
    var s' := WorkerNext(s, w, k);
    assert s'.dequeued + s'.queue == s.dequeued + s.queue by {
      assert SureOfTask(s, s.workers[w]);
    }
    if k.Close? {
      CloseOwns(s, w);
      assert s'.closed == s.closed + [s.workers[w].task.conn];
    }
    forall t | t in s.enqueued ensures Upstream(s', t) == 0 && (t.conn in s'.closed || IsOpen(s', t)) {
      WorkerLeavesUpstream(s, w, k, t);
    }
    SameKeepsOrdered(s, s');
  }

  lemma StepKeepsInvariant(s: State, step: Step)
    requires Invariant(s) && Enabled(s, step)
    ensures Invariant(Next(s, step))
  {
    match step
    case OfProducer(p) =>
      ProducerKeepsLocks(s, p);
      ProducerKeepsCounter(s, p);
      ProducerKeepsOwned(s, p);
      ProducerKeepsRegistered(s, p);
      ProducerKeepsNumbered(s, p);
      ProducerKeepsOrdered(s, p);
    case OfWorker(w, k) =>
      WorkerKeepsLocks(s, w, k);
      WorkerKeepsCounter(s, w, k);
      WorkerKeepsOwned(s, w, k);
      WorkerKeepsRegistered(s, w, k);
      WorkerKeepsNumbered(s, w, k);
      WorkerKeepsOrdered(s, w, k);
  }

  lemma {:induction false} NoneAtWorkers(n: nat, t: Task)
    ensures AtWorkers(seq(n, _ => NotCreated), t) == 0
  {
    if n > 0 {
      assert seq(n, _ => NotCreated)[1..] == seq(n - 1, _ => NotCreated);
      NoneAtWorkers(n - 1, t);
    }
  }

  lemma {:induction false} RunKeepsInvariant(s: State, steps: seq<Step>, t: State)
    requires Invariant(s) && Reaches(s, steps, t)
    ensures Invariant(t)
    decreases |steps|
  {
    if steps != [] {
      StepKeepsInvariant(s, steps[0]);
      RunKeepsInvariant(Next(s, steps[0]), steps[1..], t);
    }
  }

  /** `s` occurs in some run of a process with `n` workers. */
  ghost predicate Reachable(n: nat, s: State) {
    exists steps :: Reaches(Init(n), steps, s)
  }

  lemma ReachableInvariant(n: nat, s: State)
    requires Reachable(n, s)
    ensures Invariant(s)
  {
    var steps :| Reaches(Init(n), steps, s);
    forall t ensures AtWorkers(Init(n).workers, t) == 0 { NoneAtWorkers(n, t); }
    RunKeepsInvariant(Init(n), steps, s);
  }

  // ---------------------------------------------------------------- what every reachable state shows

  /** No worker ever reaches the "no task found" branch, nor dereferences a missing sentinel. */
  lemma TaskIsAlwaysFound(n: nat, s: State, w: nat)
    requires Reachable(n, s) && w < |s.workers|
    ensures !s.workers[w].NotFound?
    ensures s.workers[w].Ready? || s.workers[w].Pulling? ==> s.sentinel && s.queue != []
  {
    ReachableInvariant(n, s);
    assert SureOfTask(s, s.workers[w]);
  }

  /** `num_connections` is the queue length whenever `enqueue_lock` is free, and exceeds it only mid-pop. */
  lemma CounterTracksQueue(n: nat, s: State)
    requires Reachable(n, s)
    ensures s.enqueueLock.None? ==> s.numConnections == |s.queue|
    ensures s.numConnections > |s.queue| ==>
              exists w :: 0 <= w < |s.workers| && (s.workers[w].Popped? || s.workers[w].Counting?) &&
                          s.threadLock == Some(w)
    ensures 0 <= s.numConnections <= |s.queue| + 1
  {
    ReachableInvariant(n, s);
    if s.numConnections > |s.queue| {
      assert HasThreadLock(s.workers[s.enqueueLock.value.w]);
    }
  }

  /** At most one thread is between lock and unlock of `enqueue_lock`, and at most one of `thread_lock`. */
  lemma MutualExclusion(n: nat, s: State, v: nat, w: nat)
    requires Reachable(n, s) && v < |s.workers| && w < |s.workers|
    ensures HasThreadLock(s.workers[v]) && HasThreadLock(s.workers[w]) ==> v == w
    ensures HasQueueLock(s.workers[v]) && HasQueueLock(s.workers[w]) ==> v == w
    ensures HasQueueLock(s.workers[v]) ==> !ProducerHasQueueLock(s.producer)
  {
    ReachableInvariant(n, s);
  }

  /** Tasks leave in the order they came, and no connection is ever queued, hence served, twice. */
  lemma FirstInFirstOut(n: nat, s: State)
    requires Reachable(n, s)
    ensures s.enqueued == s.dequeued + s.queue
    ensures forall i, j :: 0 <= i < j < |s.enqueued| ==> s.enqueued[i].conn != s.enqueued[j].conn
  {
    ReachableInvariant(n, s);
  }

  /** An accepted connection is closed, exactly once and held nowhere, or open and held in exactly one place. */
  lemma AcceptedIsOwnedOnce(n: nat, s: State, conn: nat)
    requires Reachable(n, s) && conn < s.nextConn
    ensures conn in s.closed ==> forall fd :: Places(s, Task(fd, conn)) == 0
    ensures conn !in s.closed ==> exists fd :: IsOpen(s, Task(fd, conn)) && Places(s, Task(fd, conn)) == 1
                                    && forall other :: other != fd ==> Places(s, Task(other, conn)) == 0
    ensures forall i, j :: 0 <= i < j < |s.closed| ==> s.closed[i] != s.closed[j]
  {
    ReachableInvariant(n, s);
    if conn !in s.closed {
      assert InUse(s.open, conn);
      var fd :| fd in s.open && s.open[fd] == conn;
      assert IsOpen(s, Task(fd, conn)) && Places(s, Task(fd, conn)) == 1;
    }
  }

  /**
   * close(2) by a worker always closes the connection the worker was given, never a reuse of its number, and
   * takes nothing but that connection's descriptor and registration away.
   */
  lemma CloseHitsOwnConnection(n: nat, s: State, w: nat)
    requires Reachable(n, s) && WorkerEnabled(s, w, Close)
    ensures var s', task := WorkerNext(s, w, Close), s.workers[w].task;
            && s'.closed == s.closed + [task.conn] && task.conn !in s.closed
            && s'.open == s.open - {task.fd} && s'.armed == s.armed && s'.disarmed == s.disarmed - {task}
  {
    ReachableInvariant(n, s);
    CloseOwns(s, w);
    assert WorkerNext(s, w, Close).armed == s.armed;
  }

  /**
   * At end of input EV_DELETE removes exactly the registration of the connection it is for: afterwards no
   * registration has its descriptor, and every other one is still there. Without end of input all stay.
   */
  lemma DeleteSparesNewerConnections(n: nat, s: State)
    requires Reachable(n, s) && ProducerEnabled(s, FinishData)
    ensures var s', task := ProducerNext(s, FinishData), s.producer.task;
            && s'.producer == Handling && s'.armed == s.armed && s'.open == s.open
            && (s.producer.eof ==> s'.disarmed == s.disarmed - {task})
            && (s.producer.eof ==> forall r :: r in s'.armed + s'.disarmed ==> r.fd != task.fd)
            && (!s.producer.eof ==> s'.disarmed == s.disarmed)
            && (forall r :: r in s.disarmed && r !in s'.disarmed ==> r == task)
  {
    ReachableInvariant(n, s);
    var s' := ProducerNext(s, FinishData);
    assert s'.armed == s.armed;
    assert s.producer.eof ==> s'.disarmed == s.disarmed - {s.producer.task};
  }
}
