/**
 base/thread/ThreadPool.cpp: a bounded queue between any number of producers and workers, under condition
 variables that wake one waiter and may wake spuriously.

 Every section that holds the mutex is one step: from acquiring it to releasing it by unlocking or by waiting. A
 signalled thread has been woken and has yet to acquire the mutex and test its condition again.
 */
module ThreadPools {
  import opened Options

  type Thread = nat
  type Task = nat

  datatype Workers = Workers(
    ready: set<Thread>,              // have seen isRunning_ and are about to call take()
    exited: set<Thread>,             // have left runInThread()
    sleeping: set<Thread>,           // waiting on notEmpty_
    signalled: set<Thread>)

  datatype Producers = Producers(
    sleeping: set<Thread>,           // waiting on notFull_
    signalled: set<Thread>,
    offered: map<Thread, Task>)      // the argument of a producer that is waiting

  datatype State = State(
    maxQueueSize: nat,               // 0 means unbounded
    isRunning: bool,
    queue: seq<Task>,
    workers: Workers,
    producers: Producers,
    put: seq<Task>,                  // history: tasks queued, in order
    taken: seq<Task>)                // history: tasks handed to workers, in order

  function Initial(maxQueueSize: nat): State {
    State(maxQueueSize, true, [], Workers({}, {}, {}, {}), Producers({}, {}, map[]), [], [])
  }

  /** isFull. */
  predicate IsFull(s: State) {
    s.maxQueueSize > 0 && |s.queue| >= s.maxQueueSize
  }

  /** notify wakes a waiter if there is one. */
  predicate CanWake(sleeping: set<Thread>, woken: Option<Thread>) {
    if sleeping == {} then woken.None? else woken.Some? && woken.value in sleeping
  }

  function Woken(woken: Option<Thread>): set<Thread> {
    if woken.Some? then {woken.value} else {}
  }

  datatype Op =
    | Test(w: Thread)                                    // while (isRunning_), by a worker between two tasks
    | Take(w: Thread, woken: Option<Thread>)             // take() up to its first wait or its return
    | TakeAgain(w: Thread, woken: Option<Thread>)        // a worker returning from notEmpty_.wait()
    | Put(p: Thread, f: Task, woken: Option<Thread>)     // put() up to its first wait or its return
    | PutAgain(p: Thread, woken: Option<Thread>)         // a producer returning from notFull_.wait()
    | SpuriousWorker(w: Thread)
    | SpuriousProducer(p: Thread)
    | Stop

  /** Taking a task notifies a producer, but only of a bounded queue. */
  predicate TakeWakes(s: State, woken: Option<Thread>) {
    if s.queue != [] && s.maxQueueSize > 0 then CanWake(s.producers.sleeping, woken) else woken.None?
  }

  predicate PutWakes(s: State, woken: Option<Thread>) {
    if IsFull(s) then woken.None? else CanWake(s.workers.sleeping, woken)
  }

  predicate Enabled(s: State, op: Op) {
    match op
    case Test(w) => w !in s.workers.ready + s.workers.exited + s.workers.sleeping + s.workers.signalled
    case Take(w, woken) => w in s.workers.ready && TakeWakes(s, woken)
    case TakeAgain(w, woken) => w in s.workers.signalled && TakeWakes(s, woken)
    case Put(p, _, woken) => p !in s.producers.sleeping && p !in s.producers.signalled && PutWakes(s, woken)
    case PutAgain(p, woken) => p in s.producers.signalled && p in s.producers.offered && PutWakes(s, woken)
    case SpuriousWorker(w) => w in s.workers.sleeping
    case SpuriousProducer(p) => p in s.producers.sleeping
    case Stop => true
  }

  /** The body of take() for a worker that holds the mutex: wait, return nothing, or return the first task. */
  function TakeSection(s: State, w: Thread, woken: Option<Thread>): State {
    if s.queue == [] && s.isRunning then
      s.(workers := s.workers.(sleeping := s.workers.sleeping + {w}))
    else if s.queue != [] then
      s.(queue := s.queue[1..], taken := s.taken + [s.queue[0]],
         producers := s.producers.(sleeping := s.producers.sleeping - Woken(woken),
                                   signalled := s.producers.signalled + Woken(woken)))
    else
      s
  }

  /** The body of put() for a producer that holds the mutex: wait, or queue the task and notify a worker. */
  function PutSection(s: State, p: Thread, f: Task, woken: Option<Thread>): State {
    if IsFull(s) then
      s.(producers := s.producers.(sleeping := s.producers.sleeping + {p}, offered := s.producers.offered[p := f]))
    else
      s.(queue := s.queue + [f], put := s.put + [f],
         producers := s.producers.(offered := s.producers.offered - {p}),
         workers := s.workers.(sleeping := s.workers.sleeping - Woken(woken),
                               signalled := s.workers.signalled + Woken(woken)))
  }

  function Step(s: State, op: Op): State
    requires Enabled(s, op)
  {
    match op
    case Test(w) =>
      s.(workers := if s.isRunning then s.workers.(ready := s.workers.ready + {w})
                    else s.workers.(exited := s.workers.exited + {w}))
    case Take(w, woken) => TakeSection(NoLongerReady(s, w), w, woken)
    case TakeAgain(w, woken) => TakeSection(Resumed(s, w), w, woken)
    case Put(p, f, woken) => PutSection(s, p, f, woken)
    case PutAgain(p, woken) => PutSection(ProducerResumed(s, p), p, s.producers.offered[p], woken)
    case SpuriousWorker(w) =>
      s.(workers := s.workers.(sleeping := s.workers.sleeping - {w}, signalled := s.workers.signalled + {w}))
    case SpuriousProducer(p) =>
      s.(producers := s.producers.(sleeping := s.producers.sleeping - {p}, signalled := s.producers.signalled + {p}))
    case Stop =>
      s.(isRunning := false,
         workers := s.workers.(sleeping := {}, signalled := s.workers.signalled + s.workers.sleeping))
  }

  function NoLongerReady(s: State, w: Thread): State {
    s.(workers := s.workers.(ready := s.workers.ready - {w}))
  }

  function Resumed(s: State, w: Thread): State {
    s.(workers := s.workers.(signalled := s.workers.signalled - {w}))
  }

  function ProducerResumed(s: State, p: Thread): State {
    s.(producers := s.producers.(signalled := s.producers.signalled - {p}))
  }

  // ---------------------------------------------------------------- the invariant

  predicate Bounded(s: State) {
    s.maxQueueSize > 0 ==> |s.queue| <= s.maxQueueSize
  }

  /** While a worker sleeps, there is a signalled worker for every queued task. */
  predicate EnoughWorkers(s: State) {
    s.workers.sleeping != {} ==> |s.queue| <= |s.workers.signalled|
  }

  /** While a producer is blocked, there is a signalled producer for every free slot. */
  predicate EnoughProducers(s: State) {
    s.producers.sleeping != {} ==> s.maxQueueSize > 0 && s.maxQueueSize - |s.queue| <= |s.producers.signalled|
  }

  predicate WorkersApart(w: Workers, isRunning: bool) {
    w.sleeping !! w.signalled && w.ready !! w.sleeping + w.signalled && (!isRunning ==> w.sleeping == {})
  }

  predicate ProducersApart(p: Producers) {
    p.sleeping !! p.signalled && p.sleeping + p.signalled <= p.offered.Keys
  }

  predicate Consistent(s: State) {
    && Bounded(s) && s.taken + s.queue == s.put
    && WorkersApart(s.workers, s.isRunning) && ProducersApart(s.producers)
  }

  predicate Inv(s: State) {
    Consistent(s) && EnoughWorkers(s) && EnoughProducers(s)
  }

  /** Waking a waiter moves one thread, if there is one to move. */
  lemma WakeMovesOne(sleeping: set<Thread>, signalled: set<Thread>, woken: Option<Thread>)
    requires sleeping !! signalled && CanWake(sleeping, woken)
    ensures (sleeping - Woken(woken)) !! (signalled + Woken(woken)) && Woken(woken) <= sleeping
    ensures |signalled + Woken(woken)| == |signalled| + if sleeping == {} then 0 else 1
  {
    if sleeping == {} {
      assert signalled + Woken(woken) == signalled;
    }
  }

  lemma TakePops(s: State, woken: Option<Thread>)
    requires Consistent(s) && EnoughProducers(s) && TakeWakes(s, woken) && s.queue != []
    ensures Consistent(TakeSection(s, 0, woken)) && EnoughProducers(TakeSection(s, 0, woken))
  {
    hide WorkersApart;
    assert (s.taken + [s.queue[0]]) + s.queue[1..] == s.taken + s.queue;
    if s.maxQueueSize > 0 {
      WakeMovesOne(s.producers.sleeping, s.producers.signalled, woken);
    } else {
      assert s.producers.sleeping - Woken(woken) == s.producers.sleeping;
      assert s.producers.signalled + Woken(woken) == s.producers.signalled;
    }
  }

  /** take() by a worker that holds the mutex, and so does not count as signalled any more. */
  lemma TakeSectionKeeps(s: State, w: Thread, woken: Option<Thread>)
    requires Consistent(s) && EnoughProducers(s) && TakeWakes(s, woken)
    requires s.workers.sleeping != {} ==> |s.queue| <= |s.workers.signalled| + 1
    requires w !in s.workers.signalled && w !in s.workers.ready
    ensures Inv(TakeSection(s, w, woken))
  {
    if s.queue != [] {
      hide Consistent, EnoughProducers;
      TakePops(s, woken);
    }
  }

  /** put() by a producer that holds the mutex, and so does not count as signalled any more. */
  lemma PutSectionKeeps(s: State, p: Thread, f: Task, woken: Option<Thread>)
    requires Consistent(s) && EnoughWorkers(s) && PutWakes(s, woken)
    requires s.producers.sleeping != {} ==>
               s.maxQueueSize > 0 && s.maxQueueSize - |s.queue| <= |s.producers.signalled| + 1
    requires p !in s.producers.sleeping && p !in s.producers.signalled
    ensures Inv(PutSection(s, p, f, woken))
  {
    if !IsFull(s) {
      assert s.taken + (s.queue + [f]) == s.taken + s.queue + [f];
      WakeMovesOne(s.workers.sleeping, s.workers.signalled, woken);
    }
  }

  lemma TakeFirstKeeps(s: State, w: Thread, woken: Option<Thread>)
    requires Inv(s) && Enabled(s, Take(w, woken))
    ensures Inv(Step(s, Take(w, woken)))
  {
    hide TakeSection;
    TakeSectionKeeps(NoLongerReady(s, w), w, woken);
  }

  lemma TakeAgainKeeps(s: State, w: Thread, woken: Option<Thread>)
    requires Inv(s) && Enabled(s, TakeAgain(w, woken))
    ensures Inv(Step(s, TakeAgain(w, woken)))
  {
    hide TakeSection;
    TakeSectionKeeps(Resumed(s, w), w, woken);
  }

  lemma PutAgainKeeps(s: State, p: Thread, woken: Option<Thread>)
    requires Inv(s) && Enabled(s, PutAgain(p, woken))
    ensures Inv(Step(s, PutAgain(p, woken)))
  {
    hide PutSection;
    PutSectionKeeps(ProducerResumed(s, p), p, s.producers.offered[p], woken);
  }

  lemma SpuriousWorkerKeeps(s: State, w: Thread)
    requires Inv(s) && w in s.workers.sleeping
    ensures Inv(Step(s, SpuriousWorker(w)))
  {
    hide ProducersApart;
  }

  lemma SpuriousProducerKeeps(s: State, p: Thread)
    requires Inv(s) && p in s.producers.sleeping
    ensures Inv(Step(s, SpuriousProducer(p)))
  {
    hide WorkersApart;
  }

  lemma TestKeeps(s: State, w: Thread)
    requires Inv(s) && Enabled(s, Test(w))
    ensures Inv(Step(s, Test(w)))
  {
    hide ProducersApart;
  }

  lemma StopKeeps(s: State)
    requires Inv(s)
    ensures Inv(Step(s, Stop))
  {
    hide ProducersApart;
  }

  lemma StepKeepsInv(s: State, op: Op)
    requires Inv(s) && Enabled(s, op)
    ensures Inv(Step(s, op))
  {
    hide TakeSection, PutSection;
    match op
    case Take(w, woken) => TakeFirstKeeps(s, w, woken);
    case TakeAgain(w, woken) => TakeAgainKeeps(s, w, woken);
    case Put(p, f, woken) => PutSectionKeeps(s, p, f, woken);
    case PutAgain(p, woken) => PutAgainKeeps(s, p, woken);
    case Test(w) => TestKeeps(s, w);
    case SpuriousWorker(w) => SpuriousWorkerKeeps(s, w);
    case SpuriousProducer(p) => SpuriousProducerKeeps(s, p);
    case Stop => StopKeeps(s);
  }

  // ---------------------------------------------------------------- runs

  predicate Legal(s: State, ops: seq<Op>)
    decreases |ops|
  {
    ops == [] || (Enabled(s, ops[0]) && Legal(Step(s, ops[0]), ops[1..]))
  }

  function Run(s: State, ops: seq<Op>): State
    requires Legal(s, ops)
    decreases |ops|
  {
    if ops == [] then s else Run(Step(s, ops[0]), ops[1..])
  }

  lemma {:induction false} RunKeepsInv(s: State, ops: seq<Op>)
    requires Inv(s) && Legal(s, ops)
    ensures Inv(Run(s, ops))
    decreases |ops|
  {
    if ops != [] {
      StepKeepsInv(s, ops[0]);
      RunKeepsInv(Step(s, ops[0]), ops[1..]);
    }
  }

  /** In every interleaving the queue respects its bound, and tasks leave once, in the order they came. */
  lemma BoundedAndInOrder(maxQueueSize: nat, ops: seq<Op>)
    requires Legal(Initial(maxQueueSize), ops)
    ensures var r := Run(Initial(maxQueueSize), ops);
            && (maxQueueSize > 0 ==> |r.queue| <= maxQueueSize)
            && r.taken + r.queue == r.put
  {
    RunKeepsInv(Initial(maxQueueSize), ops);
    BoundIsConstant(Initial(maxQueueSize), ops);
  }

  /**
   No lost notification: queued tasks never outnumber signalled workers while a worker sleeps unsignalled, and free
   slots never outnumber signalled producers while a producer does; after stop no worker sleeps unsignalled.
   */
  lemma NoLostNotification(maxQueueSize: nat, ops: seq<Op>)
    requires Legal(Initial(maxQueueSize), ops)
    ensures var r := Run(Initial(maxQueueSize), ops);
            && (r.workers.sleeping != {} ==> |r.queue| <= |r.workers.signalled|)
            && (r.producers.sleeping != {} ==> maxQueueSize - |r.queue| <= |r.producers.signalled|)
            && (!r.isRunning ==> r.workers.sleeping == {})
  {
    RunKeepsInv(Initial(maxQueueSize), ops);
    BoundIsConstant(Initial(maxQueueSize), ops);
  }

  /** The bound never changes: it is set before the pool starts. */
  lemma {:induction false} BoundIsConstant(s: State, ops: seq<Op>)
    requires Legal(s, ops)
    ensures Run(s, ops).maxQueueSize == s.maxQueueSize
    decreases |ops|
  {
    if ops != [] {
      BoundIsConstant(Step(s, ops[0]), ops[1..]);
    }
  }

  // ---------------------------------------------------------------- what put and take do

  /** A producer that is through put() has left its task at the end of the queue; one that waits still offers it. */
  lemma PutQueuesExactly(s: State, op: Op)
    requires Inv(s) && Enabled(s, op) && (op.Put? || op.PutAgain?)
    ensures var r := Step(s, op);
            var f := if op.Put? then op.f else s.producers.offered[op.p];
            if s.maxQueueSize > 0 && |s.queue| == s.maxQueueSize
            then && r.queue == s.queue && op.p in r.producers.sleeping
                 && r.producers.offered == s.producers.offered[op.p := f]
            else && r.queue == s.queue + [f] && op.p !in r.producers.sleeping && op.p !in r.producers.signalled
                 && r.producers.offered == s.producers.offered - {op.p}
  {
    hide EnoughProducers, EnoughWorkers;
  }

  /** A worker that is through take() has the first task, or none once the pool has stopped; otherwise it waits. */
  lemma TakePopsExactly(s: State, op: Op)
    requires Inv(s) && Enabled(s, op) && (op.Take? || op.TakeAgain?)
    ensures var r := Step(s, op);
            if s.queue != []
            then r.queue == s.queue[1..] && r.taken == s.taken + [s.queue[0]] && op.w !in r.workers.sleeping
            else r.queue == [] && r.taken == s.taken && (op.w in r.workers.sleeping <==> s.isRunning)
  {
    hide EnoughProducers, EnoughWorkers;
  }

  /** A worker between two tasks goes on exactly while the pool runs. */
  lemma LeavesExactly(s: State, w: Thread)
    requires Enabled(s, Test(w))
    ensures var r := Step(s, Test(w)).workers;
            (w in r.ready <==> s.isRunning) && (w in r.exited <==> !s.isRunning)
  {
  }

  predicate HasLeft(s: State, w: Thread) {
    w in s.workers.exited && w !in s.workers.ready + s.workers.sleeping + s.workers.signalled
  }

  /** From then on it takes no part in any run. */
  lemma {:induction false} LeftForGood(s: State, ops: seq<Op>, w: Thread)
    requires Legal(s, ops) && HasLeft(s, w)
    ensures HasLeft(Run(s, ops), w)
    ensures forall op :: op in ops ==>
              !(op.Test? || op.Take? || op.TakeAgain? || op.SpuriousWorker?) || op.w != w
    decreases |ops|
  {
    if ops != [] {
      LeftStays(s, ops[0], w);
      hide Step, Enabled, HasLeft;
      LeftForGood(Step(s, ops[0]), ops[1..], w);
    }
  }

  lemma LeftStays(s: State, op: Op, w: Thread)
    requires Enabled(s, op) && HasLeft(s, w)
    ensures HasLeft(Step(s, op), w)
    ensures !(op.Test? || op.Take? || op.TakeAgain? || op.SpuriousWorker?) || op.w != w
  {
  }

  /** Nothing else touches the queue. */
  lemma OthersLeaveQueue(s: State, op: Op)
    requires Enabled(s, op) && !op.Put? && !op.PutAgain? && !op.Take? && !op.TakeAgain?
    ensures Step(s, op).queue == s.queue && Step(s, op).taken == s.taken && Step(s, op).put == s.put
  {
  }

  // ---------------------------------------------------------------- blocked producers

  /** The step hands a task to a worker. */
  predicate Pops(s: State, op: Op) {
    (op.Take? || op.TakeAgain?) && s.queue != []
  }

  /** A blocked producer is released exactly by a worker that takes a task and picks it, or spuriously. */
  lemma ReleasedExactly(s: State, op: Op, p: Thread)
    requires Inv(s) && Enabled(s, op) && p in s.producers.sleeping
    ensures p !in Step(s, op).producers.sleeping <==> (Pops(s, op) && op.woken == Some(p)) || op == SpuriousProducer(p)
  {
    assert s.maxQueueSize > 0;
    hide Inv;
  }

  /** The workers that can still take a task from a stopped pool: each at most one. */
  function Takers(s: State): nat {
    |s.workers.ready| + |s.workers.signalled|
  }

  predicate Stopped(s: State) {
    Inv(s) && !s.isRunning
  }

  lemma StopStays(s: State, op: Op)
    requires Stopped(s) && Enabled(s, op)
    ensures Stopped(Step(s, op))
    ensures |Step(s, op).taken| + Takers(Step(s, op)) <= |s.taken| + Takers(s)
    ensures Step(s, op).taken != s.taken <==> Pops(s, op)
  {
    StepKeepsInv(s, op);
    assert s.workers.sleeping == {};
    hide Inv, Takers, TakeSection, PutSection, PutWakes, TakeWakes;
    match op
    case Take(w, woken) => TakenBy(s, NoLongerReady(s, w), w, woken);
    case TakeAgain(w, woken) => TakenBy(s, Resumed(s, w), w, woken);
    case Put(p, f, woken) => PutWakesNobody(s, s, p, f, woken);
    case PutAgain(p, woken) => PutWakesNobody(s, ProducerResumed(s, p), p, s.producers.offered[p], woken);
    case _ => NoTasksMove(s, op);
  }

  /** A worker that can still take a task takes it and is one taker less. */
  lemma TakenBy(s: State, m: State, w: Thread, woken: Option<Thread>)
    requires !s.isRunning
    requires (w in s.workers.ready && m == NoLongerReady(s, w)) || (w in s.workers.signalled && m == Resumed(s, w))
    ensures var r := TakeSection(m, w, woken);
            && !r.isRunning && |r.taken| + Takers(r) <= |s.taken| + Takers(s)
            && (r.taken != s.taken <==> s.queue != [])
  {
    var r := TakeSection(m, w, woken);
    assert r.workers == m.workers;
    assert |r.taken| == |s.taken| + if s.queue != [] then 1 else 0;
  }

  lemma PutWakesNobody(s: State, m: State, p: Thread, f: Task, woken: Option<Thread>)
    requires s.workers.sleeping == {} && PutWakes(m, woken) && (m == s || m == ProducerResumed(s, p))
    ensures var r := PutSection(m, p, f, woken);
            r.isRunning == s.isRunning && r.taken == s.taken && Takers(r) == Takers(s)
  {
    assert PutSection(m, p, f, woken).workers == s.workers;
  }

  lemma NoTasksMove(s: State, op: Op)
    requires !s.isRunning && s.workers.sleeping == {} && Enabled(s, op)
    requires op.Test? || op.SpuriousWorker? || op.SpuriousProducer? || op.Stop?
    ensures var r := Step(s, op); !r.isRunning && r.taken == s.taken && Takers(r) == Takers(s)
  {
    assert s.workers.signalled + s.workers.sleeping == s.workers.signalled;
  }

  /** After stop() the workers take at most one task each, so at most that many producers get a slot. */
  lemma {:induction false} TakesAfterStop(s: State, ops: seq<Op>)
    requires Stopped(s) && Legal(s, ops)
    ensures Stopped(Run(s, ops)) && |Run(s, ops).taken| <= |s.taken| + Takers(s)
    decreases |ops|
  {
    hide Step, Enabled, Stopped, Takers;
    if ops != [] {
      StopStays(s, ops[0]);
      TakesAfterStop(Step(s, ops[0]), ops[1..]);
    }
  }

  /** A producer in put() that has not queued its task. */
  predicate Blocked(s: State, p: Thread) {
    p in s.producers.sleeping + s.producers.signalled
  }

  /** Stopped, with no worker left to take a task and no room in the queue. */
  predicate Dead(s: State) {
    Stopped(s) && Takers(s) == 0 && IsFull(s)
  }

  lemma DeadStep(s: State, op: Op)
    requires Dead(s) && Enabled(s, op)
    ensures Dead(Step(s, op)) && Step(s, op).queue == s.queue
    ensures forall p :: Blocked(s, p) ==> Blocked(Step(s, op), p)
  {
    StopStays(s, op);
    assert s.workers.ready == {} && s.workers.signalled == {} && s.workers.sleeping == {};
  }

  /**
   Once the workers of a stopped pool have gone, a producer blocked on its full queue stays in put() for ever,
   whatever else happens, spurious wakeups included.
   */
  lemma {:induction false} BlockedForEver(s: State, ops: seq<Op>, p: Thread)
    requires Dead(s) && Legal(s, ops) && Blocked(s, p)
    ensures Dead(Run(s, ops)) && Blocked(Run(s, ops), p) && Run(s, ops).queue == s.queue
    decreases |ops|
  {
    hide Step, Enabled, Dead, Blocked;
    if ops != [] {
      DeadStep(s, ops[0]);
      BlockedForEver(Step(s, ops[0]), ops[1..], p);
    }
  }

  ghost predicate CanBeReleased(s: State, p: Thread) {
    exists ops :: Legal(s, ops) && !Blocked(Run(s, ops), p)
  }

  lemma ReleasedLater(s: State, op: Op, p: Thread)
    requires Enabled(s, op) && CanBeReleased(Step(s, op), p)
    ensures CanBeReleased(s, p)
  {
    hide Step, Enabled, Blocked;
    var t := Step(s, op);
    var ops :| Legal(t, ops) && !Blocked(Run(t, ops), p);
    assert ([op] + ops)[1..] == ops;
    assert Legal(s, [op] + ops) && Run(s, [op] + ops) == Run(t, ops);
  }

  lemma ReleasedNow(s: State, p: Thread)
    requires !Blocked(s, p)
    ensures CanBeReleased(s, p)
  {
    assert Legal(s, []) && Run(s, []) == s;
  }

  /** With room in the queue, a producer that wakes, if only spuriously, gets through. */
  lemma ReleasedByRoom(s: State, p: Thread)
    requires Stopped(s) && Blocked(s, p) && !IsFull(s)
    ensures CanBeReleased(s, p)
  {
    if p in s.producers.sleeping {
      var t := Step(s, SpuriousProducer(p));
      StepKeepsInv(s, SpuriousProducer(p));
      SignalledGetsThrough(t, p);
      hide Step;
      ReleasedLater(s, SpuriousProducer(p), p);
    } else {
      SignalledGetsThrough(s, p);
    }
  }

  lemma SignalledGetsThrough(s: State, p: Thread)
    requires Stopped(s) && p in s.producers.signalled && !IsFull(s)
    ensures CanBeReleased(s, p)
  {
    var op := PutAgain(p, None);
    assert s.workers.sleeping == {};
    assert Enabled(s, op) && p !in s.producers.sleeping;
    assert !Blocked(Step(s, op), p);
    hide Step, Enabled;
    ReleasedNow(Step(s, op), p);
    ReleasedLater(s, op, p);
  }

  lemma SomeoneToWake(sleeping: set<Thread>) returns (woken: Option<Thread>)
    ensures CanWake(sleeping, woken)
  {
    if sleeping == {} {
      woken := None;
    } else {
      var q :| q in sleeping;
      woken := Some(q);
    }
  }

  lemma TakeLeavesRoom(s: State, w: Thread, woken: Option<Thread>)
    requires Bounded(s) && IsFull(s) && CanWake(s.producers.sleeping, woken)
    ensures var r := TakeSection(s, w, woken);
            && !IsFull(r)
            && s.producers.sleeping + s.producers.signalled <= r.producers.sleeping + r.producers.signalled
  {
  }

  /** The step makes room and leaves every blocked producer blocked. */
  predicate MakesRoom(s: State, op: Op)
    requires Enabled(s, op)
  {
    !IsFull(Step(s, op)) && s.producers.sleeping + s.producers.signalled
      <= Step(s, op).producers.sleeping + Step(s, op).producers.signalled
  }

  lemma ReadyMakesRoom(s: State, w: Thread, woken: Option<Thread>)
    requires Bounded(s) && IsFull(s) && w in s.workers.ready && CanWake(s.producers.sleeping, woken)
    ensures Enabled(s, Take(w, woken)) && MakesRoom(s, Take(w, woken))
  {
    TakeLeavesRoom(NoLongerReady(s, w), w, woken);
    hide TakeSection, CanWake;
  }

  lemma SignalledMakesRoom(s: State, w: Thread, woken: Option<Thread>)
    requires Bounded(s) && IsFull(s) && w in s.workers.signalled && CanWake(s.producers.sleeping, woken)
    ensures Enabled(s, TakeAgain(w, woken)) && MakesRoom(s, TakeAgain(w, woken))
  {
    TakeLeavesRoom(Resumed(s, w), w, woken);
    hide TakeSection, CanWake;
  }

  /** A worker that can still take makes room. */
  lemma TakeMakesRoom(s: State) returns (op: Op)
    requires Stopped(s) && Takers(s) > 0 && IsFull(s)
    ensures Enabled(s, op) && Stopped(Step(s, op)) && MakesRoom(s, op)
  {
    var woken := SomeoneToWake(s.producers.sleeping);
    assert Bounded(s);
    hide Inv, Step, Enabled, CanWake, IsFull, MakesRoom;
    if s.workers.ready != {} {
      var w :| w in s.workers.ready;
      op := Take(w, woken);
      ReadyMakesRoom(s, w, woken);
    } else {
      assert s.workers.signalled != {};
      var w :| w in s.workers.signalled;
      op := TakeAgain(w, woken);
      SignalledMakesRoom(s, w, woken);
    }
    StopStays(s, op);
  }

  /** A producer blocked in a stopped pool can still get out if and only if the pool is not dead. */
  lemma EscapesExactly(s: State, p: Thread)
    requires Stopped(s) && Blocked(s, p)
    ensures CanBeReleased(s, p) <==> !Dead(s)
  {
    hide Stopped, IsFull, Takers;
    if Dead(s) {
      forall ops | Legal(s, ops)
        ensures Blocked(Run(s, ops), p)
      {
        BlockedForEver(s, ops, p);
      }
    } else if !IsFull(s) {
      ReleasedByRoom(s, p);
    } else {
      var op := TakeMakesRoom(s);
      ReleasedByRoom(Step(s, op), p);
      hide CanBeReleased;
      ReleasedLater(s, op, p);
    }
  }

  /** stop() shuts a blocked producer in exactly if the queue is full and no worker sleeps or is about to take. */
  lemma StopBlocksProducers(s: State, p: Thread)
    requires Inv(s) && p in s.producers.sleeping
    ensures Blocked(Step(s, Stop), p)
    ensures !CanBeReleased(Step(s, Stop), p) <==> s.workers.sleeping == {} && Takers(s) == 0 && IsFull(s)
  {
    StepKeepsInv(s, Stop);
    var r := Step(s, Stop);
    assert Dead(r) <==> s.workers.sleeping == {} && Takers(s) == 0 && IsFull(s);
    hide CanBeReleased, Dead;
    EscapesExactly(r, p);
  }

  /** For instance a pool of bound one, stopped while no worker is about to take its task. */
  lemma StopLeavesProducersBlocked()
    ensures var ops := [Put(1, 10, None), Put(2, 20, None), Stop];
            && Legal(Initial(1), ops) && Dead(Run(Initial(1), ops)) && Blocked(Run(Initial(1), ops), 2)
            && Run(Initial(1), ops).producers.sleeping == {2} && Run(Initial(1), ops).producers.signalled == {}
  {
    var s1 := Step(Initial(1), Put(1, 10, None));
    var s2 := Step(s1, Put(2, 20, None));
    var s3 := Step(s2, Stop);
    var ops := [Put(1, 10, None), Put(2, 20, None), Stop];
    assert ops[1..] == [Put(2, 20, None), Stop] && ops[1..][1..] == [Stop] && ops[1..][1..][1..] == [];
    assert Legal(s3, []) && Run(s3, []) == s3;
    assert Legal(s2, [Stop]) && Run(s2, [Stop]) == s3;
    assert Legal(s1, ops[1..]) && Run(s1, ops[1..]) == s3;
  }

  // ---------------------------------------------------------------- the object

  /** How a section that holds the mutex ends. */
  datatype Taken = Waits | Returns(task: Option<Task>)

  class ThreadPool {
    const maxQueueSize: nat
    var isRunning: bool
    var queue: seq<Task>
    ghost var readyWorkers: set<Thread>
    ghost var exitedWorkers: set<Thread>
    ghost var sleepingWorkers: set<Thread>
    ghost var signalledWorkers: set<Thread>
    ghost var sleepingProducers: set<Thread>
    ghost var signalledProducers: set<Thread>
    ghost var offered: map<Thread, Task>
    ghost var put: seq<Task>
    ghost var taken: seq<Task>

    ghost function View(): State
      reads this
    {
      State(maxQueueSize, isRunning, queue, Workers(readyWorkers, exitedWorkers, sleepingWorkers, signalledWorkers),
            Producers(sleepingProducers, signalledProducers, offered), put, taken)
    }

    constructor (maxQueueSize: nat)
      ensures View() == Initial(maxQueueSize)
    {
      this.maxQueueSize := maxQueueSize;
      isRunning, queue, readyWorkers, exitedWorkers := true, [], {}, {};
      sleepingWorkers, signalledWorkers, sleepingProducers, signalledProducers := {}, {}, {}, {};
      offered, put, taken := map[], [], [];
    }

    /** The loop of runInThread: a worker goes on to take() or leaves. */
    method TestRunning(ghost w: Thread) returns (goesOn: bool)
      requires Inv(View()) && Enabled(View(), Test(w))
      modifies this
      ensures View() == Step(old(View()), Test(w)) && Inv(View())
      ensures goesOn == isRunning
    {
      StepKeepsInv(View(), Test(w));
      goesOn := isRunning;
      if goesOn {
        readyWorkers := readyWorkers + {w};
      } else {
        exitedWorkers := exitedWorkers + {w};
      }
    }

    /** The test of the loop of take, and what follows it. */
    method TakeHoldingLock(ghost w: Thread, ghost woken: Option<Thread>) returns (r: Taken)
      modifies this
      ensures View() == TakeSection(old(View()), w, woken)
      ensures r == if old(queue) == [] && isRunning then Waits
                   else Returns(if old(queue) != [] then Some(old(queue)[0]) else None)
    {
      if queue == [] && isRunning {
        sleepingWorkers := sleepingWorkers + {w};
        return Waits;
      }
      var task := None;
      if queue != [] {
        task := Some(queue[0]);
        queue := queue[1..];
        taken := taken + [task.value];
        sleepingProducers, signalledProducers := sleepingProducers - Woken(woken), signalledProducers + Woken(woken);
      }
      return Returns(task);
    }

    method TakeFirst(ghost w: Thread, ghost woken: Option<Thread>) returns (r: Taken)
      requires Inv(View()) && Enabled(View(), Op.Take(w, woken))
      modifies this
      ensures View() == Step(old(View()), Op.Take(w, woken)) && Inv(View())
    {
      StepKeepsInv(View(), Op.Take(w, woken));
      readyWorkers := readyWorkers - {w};
      r := TakeHoldingLock(w, woken);
    }

    method TakeAfterWait(ghost w: Thread, ghost woken: Option<Thread>) returns (r: Taken)
      requires Inv(View()) && Enabled(View(), TakeAgain(w, woken))
      modifies this
      ensures View() == Step(old(View()), TakeAgain(w, woken)) && Inv(View())
    {
      StepKeepsInv(View(), TakeAgain(w, woken));
      signalledWorkers := signalledWorkers - {w};
      r := TakeHoldingLock(w, woken);
    }

    /** The test of the loop of put, and what follows it. */
    method PutHoldingLock(ghost p: Thread, f: Task, ghost woken: Option<Thread>) returns (waits: bool)
      modifies this
      ensures View() == PutSection(old(View()), p, f, woken)
      ensures waits == IsFull(old(View()))
    {
      if maxQueueSize > 0 && |queue| >= maxQueueSize {
        sleepingProducers, offered := sleepingProducers + {p}, offered[p := f];
        return true;
      }
      queue := queue + [f];
      put, offered := put + [f], offered - {p};
      sleepingWorkers, signalledWorkers := sleepingWorkers - Woken(woken), signalledWorkers + Woken(woken);
      return false;
    }

    method PutFirst(ghost p: Thread, f: Task, ghost woken: Option<Thread>) returns (waits: bool)
      requires Inv(View()) && Enabled(View(), Op.Put(p, f, woken))
      modifies this
      ensures View() == Step(old(View()), Op.Put(p, f, woken)) && Inv(View())
    {
      StepKeepsInv(View(), Op.Put(p, f, woken));
      waits := PutHoldingLock(p, f, woken);
    }

    method PutAfterWait(ghost p: Thread, f: Task, ghost woken: Option<Thread>) returns (waits: bool)
      requires Inv(View()) && Enabled(View(), PutAgain(p, woken)) && offered[p] == f
      modifies this
      ensures View() == Step(old(View()), PutAgain(p, woken)) && Inv(View())
    {
      StepKeepsInv(View(), PutAgain(p, woken));
      signalledProducers := signalledProducers - {p};
      waits := PutHoldingLock(p, f, woken);
    }

    method StopPool()
      requires Inv(View())
      modifies this
      ensures View() == Step(old(View()), Stop) && Inv(View())
    {
      StepKeepsInv(View(), Stop);
      isRunning := false;
      sleepingWorkers, signalledWorkers := {}, signalledWorkers + sleepingWorkers;
    }
  }
}
