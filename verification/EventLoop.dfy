/**
 netLayer/event/eventloop/EventLoop.cpp: handing functors to the loop thread, as the interleaved atomic
 steps of the loop and of any number of other threads.

 The eventfd is a counter: a write adds one, a read takes it to zero, poll reports it while it is positive.
 The loop thread calls quit and queueInLoop wherever it runs code of its own: in callbacks, and outside loop().
 */
module EventLoops {

  type Functor = nat
  type Thread = nat

  /** Where the loop thread is. */
  datatype Place =
    | Outside    // before loop(), or after it has returned
    | Top        // about to test quit_
    | Polling    // blocked in poll
    | Handling   // running the callbacks of active channels
    | Swapping   // callingPendingFunctors_ is set, the swap is next
    | Running    // running the functors of the batch

  datatype State = State(
    place: Place,
    quit: bool,
    calling: bool,               // callingPendingFunctors_
    wakeups: nat,                // the eventfd counter
    pending: seq<Functor>,       // pendingFunctors_
    batch: seq<Functor>,         // the local variable functors, what is left of it
    waking: set<Thread>,         // threads that have pushed, or set quit_, and not yet called wakeup
    loopWaking: bool,            // the same for the loop thread, inside queueInLoop
    pushed: seq<Functor>,        // history: everything pushed, in order
    ran: seq<Functor>)           // history: everything run, in order

  const INITIAL := State(Outside, false, false, 0, [], [], {}, false, [], [])

  datatype Op =
    | Push(t: Thread, f: Functor)    // queueInLoop from another thread: the locked section
    | SetQuit(t: Thread)             // quit() from another thread: the flag
    | Wake(t: Thread)                // the wakeup() of either
    | Start                          // loop() is entered and resets quit_
    | Test                           // while (!quit_)
    | Poll                           // poll returns, for any reason
    | Drain                          // handleRead of the wakeup channel
    | LoopPush(f: Functor)           // queueInLoop from the loop thread: the locked section
    | LoopQuit                       // quit() from the loop thread
    | Handled                        // all active channels have been handled
    | Swap
    | RunNext
    | LoopWake                       // the wakeup() of LoopPush
    | Done                           // the batch is finished

  predicate Enabled(s: State, op: Op) {
    match op
    case Push(t, _) => t !in s.waking
    case SetQuit(t) => t !in s.waking
    case Wake(t) => t in s.waking
    case Start => s.place == Outside
    case Test => s.place == Top
    case Poll => s.place == Polling
    case Drain => s.place == Handling && s.wakeups > 0
    case LoopPush(_) => s.place in {Outside, Handling, Running} && !s.loopWaking
    case LoopQuit => s.place in {Outside, Handling, Running} && !s.loopWaking
    case Handled => s.place == Handling
    case Swap => s.place == Swapping
    case RunNext => s.place == Running && s.batch != [] && !s.loopWaking
    case LoopWake => s.loopWaking
    case Done => s.place == Running && s.batch == [] && !s.loopWaking
  }

  /** queueInLoop calls wakeup from another thread, or while functors are being run. */
  predicate NeedsWakeup(inLoopThread: bool, calling: bool) {
    !inLoopThread || calling
  }

  function Step(s: State, op: Op): State
    requires Enabled(s, op)
  {
    match op
    case Push(t, f) =>
      s.(pending := s.pending + [f], pushed := s.pushed + [f],
         waking := if NeedsWakeup(false, s.calling) then s.waking + {t} else s.waking)
    case SetQuit(t) => s.(quit := true, waking := s.waking + {t})
    case Wake(t) => s.(wakeups := s.wakeups + 1, waking := s.waking - {t})
    case Start => s.(place := Top, quit := false)
    case Test => s.(place := if s.quit then Outside else Polling)
    case Poll => s.(place := Handling)
    case Drain => s.(wakeups := 0)
    case LoopPush(f) =>
      s.(pending := s.pending + [f], pushed := s.pushed + [f], loopWaking := NeedsWakeup(true, s.calling))
    case LoopQuit => s.(quit := true)
    case Handled => s.(place := Swapping, calling := true)
    case Swap => s.(place := Running, batch := s.pending, pending := [])
    case RunNext => s.(batch := s.batch[1..], ran := s.ran + [s.batch[0]])
    case LoopWake => s.(wakeups := s.wakeups + 1, loopWaking := false)
    case Done => s.(place := Top, calling := false)
  }

  // ---------------------------------------------------------------- the invariant

  /** Someone has woken the loop or is about to. */
  predicate WillWake(s: State) {
    s.wakeups > 0 || s.waking != {} || s.loopWaking
  }

  /** Run, running and pending functors together are everything pushed, in order. */
  predicate InOrder(s: State) {
    s.ran + s.batch + s.pending == s.pushed
  }

  predicate Inv(s: State) {
    && InOrder(s)
    && s.calling == (s.place in {Swapping, Running})
    && (s.place in {Running, Outside, Top, Polling} && s.pending != [] ==> WillWake(s))
    && (s.place == Polling && s.quit ==> WillWake(s))
    && (s.place != Running ==> s.batch == [] && !s.loopWaking)
  }

  /**
   The loop thread pushes from inside a callback, or at least while someone is going to wake it: before loop() and
   after it has returned a push of its own gets no wakeup.
   */
  predicate Covered(s: State, op: Op) {
    op.LoopPush? && s.place == Outside ==> WillWake(s)
  }

  lemma PushKeepsOrder(s: State, f: Functor)
    requires InOrder(s)
    ensures s.ran + s.batch + (s.pending + [f]) == s.pushed + [f]
  {
  }

  lemma RunKeepsOrder(s: State)
    requires s.batch != []
    ensures (s.ran + [s.batch[0]]) + s.batch[1..] == s.ran + s.batch
  {
  }

  /** A step keeps the invariant exactly if it is covered. */
  lemma StepExactly(s: State, op: Op)
    requires Inv(s) && Enabled(s, op)
    ensures Inv(Step(s, op)) <==> Covered(s, op)
  {
    match op
    case Push(_, f) => PushKeepsOrder(s, f);
    case LoopPush(f) => PushKeepsOrder(s, f);
    case Swap => assert s.ran + s.batch + s.pending == s.ran + s.pending + [];
    case RunNext => RunKeepsOrder(s);
    case _ =>
  }

  lemma StepKeepsInv(s: State, op: Op)
    requires Inv(s) && Enabled(s, op) && Covered(s, op)
    ensures Inv(Step(s, op))
  {
    StepExactly(s, op);
  }

  /** The loop is blocked with something to do, and nobody is going to wake it. */
  predicate Lost(s: State) {
    s.place == Polling && (s.pending != [] || s.quit) && !WillWake(s)
  }

  /** A push by the loop thread outside loop() is lost, at the poll that follows, exactly if it is not covered. */
  lemma LostExactly(s: State, f: Functor)
    requires Inv(s) && Enabled(s, LoopPush(f)) && s.place == Outside
    ensures Lost(Step(Step(Step(s, LoopPush(f)), Start), Test)) <==> !Covered(s, LoopPush(f))
  {
  }

  // ---------------------------------------------------------------- runs

  predicate Legal(s: State, ops: seq<Op>)
    decreases |ops|
  {
    ops == [] || (Enabled(s, ops[0]) && Covered(s, ops[0]) && Legal(Step(s, ops[0]), ops[1..]))
  }

  function Run(s: State, ops: seq<Op>): State
    requires Legal(s, ops)
    decreases |ops|
  {
    if ops == [] then s else Run(Step(s, ops[0]), ops[1..])
  }

  lemma {:induction false} RunKeepsInv(s: State, ops: seq<Op>)
    requires Inv(s) && Legal(s, ops)
    ensures Inv(Run(s, ops))
    decreases |ops|
  {
    if ops != [] {
      StepKeepsInv(s, ops[0]);
      RunKeepsInv(Step(s, ops[0]), ops[1..]);
    }
  }

  /**
   No lost wakeup: in every interleaving, whenever the loop is blocked in poll with functors pending, or after
   another thread asked it to quit, the counter is positive or a thread is between its push and its wakeup.
   */
  lemma NoLostWakeup(ops: seq<Op>)
    requires Legal(INITIAL, ops)
    ensures var r := Run(INITIAL, ops);
            r.place == Polling && (r.pending != [] || r.quit) ==> r.wakeups > 0 || r.waking != {}
  {
    RunKeepsInv(INITIAL, ops);
  }

  /** The functors that the steps pass to queueInLoop, from whatever thread, in order. */
  function PushesOf(ops: seq<Op>): seq<Functor> {
    if ops == [] then []
    else (if ops[0].Push? || ops[0].LoopPush? then [ops[0].f] else []) + PushesOf(ops[1..])
  }

  lemma PushedByStep(s: State, op: Op)
    requires Enabled(s, op)
    ensures Step(s, op).pushed == s.pushed + PushesOf([op])
  {
  }

  lemma {:induction false} PushedAre(s: State, ops: seq<Op>)
    requires Legal(s, ops)
    ensures Run(s, ops).pushed == s.pushed + PushesOf(ops)
    decreases |ops|
  {
    if ops != [] {
      PushedByStep(s, ops[0]);
      hide Step, Enabled;
      PushedAre(Step(s, ops[0]), ops[1..]);
      assert PushesOf(ops) == PushesOf([ops[0]]) + PushesOf(ops[1..]);
    }
  }

  /** Every functor passed to queueInLoop is run once, in order, or still waiting behind those that are. */
  lemma RunInPushOrder(ops: seq<Op>)
    requires Legal(INITIAL, ops)
    ensures var r := Run(INITIAL, ops);
            r.ran + r.batch + r.pending == PushesOf(ops)
  {
    RunKeepsInv(INITIAL, ops);
    PushedAre(INITIAL, ops);
  }

  /** From any point of a batch the loop can finish it by itself, and has then run all of it. */
  lemma {:induction false} BatchDrains(s: State)
    requires Inv(s) && s.place == Running && !s.loopWaking
    ensures exists ops ::
              Legal(s, ops) && Run(s, ops) == s.(batch := [], ran := s.ran + s.batch, place := Top, calling := false)
    decreases |s.batch|
  {
    if s.batch == [] {
      assert Legal(Step(s, Done), []);
      assert Legal(s, [Done]);
      assert Run(s, [Done]) == s.(batch := [], ran := s.ran + s.batch, place := Top, calling := false);
    } else {
      var t := Step(s, RunNext);
      StepKeepsInv(s, RunNext);
      BatchDrains(t);
      var ops :|
        Legal(t, ops) && Run(t, ops) == t.(batch := [], ran := t.ran + t.batch, place := Top, calling := false);
      var all := [RunNext] + ops;
      assert all[1..] == ops;
      assert Legal(s, all) && Run(s, all) == Run(t, ops);
      assert t.ran + t.batch == s.ran + s.batch;
    }
  }

  /** And every return from poll leads to a batch of everything pending, which it can then finish. */
  lemma RoundTakesPending(s: State)
    requires Inv(s) && s.place == Polling
    ensures Legal(s, [Poll, Handled, Swap])
    ensures var r := Run(s, [Poll, Handled, Swap]);
            r.place == Running && r.batch == s.pending && r.pending == [] && r.ran == s.ran
  {
    var a := Step(s, Poll);
    var b := Step(a, Handled);
    var c := Step(b, Swap);
    assert [Poll, Handled, Swap][1..] == [Handled, Swap] && [Handled, Swap][1..] == [Swap] && [Swap][1..] == [];
    assert Legal(c, []) && Run(c, []) == c;
    assert Legal(b, [Swap]) && Run(b, [Swap]) == c;
    assert Legal(a, [Handled, Swap]) && Run(a, [Handled, Swap]) == c;
  }

  /** For instance queueInLoop by the loop thread before loop(): the loop blocks with the functor pending. */
  lemma LoopThreadPushBeforePollBlocks(f: Functor)
    ensures Enabled(INITIAL, LoopPush(f)) && Enabled(Step(INITIAL, LoopPush(f)), Start)
    ensures var s := Step(Step(Step(INITIAL, LoopPush(f)), Start), Test);
            Lost(s) && s.pending == [f]
  {
    LostExactly(INITIAL, f);
  }

  // ---------------------------------------------------------------- the counter

  /** How many wakeups the steps make, counted from the last time the counter was read. */
  function WakesSinceDrain(ops: seq<Op>): nat {
    if ops == [] then 0
    else
      var n, last := WakesSinceDrain(ops[..|ops| - 1]), ops[|ops| - 1];
      if last == Drain then 0 else if last.Wake? || last == LoopWake then n + 1 else n
  }

  lemma {:induction false} RunLast(s: State, ops: seq<Op>)
    requires Legal(s, ops) && ops != []
    ensures var n := |ops| - 1;
            Legal(s, ops[..n]) && Enabled(Run(s, ops[..n]), ops[n]) && Run(s, ops) == Step(Run(s, ops[..n]), ops[n])
    decreases |ops|
  {
    var n := |ops| - 1;
    if n > 0 {
      RunLast(Step(s, ops[0]), ops[1..]);
      assert ops[1..][..n - 1] == ops[..n][1..] && ops[1..][n - 1] == ops[n];
    } else {
      assert ops[..0] == [] && ops[1..] == [];
    }
  }

  /** The counter is the wakeups since it was last read: reading it leaves nothing to wake the next poll. */
  lemma {:induction false} CounterIsExact(s: State, ops: seq<Op>)
    requires Legal(s, ops)
    ensures Run(s, ops).wakeups == WakesSinceDrain(ops) + if Drain in ops then 0 else s.wakeups
    decreases |ops|
  {
    if ops != [] {
      var n := |ops| - 1;
      RunLast(s, ops);
      StepCounts(Run(s, ops[..n]), ops[n]);
      hide Run, Legal, Step, Enabled;
      CounterIsExact(s, ops[..n]);
      assert ops == ops[..n] + [ops[n]];
    }
  }

  lemma StepCounts(s: State, op: Op)
    requires Enabled(s, op)
    ensures Step(s, op).wakeups
         == if op == Drain then 0 else if op.Wake? || op == LoopWake then s.wakeups + 1 else s.wakeups
  {
  }

  // ---------------------------------------------------------------- quitting

  /** Without a test of quit_ the loop thread stays inside loop(), so loop() is not entered. */
  lemma {:induction false} NoStartInside(s: State, ops: seq<Op>)
    requires s.place != Outside && Test !in ops
    ensures !Legal(s, ops + [Start])
    decreases |ops|
  {
    if ops != [] && Enabled(s, ops[0]) {
      NoStartInside(Step(s, ops[0]), ops[1..]);
      assert (ops + [Start])[1..] == ops[1..] + [Start];
    }
  }

  /** A quit() can be forgotten, by a loop() entered before any test has seen it, exactly if it comes outside. */
  lemma QuitLostExactly(s: State, t: Thread)
    requires Inv(s) && Enabled(s, SetQuit(t))
    ensures (exists ops :: Legal(Step(s, SetQuit(t)), ops + [Start]) && Test !in ops) <==> s.place == Outside
  {
    var q := Step(s, SetQuit(t));
    if s.place == Outside {
      assert Legal(Step(q, Start), []);
      assert [] + [Start] == [Start] && [Start][1..] == [];
      assert Legal(q, [] + [Start]);
    } else {
      forall ops | Test !in ops
        ensures !Legal(q, ops + [Start])
      {
        NoStartInside(q, ops);
      }
    }
  }

  /** Otherwise it stays, and the loop returns at its next test. */
  lemma {:induction false} QuitIsHeeded(s: State, ops: seq<Op>)
    requires s.quit && Legal(s, ops) && Start !in ops
    ensures Run(s, ops).quit && (Test in ops || s.place == Outside ==> Run(s, ops).place == Outside)
    decreases |ops|
  {
    if ops != [] {
      QuitIsHeeded(Step(s, ops[0]), ops[1..]);
    }
  }

  /** So after quit(), from either thread, the loop has returned once it has tested, unless loop() is entered again. */
  lemma QuitStopsTheLoop(s: State, op: Op, ops: seq<Op>)
    requires op.SetQuit? || op.LoopQuit?
    requires Enabled(s, op) && Legal(Step(s, op), ops) && Start !in ops && Test in ops
    ensures Run(Step(s, op), ops).place == Outside
  {
    QuitIsHeeded(Step(s, op), ops);
  }

  /** Nothing but quit() stops it: a test that no quit() precedes goes on to poll. */
  lemma OnlyQuitStops(s: State, op: Op)
    requires Enabled(s, op)
    ensures Step(s, op).quit && !s.quit ==> op.SetQuit? || op.LoopQuit?
    ensures op == Test ==> Step(s, op).place == if s.quit then Outside else Polling
  {
  }

  /** For instance quit() by another thread before loop(): the loop polls all the same. */
  lemma QuitBeforeLoopIsLost(t: Thread)
    ensures var ops := [SetQuit(t), Wake(t), Start, Test];
            Legal(INITIAL, ops) && Run(INITIAL, ops).place == Polling && !Run(INITIAL, ops).quit
  {
    var s1 := Step(INITIAL, SetQuit(t));
    var s2 := Step(s1, Wake(t));
    var s3 := Step(s2, Start);
    var s4 := Step(s3, Test);
    var ops := [SetQuit(t), Wake(t), Start, Test];
    assert ops[1..] == [Wake(t), Start, Test] && ops[1..][1..] == [Start, Test] && [Start, Test][1..] == [Test];
    assert [Test][1..] == [];
    assert Legal(s4, []) && Run(s4, []) == s4;
    assert Legal(s3, [Test]) && Run(s3, [Test]) == s4;
    assert Legal(s2, [Start, Test]) && Run(s2, [Start, Test]) == s4;
    assert Legal(s1, ops[1..]) && Run(s1, ops[1..]) == s4;
  }

  // ---------------------------------------------------------------- the object

  /** The fields of EventLoop and its atomic sections, each one step of the machine above. */
  class EventLoop {
    var quit: bool
    var callingPendingFunctors: bool
    var wakeups: nat
    var pendingFunctors: seq<Functor>
    var functors: seq<Functor>
    ghost var place: Place
    ghost var waking: set<Thread>
    ghost var loopWaking: bool
    ghost var pushed: seq<Functor>
    ghost var ran: seq<Functor>

    ghost function View(): State
      reads this
    {
      State(place, quit, callingPendingFunctors, wakeups, pendingFunctors, functors, waking, loopWaking, pushed, ran)
    }

    constructor ()
      ensures View() == INITIAL
    {
      quit, callingPendingFunctors, wakeups := false, false, 0;
      pendingFunctors, functors := [], [];
      place, waking, loopWaking, pushed, ran := Outside, {}, false, [], [];
    }

    /** queueInLoop up to its wakeup, called by another thread. */
    method QueueInLoop(t: Thread, cb: Functor) returns (callsWakeup: bool)
      requires Inv(View()) && Enabled(View(), Push(t, cb))
      modifies this
      ensures View() == Step(old(View()), Push(t, cb)) && Inv(View())
      ensures callsWakeup
    {
      StepKeepsInv(View(), Push(t, cb));
      pendingFunctors := pendingFunctors + [cb];
      pushed := pushed + [cb];
      callsWakeup := NeedsWakeup(false, callingPendingFunctors);
      waking := waking + {t};
    }

    /** queueInLoop up to its wakeup, called by the loop thread: it wakes itself only while it is running functors. */
    method QueueFromLoop(cb: Functor) returns (callsWakeup: bool)
      requires Inv(View()) && Enabled(View(), LoopPush(cb))
      modifies this
      ensures View() == Step(old(View()), LoopPush(cb)) && (Inv(View()) <==> Covered(old(View()), LoopPush(cb)))
      ensures callsWakeup <==> old(place) == Running
    {
      StepExactly(View(), LoopPush(cb));
      pendingFunctors := pendingFunctors + [cb];
      pushed := pushed + [cb];
      callsWakeup := NeedsWakeup(true, callingPendingFunctors);
      loopWaking := callsWakeup;
    }

    /** The beginning of loop(): a quit() that came before is forgotten. */
    method EnterLoop()
      requires Inv(View()) && place == Outside
      modifies this`quit, this`place
      ensures View() == Step(old(View()), Start) && Inv(View())
    {
      StepKeepsInv(View(), Start);
      quit := false;
      place := Top;
    }

    /** The test of the loop. */
    method TestQuit() returns (goesOn: bool)
      requires Inv(View()) && Enabled(View(), Test)
      modifies this`place
      ensures View() == Step(old(View()), Test) && Inv(View())
      ensures goesOn == !quit
    {
      StepKeepsInv(View(), Test);
      goesOn := !quit;
      place := if quit then Outside else Polling;
    }

    /** quit() up to its wakeup, which only another thread needs. */
    method Quit(t: Thread)
      requires Inv(View()) && Enabled(View(), SetQuit(t))
      modifies this`quit, this`waking
      ensures View() == Step(old(View()), SetQuit(t)) && Inv(View())
    {
      StepKeepsInv(View(), SetQuit(t));
      quit := true;
      waking := waking + {t};
    }

    /** quit() from the loop thread, which needs no wakeup. */
    method QuitFromLoop()
      requires Inv(View()) && Enabled(View(), LoopQuit)
      modifies this`quit
      ensures View() == Step(old(View()), LoopQuit) && Inv(View())
    {
      StepKeepsInv(View(), LoopQuit);
      quit := true;
    }

    method Wakeup(t: Thread)
      requires Inv(View()) && Enabled(View(), Wake(t))
      modifies this
      ensures View() == Step(old(View()), Wake(t)) && Inv(View())
    {
      StepKeepsInv(View(), Wake(t));
      wakeups := wakeups + 1;
      waking := waking - {t};
    }

    /** The wakeup() of QueueFromLoop. */
    method WakeupFromFunctor()
      requires Inv(View()) && Enabled(View(), LoopWake)
      modifies this
      ensures View() == Step(old(View()), LoopWake) && Inv(View())
    {
      StepKeepsInv(View(), LoopWake);
      wakeups := wakeups + 1;
      loopWaking := false;
    }

    method HandleRead()
      requires Inv(View()) && Enabled(View(), Drain)
      modifies this
      ensures View() == Step(old(View()), Drain) && Inv(View())
    {
      StepKeepsInv(View(), Drain);
      wakeups := 0;
    }

    /** Runs one functor of the batch, which queues the functors in queued. */
    method RunFunctor(queued: seq<Functor>)
      requires Inv(View()) && Enabled(View(), RunNext)
      modifies this
      ensures Inv(View()) && View() == AfterFunctor(old(View()), queued)
    {
      hide Inv, Step, AfterFunctor;
      ghost var s := View();
      AfterFunctorStart(s);
      StepKeepsInv(s, RunNext);
      ran, functors := ran + [functors[0]], functors[1..];
      var i := 0;
      assert queued[..0] == [];
      while i < |queued|
        invariant 0 <= i <= |queued|
        invariant Inv(View()) && View() == AfterFunctor(s, queued[..i])
      {
        assert queued[..i + 1] == queued[..i] + [queued[i]];
        AfterFunctorNext(s, queued[..i], queued[i]);
        var callsWakeup := QueueFromLoop(queued[i]);
        if callsWakeup {
          WakeupFromFunctor();
        }
        i := i + 1;
      }
      assert queued[..i] == queued;
    }

    /**
     doPendingFunctors, where running f queues the functors queued(f): exactly the functors that were pending are
     run, in order; those queued meanwhile are left pending, each with its own wakeup, so poll will not block.
     */
    method DoPendingFunctors(queued: Functor -> seq<Functor>)
      requires Inv(View()) && place == Handling
      modifies this
      ensures Inv(View()) && place == Top
      ensures ran == old(ran) + old(pendingFunctors)
      ensures pendingFunctors == AllQueued(old(pendingFunctors), queued)
      ensures wakeups == old(wakeups) + |pendingFunctors|
      ensures pushed == old(pushed) + pendingFunctors && waking == old(waking) && quit == old(quit)
    {
      hide Inv, AllQueued;
      SwapKeepsInv(View());
      callingPendingFunctors := true;
      place := Swapping;
      functors, pendingFunctors := pendingFunctors, functors;
      place := Running;
      AfterBatchEnds(View(), queued);
      RunBatch(queued);
      StepKeepsInv(View(), Done);
      callingPendingFunctors := false;
      place := Top;
    }

    /** The loop of doPendingFunctors. */
    method RunBatch(queued: Functor -> seq<Functor>)
      requires Inv(View()) && place == Running && !loopWaking
      modifies this
      ensures Inv(View()) && View() == AfterBatch(old(View()), |old(functors)|, queued)
    {
      hide Inv, AfterFunctor;
      ghost var s := View();
      ghost var i := 0;
      AfterBatchEnds(s, queued);
      while functors != []
        invariant 0 <= i <= |s.batch|
        invariant Inv(View()) && View() == AfterBatch(s, i, queued)
        decreases |functors|
      {
        AfterBatchNext(s, i, queued);
        RunFunctor(queued(functors[0]));
        i := i + 1;
      }
    }
  }

  /** The state after the first i functors of the batch have run. */
  function AfterBatch(s: State, i: nat, queued: Functor -> seq<Functor>): State
    requires i <= |s.batch|
  {
    var q := AllQueued(s.batch[..i], queued);
    s.(ran := s.ran + s.batch[..i], batch := s.batch[i..], pending := s.pending + q, pushed := s.pushed + q,
       wakeups := s.wakeups + |q|)
  }

  lemma AfterBatchEnds(s: State, queued: Functor -> seq<Functor>)
    ensures AfterBatch(s, 0, queued) == s
    ensures AfterBatch(s, |s.batch|, queued).ran == s.ran + s.batch
    ensures AfterBatch(s, |s.batch|, queued).pending == s.pending + AllQueued(s.batch, queued)
  {
    assert s.batch[..0] == [] && s.batch[..|s.batch|] == s.batch;
  }

  lemma AfterBatchNext(s: State, i: nat, queued: Functor -> seq<Functor>)
    requires i < |s.batch|
    ensures AfterBatch(s, i, queued).batch == s.batch[i..]
    ensures AfterFunctor(AfterBatch(s, i, queued), queued(s.batch[i])) == AfterBatch(s, i + 1, queued)
  {
    QueuedNext(s.batch, i, queued);
    var q, f := AllQueued(s.batch[..i], queued), queued(s.batch[i]);
    assert s.pending + (q + f) == s.pending + q + f;
    assert s.pushed + (q + f) == s.pushed + q + f;
    assert s.batch[i..][1..] == s.batch[i + 1..];
    assert s.ran + (s.batch[..i] + [s.batch[i]]) == s.ran + s.batch[..i] + [s.batch[i]];
  }

  /** The state after the next functor has run and queued the functors q, waking the loop for each. */
  function AfterFunctor(s: State, q: seq<Functor>): State
    requires s.batch != []
  {
    s.(ran := s.ran + [s.batch[0]], batch := s.batch[1..], pending := s.pending + q, pushed := s.pushed + q,
       wakeups := s.wakeups + |q|)
  }

  lemma AfterFunctorStart(s: State)
    requires Enabled(s, RunNext)
    ensures AfterFunctor(s, []) == Step(s, RunNext)
    ensures Step(s, RunNext) == s.(ran := s.ran + [s.batch[0]], batch := s.batch[1..])
  {
  }

  lemma AfterFunctorNext(s: State, q: seq<Functor>, f: Functor)
    requires Inv(s) && Enabled(s, RunNext)
    ensures var m := AfterFunctor(s, q);
            && Enabled(m, LoopPush(f)) && Covered(m, LoopPush(f)) && m.place == Running
            && Enabled(Step(m, LoopPush(f)), LoopWake)
            && Step(Step(m, LoopPush(f)), LoopWake) == AfterFunctor(s, q + [f])
  {
    assert s.pending + (q + [f]) == s.pending + q + [f];
    assert s.pushed + (q + [f]) == s.pushed + q + [f];
  }

  lemma SwapKeepsInv(s: State)
    requires Inv(s) && s.place == Handling
    ensures s.batch == []
    ensures !s.loopWaking && Inv(s.(place := Running, calling := true, batch := s.pending, pending := []))
  {
    StepKeepsInv(s, Handled);
    StepKeepsInv(Step(s, Handled), Swap);
  }

  /** What running the functors fs in order queues. */
  function AllQueued(fs: seq<Functor>, queued: Functor -> seq<Functor>): seq<Functor> {
    if fs == [] then [] else AllQueued(fs[..|fs| - 1], queued) + queued(fs[|fs| - 1])
  }

  lemma QueuedNext(all: seq<Functor>, i: nat, queued: Functor -> seq<Functor>)
    requires i < |all|
    ensures all[..i + 1] == all[..i] + [all[i]]
    ensures AllQueued(all[..i + 1], queued) == AllQueued(all[..i], queued) + queued(all[i])
  {
    assert all[..i + 1][..i] == all[..i];
  }
}
