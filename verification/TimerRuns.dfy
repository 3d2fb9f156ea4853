/**
 What holds over every run of the timer queue: how often timers fire, what cancelling does when addresses
 are recycled, and that the timerfd is always set in time.
 */
module TimerRuns {
  import opened CMath
  import opened Options
  import opened TimerSpec
  import opened TimerOwnership

  // ---------------------------------------------------------------- runs

  /** Every step of ops can be taken, one after the other. */
  ghost predicate Legal(s: State, ops: seq<Op>)
    requires Inv(s)
    decreases |ops|
  {
    ops == [] || (Enabled(s, ops[0]) && (StepKeepsInv(s, ops[0]); Legal(Step(s, ops[0]), ops[1..])))
  }

  ghost function Run(s: State, ops: seq<Op>): (r: State)
    requires Inv(s) && Legal(s, ops)
    ensures Inv(r)
    decreases |ops|
  {
    if ops == [] then s else StepKeepsInv(s, ops[0]); Run(Step(s, ops[0]), ops[1..])
  }

  lemma InitialInv()
    ensures Inv(INITIAL)
  {
  }

  // ---------------------------------------------------------------- how often timers fire

  function Calls(s: State, q: int): nat {
    multiset(s.fired)[q]
  }

  ghost predicate OneShot(s: State, q: int) {
    q in s.repeats && !s.repeats[q]
  }

  /** A one-shot timer has been called back once it is past its turn in the batch, and not before. */
  ghost predicate CallsMatch(s: State) {
    && (forall q :: q in s.fired ==> 1 <= q <= s.created)
    && (forall q :: OneShot(s, q) ==> Calls(s, q) <= 1)
    && (forall a :: a in s.heap && !s.heap[a].Repeats() && !InBatch(s, a) ==> Calls(s, s.heap[a].sequence) == 0)
    && (forall i :: 0 <= i < |s.batch| && s.batch[i].timer in s.heap && !s.heap[s.batch[i].timer].Repeats() ==>
          Calls(s, s.heap[s.batch[i].timer].sequence) == if i < s.ran then 1 else 0)
  }

  /** The timer with sequence number q has been cancelled, and not only before the queue had it. */
  predicate Cancelled(cancelled: map<int, bool>, q: int) {
    q in cancelled && cancelled[q]
  }

  /** Only a cancelled timer, or a one-shot that has been called back, is deleted. */
  ghost predicate FreedForCause(s: State) {
    forall q :: q in s.freed ==> Cancelled(s.cancelled, q) || (OneShot(s, q) && Calls(s, q) == 1)
  }

  /** The timer with sequence number q is in the batch and marked not to be put back. */
  ghost predicate Leaving(s: State, q: int) {
    exists i :: 0 <= i < |s.batch| && s.batch[i].timer in s.heap
             && s.heap[s.batch[i].timer].sequence == q && TimerId(s.batch[i].timer, q) in s.canceling
  }

  ghost predicate CancelsMatch(s: State) {
    && (forall q :: Cancelled(s.cancelled, q) ==> 1 <= q <= s.created && (Live(s, q) ==> Leaving(s, q)))
    && (forall i :: 0 <= i < |s.batch| && s.batch[i].timer in s.heap ==>
          var q := s.heap[s.batch[i].timer].sequence;
          TimerId(s.batch[i].timer, q) in s.canceling ==> Cancelled(s.cancelled, q))
  }

  ghost predicate CallInv(s: State) {
    CallsMatch(s) && FreedForCause(s) && CancelsMatch(s)
  }

  lemma CreateLeaving(s: State, a: Addr, when: int, interval: real, q: int)
    requires a !in s.heap && Leaving(s, q)
    ensures Leaving(Create(s, a, when, interval), q)
  {
    var r := Create(s, a, when, interval);
    var i :| 0 <= i < |s.batch| && s.batch[i].timer in s.heap
          && s.heap[s.batch[i].timer].sequence == q && TimerId(s.batch[i].timer, q) in s.canceling;
    assert r.batch[i] == s.batch[i];
  }

  lemma CreateCancels(s: State, a: Addr, when: int, interval: real)
    requires OneOwner(s) && UniqueSequences(s) && CancelsMatch(s) && a !in s.heap
    ensures CancelsMatch(Create(s, a, when, interval))
  {
    hide Leaving;
    var r := Create(s, a, when, interval);
    forall q | Cancelled(s.cancelled, q)
      ensures Live(r, q) ==> Leaving(r, q)
    {
      if Leaving(s, q) {
        CreateLeaving(s, a, when, interval, q);
      } else {
        assert forall b :: b in r.heap && b != a ==> s.heap[b].sequence != q;
      }
    }
  }

  lemma CreateCalls(s: State, a: Addr, when: int, interval: real)
    requires Ownership(s) && CallInv(s) && a !in s.heap
    ensures CallInv(Create(s, a, when, interval))
  {
    hide SameIndex, Leaving, CancelsMatch;
    CreateCancels(s, a, when, interval);
    var r := Create(s, a, when, interval);
    assert forall b :: InBatch(r, b) == InBatch(s, b);
    assert forall q :: q in s.repeats ==> r.repeats[q] == s.repeats[q];
    assert r.created !in s.fired;
    assert forall q :: OneShot(r, q) ==> OneShot(s, q) || q == r.created;
    assert forall q :: Calls(r, q) == Calls(s, q);
    assert forall q :: OneShot(s, q) ==> OneShot(r, q);
  }

  /** Adding a timer changes neither the batch nor any count. */
  lemma CallFrame(s: State, r: State)
    requires CallInv(s)
    requires r == s.(timers := r.timers, active := r.active, inFlight := r.inFlight, alarm := r.alarm,
                     calling := r.calling)
    ensures CallInv(r)
  {
    assert forall b :: InBatch(r, b) == InBatch(s, b);
    assert forall q :: Live(r, q) == Live(s, q);
    assert forall q :: Leaving(r, q) == Leaving(s, q);
    SameCalls(s, r);
  }

  lemma SameCalls(s: State, r: State)
    requires r.fired == s.fired && r.repeats == s.repeats
    ensures forall q :: OneShot(r, q) == OneShot(s, q)
    ensures forall q :: Calls(r, q) == Calls(s, q)
  {
    assert forall q :: OneShot(r, q) == OneShot(s, q);
  }

  /**
   Cancelling a live timer deletes it at once, or makes it leave with the batch in progress, exactly if the queue has
   the timer already. While its insertion is still queued the cancel is lost.
   */
  lemma CancelTakesEffect(s: State, id: TimerId)
    requires Inv(s) && Names(s, id)
    ensures var r := CancelInLoop(s, id);
            && id.sequence in r.cancelled && (Cancelled(r.cancelled, id.sequence) <==> id.timer !in s.inFlight)
            && (!Live(r, id.sequence) || Leaving(r, id.sequence) <==> id.timer !in s.inFlight)
  {
    var r := CancelInLoop(s, id);
    if id.timer in s.inFlight {
      assert !InBatch(s, id.timer) && r.batch == s.batch;
      assert r.heap[id.timer].sequence == id.sequence;
    } else if id in s.active {
      assert forall b :: b in r.heap ==> r.heap[b].sequence != id.sequence;
    } else {
      assert !InQueue(s, id.timer);
      var i :| 0 <= i < |s.batch| && s.batch[i].timer == id.timer;
      assert r.batch[i] == s.batch[i];
    }
  }

  /** Cancelling one timer does not bring another back. */
  lemma StillLeaving(s: State, id: TimerId, q: int)
    requires Inv(s) && Leaving(s, q)
    ensures Leaving(CancelInLoop(s, id), q)
  {
    hide UniqueSequences;
    var r := CancelInLoop(s, id);
    var i :| 0 <= i < |s.batch| && s.batch[i].timer in s.heap
          && s.heap[s.batch[i].timer].sequence == q && TimerId(s.batch[i].timer, q) in s.canceling;
    assert InBatch(s, s.batch[i].timer);
    assert id in s.active ==> InQueue(s, id.timer);
    assert r.batch[i] == s.batch[i];
  }

  /** A cancelled timer that is still live is in the batch, so no later cancel finds it on its way to the queue. */
  lemma StaysCancelled(s: State, id: TimerId, q: int)
    requires Inv(s) && CancelsMatch(s) && Cancelled(s.cancelled, q)
    ensures Cancelled(CancelInLoop(s, id).cancelled, q)
  {
    hide SameIndex;
    if Names(s, id) && id.sequence == q {
      assert Live(s, q);
      var i :| 0 <= i < |s.batch| && s.batch[i].timer in s.heap && s.heap[s.batch[i].timer].sequence == q;
      assert s.batch[i].timer == id.timer && InBatch(s, id.timer);
    }
  }

  lemma CancelLeaving(s: State, id: TimerId)
    requires Inv(s) && CancelsMatch(s)
    ensures CancelsMatch(CancelInLoop(s, id))
  {
    hide Leaving;
    var r := CancelInLoop(s, id);
    forall q | Cancelled(s.cancelled, q)
      ensures Cancelled(r.cancelled, q)
    {
      StaysCancelled(s, id, q);
    }
    forall q | Cancelled(r.cancelled, q)
      ensures 1 <= q <= r.created && (Live(r, q) ==> Leaving(r, q))
    {
      if Cancelled(s.cancelled, q) {
        assert Live(r, q) ==> Live(s, q);
        if Leaving(s, q) {
          StillLeaving(s, id, q);
        }
      } else {
        CancelTakesEffect(s, id);
      }
    }
    forall i | 0 <= i < |r.batch| && r.batch[i].timer in r.heap
      ensures var q := r.heap[r.batch[i].timer].sequence;
              TimerId(r.batch[i].timer, q) in r.canceling ==> Cancelled(r.cancelled, q)
    {
      MarkedIsCancelled(s, id, i);
    }
  }

  lemma MarkedIsCancelled(s: State, id: TimerId, i: nat)
    requires Inv(s) && CancelsMatch(s)
    requires var r := CancelInLoop(s, id); i < |r.batch| && r.batch[i].timer in r.heap
    ensures var r := CancelInLoop(s, id);
            var q := r.heap[r.batch[i].timer].sequence;
            TimerId(r.batch[i].timer, q) in r.canceling ==> Cancelled(r.cancelled, q)
  {
    hide Leaving, SameIndex, UniqueSequences;
    var q := s.heap[s.batch[i].timer].sequence;
    assert InBatch(s, s.batch[i].timer);
    if Cancelled(s.cancelled, q) {
      StaysCancelled(s, id, q);
    }
  }

  lemma CancelCalls(s: State, id: TimerId)
    requires Inv(s) && CallInv(s)
    ensures CallInv(CancelInLoop(s, id))
  {
    hide UniqueSequences, CancelsMatch;
    var r := CancelInLoop(s, id);
    assert forall b :: InBatch(r, b) == InBatch(s, b);
    CancelLeaving(s, id);
    forall q | Cancelled(s.cancelled, q)
      ensures Cancelled(r.cancelled, q)
    {
      StaysCancelled(s, id, q);
    }
    SameCalls(s, r);
  }

  lemma BeginCalls(s: State, now: int)
    requires Inv(s) && CallInv(s) && !s.calling
    ensures CallInv(BeginExpiry(s, now))
  {
    var r := BeginExpiry(s, now);
    SameCalls(s, r);
    assert forall a :: !InBatch(s, a);
    assert forall q :: Live(r, q) == Live(s, q);
    assert forall q :: !Leaving(s, q);
  }

  lemma FireCounts(s: State)
    requires OneOwner(s) && s.ran < |s.batch|
    ensures var r := Fire(s);
            var q0 := s.heap[s.batch[s.ran].timer].sequence;
            forall q :: OneShot(r, q) == OneShot(s, q) && Calls(r, q) == Calls(s, q) + if q == q0 then 1 else 0
  {
  }

  lemma FireCallsMatch(s: State)
    requires Ownership(s) && CallsMatch(s) && s.ran < |s.batch|
    ensures CallsMatch(Fire(s))
  {
    hide SameIndex;
    var r := Fire(s);
    var a := s.batch[s.ran].timer;
    FireCounts(s);
    assert Live(s, s.heap[a].sequence) && InBatch(s, a);
    assert forall b :: InBatch(r, b) == InBatch(s, b);
    assert s.heap[a].Repeats() || Calls(s, s.heap[a].sequence) == 0;
    assert OneShot(s, s.heap[a].sequence) == !s.heap[a].Repeats();
  }

  lemma FireCalls(s: State)
    requires Inv(s) && CallInv(s) && s.ran < |s.batch|
    ensures CallInv(Fire(s))
  {
    var r := Fire(s);
    FireCallsMatch(s);
    FireCounts(s);
    assert Live(s, s.heap[s.batch[s.ran].timer].sequence);
    assert forall q :: Live(r, q) == Live(s, q);
    assert forall q :: Leaving(r, q) == Leaving(s, q);
  }

  lemma ResetOneShape(s: State)
    requires s.batch != [] && s.batch[0].timer in s.heap
    ensures var r, a := ResetOne(s), s.batch[0].timer;
            && r.batch == s.batch[1..] && r.heap.Keys <= s.heap.Keys
            && (forall b :: b in r.heap && b != a ==> r.heap[b] == s.heap[b])
            && (a in r.heap ==> r.heap[a].Repeats())
            && r.fired == s.fired && r.repeats == s.repeats && r.created == s.created && r.ran == s.ran
  {
  }

  lemma ResetOneCallsMatch(s: State)
    requires Ownership(s) && CallsMatch(s) && s.batch != [] && s.ran >= |s.batch|
    ensures CallsMatch(ResetOne(s))
  {
    hide UniqueSequences, SameIndex, ResetOne, Calls;
    var r := ResetOne(s);
    var a := s.batch[0].timer;
    ResetOneShape(s);
    SameCalls(s, r);
    forall b
      ensures InBatch(r, b) <==> InBatch(s, b) && b != a
    {
      ResetOneBatch(s, b);
    }
    assert forall i :: 0 <= i < |r.batch| ==> r.batch[i] == s.batch[i + 1];
    hide InBatch, InQueue;
  }

  lemma ResetOneFreed(s: State)
    requires Ownership(s) && CallInv(s) && s.batch != [] && s.ran >= |s.batch|
    ensures FreedForCause(ResetOne(s))
  {
    var r := ResetOne(s);
    var a := s.batch[0].timer;
    SameCalls(s, r);
    assert OneShot(s, s.heap[a].sequence) == !s.heap[a].Repeats();
  }

  /** A leaving timer is deleted in its turn, and until then it stays marked. */
  lemma ResetOneLeaving(s: State, q: int)
    requires OneOwner(s) && UniqueSequences(s) && s.batch != [] && Leaving(s, q)
    ensures Live(ResetOne(s), q) ==> Leaving(ResetOne(s), q)
  {
    var r := ResetOne(s);
    var i :| 0 <= i < |s.batch| && s.batch[i].timer in s.heap
          && s.heap[s.batch[i].timer].sequence == q && TimerId(s.batch[i].timer, q) in s.canceling;
    if i == 0 {
      assert forall b :: b in r.heap ==> r.heap[b].sequence != q;
    } else {
      assert r.batch[i - 1] == s.batch[i];
    }
  }

  lemma ResetOneCancels(s: State)
    requires Ownership(s) && CancelsMatch(s) && s.batch != []
    ensures CancelsMatch(ResetOne(s))
  {
    hide Leaving, SameIndex;
    var r := ResetOne(s);
    assert forall i :: 0 <= i < |r.batch| ==> r.batch[i] == s.batch[i + 1] && r.batch[i].timer != s.batch[0].timer;
    assert forall b :: b in r.heap ==> r.heap[b].sequence == s.heap[b].sequence;
    forall q | Cancelled(s.cancelled, q)
      ensures Live(r, q) ==> Leaving(r, q)
    {
      if Leaving(s, q) {
        ResetOneLeaving(s, q);
      } else {
        assert forall b :: b in r.heap ==> s.heap[b].sequence != q;
      }
    }
  }

  lemma {:induction false} ResetBatchCalls(s: State)
    requires Ownership(s) && CallInv(s) && s.ran >= |s.batch|
    ensures CallInv(ResetBatch(s))
    decreases |s.batch|
  {
    if s.batch != [] {
      ResetOneKeeps(s);
      ResetOneCallsMatch(s);
      ResetOneFreed(s);
      ResetOneCancels(s);
      ResetBatchCalls(ResetOne(s));
    }
  }

  lemma EndCalls(s: State, clock: int)
    requires Inv(s) && CallInv(s) && s.ran == |s.batch|
    ensures CallInv(EndExpiry(s, clock))
  {
    var c := s.(calling := false);
    OwnershipFrame(s, c);
    CallFrame(s, c);
    ResetBatchKeeps(c);
    ResetBatchCalls(c);
    var m := Rearm(ResetBatch(c), clock);
    CallFrame(ResetBatch(c), m);
    SameCalls(m, m.(ran := 0));
    assert forall q :: Live(m.(ran := 0), q) == Live(m, q);
    assert forall a :: !InBatch(m, a) && !InBatch(m.(ran := 0), a);
    assert forall q :: !Leaving(m, q);
  }

  lemma StepKeepsCallInv(s: State, op: Op)
    requires Inv(s) && CallInv(s) && Enabled(s, op)
    ensures CallInv(Step(s, op))
  {
    match op
    case OpCreate(a, when, interval) => CreateCalls(s, a, when, interval);
    case OpAdd(a, clock) => CallFrame(s, Step(s, op));
    case OpCancel(id) => CancelCalls(s, id);
    case OpBegin(now) => BeginCalls(s, now);
    case OpFire => FireCalls(s);
    case OpEnd(clock) => EndCalls(s, clock);
  }

  // ---------------------------------------------------------------- the alarm

  /** The timerfd goes off in time for w, or 100 microseconds after it was last set. */
  predicate Covers(alarm: Option<Alarm>, w: int) {
    alarm.Some? && alarm.value.due <= Max(w, alarm.value.armedAt + 100)
  }

  /** Between expiries every queued timer is covered; during one, at least those that are already due. */
  ghost predicate AlarmInv(s: State) {
    forall e :: e in s.timers && (s.calling ==> e.when <= s.now) ==> Covers(s.alarm, e.when)
  }

  /** The timerfd is set for the expiration, or for 100 microseconds from now if that is later. */
  lemma ArmedInTime(when: int, clock: int)
    ensures ResetTimerfd(when, clock) == Alarm(clock, if when < clock + 100 then clock + 100 else when)
    ensures Covers(Some(ResetTimerfd(when, clock)), when)
  {
    var ts := HowMuchTimeFromNow(when, clock);
    var us := Max(when - clock, 100);
    assert ts.sec * 1000000000 + ts.nsec == 1000 * us;
    assert ts.nsec % 1000 == 0;
  }

  lemma AddCovers(s: State, a: Addr, clock: int)
    requires Inv(s) && AlarmInv(s) && a in s.inFlight
    ensures AlarmInv(AddTimerInLoop(s, a, clock))
  {
    ArmedInTime(s.heap[a].expiration, clock);
  }

  /** The expiration is the given time plus the interval in seconds, truncated to the microsecond. */
  predicate OneIntervalLater(expiration: int, now: int, interval: real) {
    0.0 <= now as real + interval * 1000000.0 - expiration as real < 1.0
  }

  /** A restarted timer is due one interval later, to the microsecond, and so not before the batch it was in. */
  lemma RestartIsLater(t: Timer, now: int)
    requires now > 0 && t.interval > 0.0
    ensures var r := Restart(t, now);
            && OneIntervalLater(r.expiration, now, t.interval) && r.expiration >= now
            && r.interval == t.interval && r.sequence == t.sequence
  {
    var delta := t.interval * 1000000.0 + now as real;
    assert delta >= now as real;
    assert delta.Floor >= now;
  }

  lemma ResetOneAddsLater(s: State)
    requires Ownership(s) && s.now > 0 && s.batch != []
    ensures var r := ResetOne(s);
            (forall e :: e in r.timers ==> e in s.timers || e.when >= s.now) && s.timers <= r.timers && r.now == s.now
  {
    var a := s.batch[0].timer;
    if s.heap[a].Repeats() {
      RestartIsLater(s.heap[a], s.now);
    }
    hide Restart, SameIndex, UniqueSequences;
  }

  lemma {:induction false} ResetAddsLater(s: State)
    requires Ownership(s) && s.now > 0
    ensures forall e :: e in ResetBatch(s).timers ==> e in s.timers || e.when >= s.now
    ensures s.timers <= ResetBatch(s).timers
    decreases |s.batch|
  {
    if s.batch != [] {
      ResetOneAddsLater(s);
      ResetOneKeeps(s);
      assert s.batch[0].timer in s.heap && |ResetOne(s).batch| < |s.batch|;
      hide ResetOne, SameIndex, UniqueSequences;
      ResetAddsLater(ResetOne(s));
    }
  }

  lemma EndCovers(s: State, clock: int)
    requires Inv(s) && AlarmInv(s) && s.calling
    ensures AlarmInv(EndExpiry(s, clock))
  {
    hide SameIndex, UniqueSequences, InQueue;
    var c := s.(calling := false);
    OwnershipFrame(s, c);
    ResetBatchKeeps(c);
    ResetAddsLater(c);
    var m := ResetBatch(c);
    if m.timers != {} {
      var h := Earliest(m.timers);
      if h.when > 0 {
        ArmedInTime(h.when, clock);
      } else {
        assert h in s.timers && Covers(s.alarm, h.when);
      }
      assert forall e :: e in m.timers ==> h.when <= e.when;
    }
  }

  lemma StepKeepsAlarm(s: State, op: Op)
    requires Inv(s) && AlarmInv(s) && Enabled(s, op)
    ensures AlarmInv(Step(s, op))
  {
    match op
    case OpCreate(_, _, _) =>
    case OpAdd(a, clock) => AddCovers(s, a, clock);
    case OpCancel(_) =>
    case OpBegin(_) =>
    case OpFire =>
    case OpEnd(clock) => EndCovers(s, clock);
  }

  // ---------------------------------------------------------------- theorems over runs

  /** Ownership, the call counts and the alarm hold after every run, from any state that has them. */
  lemma {:induction false} EveryRun(s: State, ops: seq<Op>)
    requires Inv(s) && CallInv(s) && AlarmInv(s) && Legal(s, ops)
    ensures var r := Run(s, ops);
            Inv(r) && CallInv(r) && AlarmInv(r)
    decreases |ops|
  {
    if ops != [] {
      StepKeepsInv(s, ops[0]);
      StepKeepsCallInv(s, ops[0]);
      StepKeepsAlarm(s, ops[0]);
      EveryRun(Step(s, ops[0]), ops[1..]);
    }
  }

  lemma InitialCalls()
    ensures Inv(INITIAL) && CallInv(INITIAL) && AlarmInv(INITIAL)
  {
    assert forall q :: !Live(INITIAL, q);
    assert forall q :: !OneShot(INITIAL, q);
  }

  /** In a fresh queue, a one-shot timer is called back at most once, and deleted only for it or for a cancel. */
  lemma OneShotFiresOnce(ops: seq<Op>, q: int)
    requires Inv(INITIAL) && Legal(INITIAL, ops)
    ensures var r := Run(INITIAL, ops);
            && (OneShot(r, q) ==> Calls(r, q) <= 1)
            && (q in r.freed && !Cancelled(r.cancelled, q) ==> OneShot(r, q) && Calls(r, q) == 1)
  {
    InitialCalls();
    EveryRun(INITIAL, ops);
  }

  /** No missed timer: between expiries, a queued timer has the timerfd set for it or for sooner. */
  lemma NoMissedTimer(ops: seq<Op>, e: Entry)
    requires Inv(INITIAL) && Legal(INITIAL, ops)
    ensures var r := Run(INITIAL, ops);
            e in r.timers && !r.calling ==>
              r.alarm.Some? && r.alarm.value.due <= Max(e.when, r.alarm.value.armedAt + 100)
  {
    InitialCalls();
    EveryRun(INITIAL, ops);
  }

  /** A deleted timer stays deleted, whatever its address is used for next, and is never called back again. */
  lemma StaysGone(s: State, op: Op, q: int)
    requires Inv(s) && Enabled(s, op) && 1 <= q <= s.created && !Live(s, q)
    ensures var r := Step(s, op);
            !Live(r, q) && q <= r.created && Calls(r, q) == Calls(s, q)
  {
    var r := Step(s, op);
    StepKeepsInv(s, op);
    assert q in s.freed;
    FreedGrows(s, op);
    assert q in r.freed;
    if op == OpFire {
      assert Live(s, s.heap[s.batch[s.ran].timer].sequence);
    }
  }

  lemma {:induction false} ResetKeepsFreed(s: State)
    requires Ownership(s)
    ensures s.freed <= ResetBatch(s).freed
    decreases |s.batch|
  {
    if s.batch != [] {
      ResetOneKeeps(s);
      ResetKeepsFreed(ResetOne(s));
    }
  }

  lemma FreedGrows(s: State, op: Op)
    requires Inv(s) && Enabled(s, op)
    ensures s.freed <= Step(s, op).freed && s.created <= Step(s, op).created
    ensures !op.OpFire? ==> Step(s, op).fired == s.fired
  {
    hide UniqueSequences;
    if op.OpEnd? {
      var c := s.(calling := false);
      OwnershipFrame(s, c);
      ResetKeepsFreed(c);
      ResetBatchKeeps(c);
    }
  }

  /** A timer cancelled once the queue had it, repeating or not, is never called back after the batch in progress. */
  lemma CancelledNeverFires(s: State, ops: seq<Op>, q: int)
    requires Inv(s) && CallInv(s) && Cancelled(s.cancelled, q) && !s.calling && Legal(s, ops)
    ensures Calls(Run(s, ops), q) == Calls(s, q)
  {
    assert !Leaving(s, q);
    GoneForGood(s, ops, q);
  }

  lemma {:induction false} GoneForGood(s: State, ops: seq<Op>, q: int)
    requires Inv(s) && 1 <= q <= s.created && !Live(s, q) && Legal(s, ops)
    ensures Calls(Run(s, ops), q) == Calls(s, q) && !Live(Run(s, ops), q)
    decreases |ops|
  {
    if ops != [] {
      StepKeepsInv(s, ops[0]);
      StaysGone(s, ops[0], q);
      GoneForGood(Step(s, ops[0]), ops[1..], q);
    }
  }

  /**
   Another thread adds a timer and the loop thread cancels it before the insertion has run: the cancel does nothing
   and the timer fires.
   */
  lemma CancelBeforeAddIsLost(a: Addr, when: int, interval: real, clock: int, now: int)
    requires now > 0 && when <= now
    ensures var ops := [OpCreate(a, when, interval), OpCancel(TimerId(a, 1)), OpAdd(a, clock), OpBegin(now), OpFire];
            Inv(INITIAL) && Legal(INITIAL, ops) && Run(INITIAL, ops).fired == [1] && 1 in Run(INITIAL, ops).cancelled
  {
    var s1, s2, s3 := LostCancel(a, when, interval, clock);
    var s4 := FiresFirst(s3, Entry(when, a), now);
    StepKeepsInv(s4, OpFire);
    hide Inv, Step, Enabled, Legal, Run;
    FiveSteps(INITIAL, s1, s2, s3, s4,
              OpCreate(a, when, interval), OpCancel(TimerId(a, 1)), OpAdd(a, clock), OpBegin(now), OpFire);
  }

  lemma FiveSteps(s0: State, s1: State, s2: State, s3: State, s4: State, o0: Op, o1: Op, o2: Op, o3: Op, o4: Op)
    requires Inv(s0) && Inv(s1) && Inv(s2) && Inv(s3) && Inv(s4) && Enabled(s4, o4) && Inv(Step(s4, o4))
    requires Enabled(s0, o0) && s1 == Step(s0, o0) && Enabled(s1, o1) && s2 == Step(s1, o1)
    requires Enabled(s2, o2) && s3 == Step(s2, o2) && Enabled(s3, o3) && s4 == Step(s3, o3)
    ensures Legal(s0, [o0, o1, o2, o3, o4]) && Run(s0, [o0, o1, o2, o3, o4]) == Step(s4, o4)
  {
    hide Inv, Step, Enabled, Legal, Run;
    RunNone(Step(s4, o4));
    RunOne(s4, o4, []);
    assert [o4] + [] == [o4];
    RunOne(s3, o3, [o4]);
    assert [o3] + [o4] == [o3, o4];
    RunOne(s2, o2, [o3, o4]);
    assert [o2] + [o3, o4] == [o2, o3, o4];
    RunOne(s1, o1, [o2, o3, o4]);
    assert [o1] + [o2, o3, o4] == [o1, o2, o3, o4];
    RunOne(s0, o0, [o1, o2, o3, o4]);
    assert [o0] + [o1, o2, o3, o4] == [o0, o1, o2, o3, o4];
  }

  /** A timer cancelled while its insertion is queued is in the queue afterwards. */
  lemma LostCancel(a: Addr, when: int, interval: real, clock: int) returns (s1: State, s2: State, s3: State)
    ensures Inv(INITIAL) && Enabled(INITIAL, OpCreate(a, when, interval))
    ensures s1 == Step(INITIAL, OpCreate(a, when, interval)) && Inv(s1) && Enabled(s1, OpCancel(TimerId(a, 1)))
    ensures s2 == Step(s1, OpCancel(TimerId(a, 1))) && Inv(s2) && Enabled(s2, OpAdd(a, clock))
    ensures s3 == Step(s2, OpAdd(a, clock)) && Inv(s3)
    ensures s3.heap == map[a := Timer(when, interval, 1)] && s3.timers == {Entry(when, a)} && !s3.calling
    ensures 1 in s3.cancelled && s3.fired == []
  {
    InitialInv();
    StepKeepsInv(INITIAL, OpCreate(a, when, interval));
    s1 := Create(INITIAL, a, when, interval);
    StepKeepsInv(s1, OpCancel(TimerId(a, 1)));
    s2 := CancelInLoop(s1, TimerId(a, 1));
    StepKeepsInv(s2, OpAdd(a, clock));
    s3 := AddTimerInLoop(s2, a, clock);
  }

  /** A single timer that is due fires first. */
  lemma FiresFirst(s: State, e: Entry, now: int) returns (r: State)
    requires Inv(s) && !s.calling && s.timers == {e} && e.when <= now && now > 0
    ensures Enabled(s, OpBegin(now)) && r == Step(s, OpBegin(now)) && Inv(r) && Enabled(r, OpFire) && e.timer in s.heap
    ensures Step(r, OpFire).fired == s.fired + [s.heap[e.timer].sequence] && Step(r, OpFire).cancelled == s.cancelled
  {
    StepKeepsInv(s, OpBegin(now));
    OneDue(s, e, now);
    r := BeginExpiry(s, now);
  }

  lemma RunNone(s: State)
    requires Inv(s)
    ensures Legal(s, []) && Run(s, []) == s
  {
  }

  lemma RunOne(s: State, op: Op, rest: seq<Op>)
    requires Inv(s) && Enabled(s, op) && Inv(Step(s, op)) && Legal(Step(s, op), rest)
    ensures Legal(s, [op] + rest) && Run(s, [op] + rest) == Run(Step(s, op), rest)
  {
    assert ([op] + rest)[1..] == rest;
  }

  lemma OneDue(s: State, e: Entry, now: int)
    requires s.timers == {e} && e.when <= now
    ensures Due(s.timers, now) == {e} && Ordered({e}) == [e]
  {
    assert Earliest({e}) == e;
    assert {e} - {e} == {};
    assert Ordered({}) == [];
  }

  // ---------------------------------------------------------------- stale identifiers

  /** Cancelling affects only the timer with that very identifier, even if its address has been used again. */
  lemma CancelTouchesOnlyItsTimer(s: State, id: TimerId, a: Addr)
    requires Inv(s) && a in s.heap && id != TimerId(a, s.heap[a].sequence)
    ensures var r := CancelInLoop(s, id);
            && a in r.heap && r.heap[a] == s.heap[a]
            && InQueue(r, a) == InQueue(s, a) && InBatch(r, a) == InBatch(s, a)
            && (a in r.inFlight) == (a in s.inFlight)
            && Survives(r, a) == Survives(s, a)
  {
    var r := CancelInLoop(s, id);
    assert InBatch(r, a) == InBatch(s, a);
  }

  /** A stale identifier, or one whose timer is not in the queue yet, cancels nothing. */
  lemma StaleCancelIsHarmless(s: State, id: TimerId)
    requires Inv(s) && (Names(s, id) ==> id.timer in s.inFlight)
    ensures var r := CancelInLoop(s, id);
            && r == s.(canceling := r.canceling, cancelled := r.cancelled)
            && (!Names(s, id) ==> r.cancelled == s.cancelled)
            && r.canceling == if s.calling then s.canceling + {id} else s.canceling
  {
    if id in s.active {
      assert InQueue(s, id.timer);
    }
  }

  /** The two indexes have the same size, as the code asserts around every operation. */
  lemma {:induction false} IndexSizesAgree(s: State)
    requires SameIndex(s)
    ensures |s.timers| == |s.active|
    decreases |s.timers|
  {
    if s.timers != {} {
      var e :| e in s.timers;
      var id := TimerId(e.timer, s.heap[e.timer].sequence);
      IndexSizesAgree(s.(timers := s.timers - {e}, active := s.active - {id}));
    } else {
      assert s.active == {};
    }
  }
}
