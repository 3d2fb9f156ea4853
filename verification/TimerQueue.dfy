/**
 netLayer/timer/TimerQueue.cpp, netLayer/timer/Timer.h and netLayer/timer/Timer.cpp in their own form: an
 object whose methods update its sets in place, proved step by step against TimerSpec.

 heap and created are the allocator and Timer::s_numCreated_; both belong to the whole program.
 */
module TimerQueues {
  import opened Options
  import opened TimerSpec
  import opened TimerOwnership
  import opened TimerRuns

  /** The steps of one handleRead whose i-th callback takes the steps callbacks[i]. */
  function CallbackSteps(callbacks: seq<seq<Op>>): seq<Op> {
    if callbacks == [] then [] else [OpFire] + (callbacks[0] + CallbackSteps(callbacks[1..]))
  }

  function HandleReadSteps(now: int, callbacks: seq<seq<Op>>, clock: int): seq<Op> {
    [OpBegin(now)] + (CallbackSteps(callbacks) + [OpEnd(clock)])
  }

  /** What a callback, or another thread meanwhile, can do to the queue. */
  predicate IsCall(op: Op) {
    op.OpCreate? || op.OpAdd? || op.OpCancel?
  }

  lemma RunUnfold(s: State, op: Op, rest: seq<Op>)
    requires Inv(s) && Legal(s, [op] + rest)
    ensures Enabled(s, op) && Inv(Step(s, op)) && Legal(Step(s, op), rest)
    ensures Run(s, [op] + rest) == Run(Step(s, op), rest)
  {
    StepKeepsInv(s, op);
    assert ([op] + rest)[1..] == rest;
  }

  class TimerQueue {
    var heap: map<Addr, Timer>
    var created: nat
    var timers: set<Entry>
    var active: set<TimerId>
    var calling: bool
    var canceling: set<TimerId>
    var alarm: Option<Alarm>
    ghost var inFlight: set<Addr>
    ghost var batch: seq<Entry>
    ghost var ran: nat
    ghost var now: int
    ghost var repeats: map<int, bool>
    ghost var fired: seq<int>
    ghost var freed: seq<int>
    ghost var cancelled: map<int, bool>

    ghost function View(): State
      reads this
    {
      State(heap, created, inFlight, timers, active, calling, canceling, alarm,
            batch, ran, now, repeats, fired, freed, cancelled)
    }

    constructor ()
      ensures View() == INITIAL
    {
      heap, created, inFlight := map[], 0, {};
      timers, active, calling, canceling, alarm := {}, {}, false, {}, None;
      batch, ran, now := [], 0, 0;
      repeats, fired, freed, cancelled := map[], [], [], map[];
    }

    /** The Timer constructor: a is the address that new returns. */
    method NewTimer(a: Addr, when: int, interval: real) returns (id: TimerId)
      requires a !in heap
      modifies this
      ensures View() == Create(old(View()), a, when, interval)
      ensures id == TimerId(a, heap[a].sequence)
    {
      created := created + 1;
      heap := heap[a := Timer(when, interval, created)];
      id := TimerId(a, created);
      inFlight := inFlight + {a};
      repeats := repeats[created := interval > 0.0];
    }

    method InsertTimer(a: Addr) returns (earliestChanged: bool)
      requires a in heap
      requires Entry(heap[a].expiration, a) !in timers && TimerId(a, heap[a].sequence) !in active
      modifies this`timers, this`active
      ensures View() == Insert(old(View()), a)
      ensures earliestChanged == EarliestChanges(old(View()), heap[a].expiration)
    {
      earliestChanged := false;
      var when := heap[a].expiration;
      if timers == {} || when < Earliest(timers).when {
        earliestChanged := true;
      }
      timers := timers + {Entry(when, a)};
      active := active + {TimerId(a, heap[a].sequence)};
    }

    method AddTimerInLoop(a: Addr, clock: int)
      requires Inv(View()) && a in inFlight
      modifies this
      ensures View() == TimerSpec.AddTimerInLoop(old(View()), a, clock)
    {
      assert !InQueue(View(), a);
      var earliestChanged := InsertTimer(a);
      if earliestChanged {
        alarm := Some(ResetTimerfd(heap[a].expiration, clock));
      }
      inFlight := inFlight - {a};
    }

    method DeleteTimer(a: Addr)
      requires a in heap
      modifies this`heap, this`freed
      ensures View() == Delete(old(View()), a)
    {
      freed := freed + [heap[a].sequence];
      heap := heap - {a};
    }

    method CancelInLoop(id: TimerId)
      requires Inv(View())
      modifies this
      ensures View() == TimerSpec.CancelInLoop(old(View()), id)
    {
      hide OneOwner, UniqueSequences;
      if Names(View(), id) {
        cancelled := cancelled[id.sequence := id.timer !in inFlight];
      }
      if id in active {
        var entry := Entry(heap[id.timer].expiration, id.timer);
        assert entry in timers;
        timers := timers - {entry};
        DeleteTimer(id.timer);
        active := active - {id};
      } else if calling {
        canceling := canceling + {id};
      }
    }

    /** Moves out the timers due at t, in order. */
    method GetExpired(t: int) returns (expired: seq<Entry>)
      requires SameIndex(View())
      modifies this`timers, this`active
      ensures expired == Ordered(Due(old(timers), t))
      ensures timers == old(timers) - Due(old(timers), t)
      ensures forall e :: e in Due(old(timers), t) ==> e.timer in heap
      ensures active == old(active) - IdsOf(heap, Due(old(timers), t))
    {
      hide Ordered, SameIndex;
      DueAreActive(View(), t);
      var due := Due(timers, t);
      expired := Ordered(due);
      timers := timers - due;
      ghost var erased: set<TimerId> := {};
      var i := 0;
      while i < |expired|
        invariant 0 <= i <= |expired|
        invariant timers == old(timers) - due && active == old(active) - erased
        invariant forall id :: id in erased <==>
                                 id in IdsOf(heap, due) && id.timer in (set j | 0 <= j < i :: expired[j].timer)
      {
        assert expired[i] in due;
        var id := TimerId(expired[i].timer, heap[expired[i].timer].sequence);
        assert id in IdsOf(heap, due);
        assert id in active;
        active := active - {id};
        erased := erased + {id};
        i := i + 1;
      }
      assert erased == IdsOf(heap, due);
    }

    /** Puts the expired timers back or deletes them, then sets the timerfd. */
    method Reset(expired: seq<Entry>, t: int, clock: int)
      requires Ownership(View()) && expired == batch && t == now > 0
      modifies this
      ensures View() == Rearm(ResetBatch(old(View())), clock)
    {
      hide SameIndex, UniqueSequences, ResetOne;
      ghost var start := View();
      var i := 0;
      while i < |expired|
        invariant 0 <= i <= |expired| && batch == expired[i..] && now == start.now
        invariant Ownership(View()) && ResetBatch(View()) == ResetBatch(start)
      {
        ResetRound(expired[i], t);
        i := i + 1;
      }
      SetTimerfd(clock);
    }

    method SetTimerfd(clock: int)
      requires SameIndex(View())
      modifies this`alarm
      ensures View() == Rearm(old(View()), clock)
    {
      if timers != {} {
        var nextExpire := heap[Earliest(timers).timer].expiration;
        if nextExpire > 0 {
          alarm := Some(ResetTimerfd(nextExpire, clock));
        }
      }
    }

    /** The body of the loop of reset. */
    method ResetRound(it: Entry, t: int)
      requires Ownership(View()) && batch != [] && it == batch[0] && t == now
      modifies this
      ensures View() == ResetOne(old(View())) && Ownership(View())
      ensures batch == old(batch)[1..] && now == old(now)
    {
      ghost var s := View();
      ResetOneKeeps(s);
      ResetOneFresh(s);
      hide Ownership, Restart;
      batch := batch[1..];
      var id := TimerId(it.timer, heap[it.timer].sequence);
      if heap[it.timer].Repeats() && id !in canceling {
        RestartTimer(it.timer, t);
      } else {
        DeleteTimer(it.timer);
      }
    }

    /** Restarts a timer and puts it back into both indexes. */
    method RestartTimer(a: Addr, t: int)
      requires a in heap && (forall e :: e in timers ==> e.timer != a) && (forall id :: id in active ==> id.timer != a)
      modifies this`heap, this`timers, this`active
      ensures View() == Insert(old(View()).(heap := old(heap)[a := TimerSpec.Restart(old(heap)[a], t)]), a)
    {
      hide Restart;
      heap := heap[a := Restart(heap[a], t)];
      var _ := InsertTimer(a);
    }

    /** One call made from a callback. */
    method TakeCall(op: Op)
      requires Inv(View()) && Enabled(View(), op) && IsCall(op)
      modifies this
      ensures View() == Step(old(View()), op)
      ensures batch == old(batch) && ran == old(ran) && calling == old(calling) && now == old(now)
    {
      match op
      case OpCreate(a, when, interval) => var _ := NewTimer(a, when, interval);
      case OpAdd(a, clock) => AddTimerInLoop(a, clock);
      case OpCancel(id) => CancelInLoop(id);
    }

    /** All the calls of one callback. */
    method RunCallback(ops: seq<Op>, ghost rest: seq<Op>)
      requires Inv(View()) && Legal(View(), ops + rest)
      requires forall i :: 0 <= i < |ops| ==> IsCall(ops[i])
      modifies this
      ensures Inv(View()) && Legal(View(), rest)
      ensures Run(View(), rest) == Run(old(View()), ops + rest)
      ensures batch == old(batch) && ran == old(ran) && calling == old(calling) && now == old(now)
    {
      hide Inv, Legal, Run, Step, Enabled;
      ghost var all := Run(View(), ops + rest);
      var i := 0;
      assert ops[0..] == ops;
      while i < |ops|
        invariant 0 <= i <= |ops|
        invariant Inv(View()) && Legal(View(), ops[i..] + rest) && Run(View(), ops[i..] + rest) == all
        invariant batch == old(batch) && ran == old(ran) && calling == old(calling) && now == old(now)
      {
        assert ops[i..] + rest == [ops[i]] + (ops[i + 1..] + rest);
        RunUnfold(View(), ops[i], ops[i + 1..] + rest);
        TakeCall(ops[i]);
        i := i + 1;
      }
      assert ops[i..] + rest == rest;
    }

    /** The first half of handleRead. */
    method TakeBatch(t: int) returns (expired: seq<Entry>)
      requires Inv(View()) && !calling && t > 0
      modifies this
      ensures View() == BeginExpiry(old(View()), t)
      ensures expired == batch && ran == 0 && now == t && calling
    {
      hide OneOwner, UniqueSequences, Ordered, IdsOf, Due;
      expired := GetExpired(t);
      alarm := None;
      batch, ran, now := expired, 0, t;
      calling := true;
      canceling := {};
    }

    /** Enters the callback of one expired timer. */
    method RunTimer(it: Entry)
      requires Inv(View()) && ran < |batch| && it == batch[ran]
      modifies this
      ensures View() == Fire(old(View()))
    {
      ran, fired := ran + 1, fired + [heap[it.timer].sequence];
    }

    /** The second half of handleRead. */
    method PutBack(expired: seq<Entry>, t: int, clock: int)
      requires Inv(View()) && calling && expired == batch && ran == |batch| && t == now
      modifies this
      ensures View() == EndExpiry(old(View()), clock)
    {
      OwnershipFrame(View(), View().(calling := false));
      calling := false;
      Reset(expired, t, clock);
      ran := 0;
    }

    /** handleRead at time t, with callbacks that add and cancel timers while the batch is running. */
    method HandleRead(t: int, callbacks: seq<seq<Op>>, clock: int)
      requires Inv(View()) && Legal(View(), HandleReadSteps(t, callbacks, clock))
      requires forall i, j :: 0 <= i < |callbacks| && 0 <= j < |callbacks[i]| ==> IsCall(callbacks[i][j])
      modifies this
      ensures View() == Run(old(View()), HandleReadSteps(t, callbacks, clock))
    {
      hide Ownership, Legal, BeginExpiry, EndExpiry;
      ghost var all := Run(View(), HandleReadSteps(t, callbacks, clock));
      RunUnfold(View(), OpBegin(t), CallbackSteps(callbacks) + [OpEnd(clock)]);
      var expired := TakeBatch(t);
      assert callbacks[0..] == callbacks;
      var i := 0;
      while i < |expired|
        invariant 0 <= i <= |expired| && i <= |callbacks| && ran == i && batch == expired && calling && now == t
        invariant Inv(View()) && Legal(View(), CallbackSteps(callbacks[i..]) + [OpEnd(clock)])
        invariant Run(View(), CallbackSteps(callbacks[i..]) + [OpEnd(clock)]) == all
      {
        NextIsFire(View(), callbacks[i..], clock);
        ghost var rest := CallbackSteps(callbacks[i + 1..]) + [OpEnd(clock)];
        FireFirst(callbacks, i, clock);
        RunUnfold(View(), OpFire, callbacks[i] + rest);
        RunTimer(expired[i]);
        RunCallback(callbacks[i], rest);
        i := i + 1;
      }
      NextIsEnd(View(), callbacks[i..], clock);
      RunUnfold(View(), OpEnd(clock), []);
      PutBack(expired, t, clock);
    }
  }

  lemma FireFirst(callbacks: seq<seq<Op>>, i: nat, clock: int)
    requires i < |callbacks|
    ensures CallbackSteps(callbacks[i..]) + [OpEnd(clock)]
         == [OpFire] + (callbacks[i] + (CallbackSteps(callbacks[i + 1..]) + [OpEnd(clock)]))
  {
    assert callbacks[i..][1..] == callbacks[i + 1..];
  }

  lemma DueAreActive(s: State, t: int)
    requires SameIndex(s)
    ensures forall e :: e in s.timers ==> e.timer in s.heap
    ensures IdsOf(s.heap, Due(s.timers, t)) <= s.active
    ensures var expired := Ordered(Due(s.timers, t));
            forall i, j :: 0 <= i < j < |expired| ==> expired[i].timer != expired[j].timer
  {
    BeginLiveBatch(s, t);
  }

  lemma ResetOneFresh(s: State)
    requires Ownership(s) && s.batch != []
    ensures var a := s.batch[0].timer;
            && a in s.heap
            && (forall e :: e in s.timers ==> e.timer != a) && (forall id :: id in s.active ==> id.timer != a)
  {
    var a := s.batch[0].timer;
    assert InBatch(s, a);
    forall e | e in s.timers
      ensures e.timer != a
    {
      assert InQueue(s, e.timer);
    }
  }

  /** With timers of the batch still to call, the steps cannot have run out of callbacks. */
  lemma NextIsFire(s: State, callbacks: seq<seq<Op>>, clock: int)
    requires Inv(s) && s.ran < |s.batch| && Legal(s, CallbackSteps(callbacks) + [OpEnd(clock)])
    ensures callbacks != []
  {
    assert callbacks == [] ==> CallbackSteps(callbacks) + [OpEnd(clock)] == [OpEnd(clock)];
  }

  lemma StartsWithFire(callbacks: seq<seq<Op>>, clock: int)
    requires callbacks != []
    ensures (CallbackSteps(callbacks) + [OpEnd(clock)])[0] == OpFire
  {
  }

  lemma NextIsEnd(s: State, callbacks: seq<seq<Op>>, clock: int)
    requires Inv(s) && s.ran == |s.batch| && Legal(s, CallbackSteps(callbacks) + [OpEnd(clock)])
    ensures CallbackSteps(callbacks) + [OpEnd(clock)] == [OpEnd(clock)] + []
  {
    if callbacks != [] {
      StartsWithFire(callbacks, clock);
      assert false;
    }
  }
}
