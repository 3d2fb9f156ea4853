/**
 Every step of the timer queue keeps both indexes in agreement and every live timer under one owner,
 and no timer is deleted twice or used after it is deleted.
 */
module TimerOwnership {
  import opened Options
  import opened TimerSpec

  // ---------------------------------------------------------------- sequence numbers

  lemma SameLive(s: State, r: State)
    requires UniqueSequences(s)
    requires r.heap == s.heap && r.created == s.created && r.freed == s.freed && r.repeats == s.repeats
    ensures UniqueSequences(r)
  {
    assert forall q :: Live(r, q) == Live(s, q);
  }

  lemma CreateSequence(s: State, a: Addr, when: int, interval: real)
    requires UniqueSequences(s) && a !in s.heap
    ensures UniqueSequences(Create(s, a, when, interval))
  {
    var r := Create(s, a, when, interval);
    forall q
      ensures Live(r, q) <==> Live(s, q) || q == r.created
    {
      CreateAddsOne(s, a, when, interval, q);
    }
    hide Live;
  }

  lemma CreateAddsOne(s: State, a: Addr, when: int, interval: real, q: int)
    requires a !in s.heap
    ensures Live(Create(s, a, when, interval), q) <==> Live(s, q) || q == s.created + 1
  {
    var r := Create(s, a, when, interval);
    assert r.heap[a].sequence == r.created;
    if Live(s, q) {
      var b :| b in s.heap && s.heap[b].sequence == q;
      assert r.heap[b] == s.heap[b];
    }
  }

  lemma DeleteSequence(s: State, a: Addr)
    requires UniqueSequences(s) && a in s.heap
    ensures UniqueSequences(Delete(s, a))
  {
    var r := Delete(s, a);
    forall q
      ensures Live(r, q) <==> Live(s, q) && q != s.heap[a].sequence
    {
      DeleteDropsOne(s, a, q);
    }
    assert Live(s, s.heap[a].sequence);
    hide Live;
    assert r.freed[|s.freed|] == s.heap[a].sequence;
    assert forall q :: q in s.freed ==> q in r.freed;
  }

  lemma DeleteDropsOne(s: State, a: Addr, q: int)
    requires UniqueSequences(s) && a in s.heap
    ensures Live(Delete(s, a), q) <==> Live(s, q) && q != s.heap[a].sequence
  {
    var r := Delete(s, a);
    if Live(s, q) && q != s.heap[a].sequence {
      var b :| b in s.heap && s.heap[b].sequence == q;
      assert b in r.heap;
    }
    if Live(r, q) {
      var b :| b in r.heap && r.heap[b].sequence == q;
      assert b in s.heap;
    }
  }

  lemma RestartSequence(s: State, a: Addr, now: int)
    requires UniqueSequences(s) && a in s.heap
    ensures UniqueSequences(s.(heap := s.heap[a := s.heap[a].(expiration := now)]))
  {
    var r := s.(heap := s.heap[a := s.heap[a].(expiration := now)]);
    forall q
      ensures Live(r, q) == Live(s, q)
    {
      RestartKeepsLive(s, a, now, q);
    }
    hide Live;
  }

  lemma RestartKeepsLive(s: State, a: Addr, now: int, q: int)
    requires a in s.heap
    ensures Live(s.(heap := s.heap[a := s.heap[a].(expiration := now)]), q) == Live(s, q)
  {
    var r := s.(heap := s.heap[a := s.heap[a].(expiration := now)]);
    if Live(s, q) {
      var b :| b in s.heap && s.heap[b].sequence == q;
      assert r.heap[b].sequence == q;
    }
    if Live(r, q) {
      var b :| b in r.heap && r.heap[b].sequence == q;
      assert s.heap[b].sequence == q;
    }
  }

  // ---------------------------------------------------------------- creating and adding

  lemma CreateOwner(s: State, a: Addr, when: int, interval: real)
    requires SameIndex(s) && OneOwner(s) && a !in s.heap
    ensures OneOwner(Create(s, a, when, interval))
  {
    var r := Create(s, a, when, interval);
    assert !InQueue(r, a) && !InBatch(r, a);
    assert forall b :: b in s.heap ==> r.heap[b] == s.heap[b] && InQueue(r, b) == InQueue(s, b);
    assert forall b :: InBatch(r, b) == InBatch(s, b);
  }

  lemma AddOwner(s: State, a: Addr, clock: int)
    requires OneOwner(s) && a in s.inFlight
    ensures OneOwner(AddTimerInLoop(s, a, clock))
  {
    var r := AddTimerInLoop(s, a, clock);
    assert InQueue(r, a);
    assert forall b :: b in s.heap && b != a ==> InQueue(r, b) == InQueue(s, b);
    assert forall b :: InBatch(r, b) == InBatch(s, b);
  }

  lemma AddIndex(s: State, a: Addr, clock: int)
    requires SameIndex(s) && a in s.heap
    ensures SameIndex(AddTimerInLoop(s, a, clock))
  {
  }

  // ---------------------------------------------------------------- cancelling

  lemma CancelIndex(s: State, id: TimerId)
    requires SameIndex(s) && id in s.active
    ensures SameIndex(CancelInLoop(s, id))
  {
    var r := CancelInLoop(s, id);
    forall e | e in r.timers
      ensures e.timer != id.timer
    {
    }
    forall i | i in r.active
      ensures i.timer != id.timer
    {
    }
  }

  lemma CancelOwner(s: State, id: TimerId)
    requires SameIndex(s) && OneOwner(s) && id in s.active
    ensures OneOwner(CancelInLoop(s, id))
  {
    var r := CancelInLoop(s, id);
    assert InQueue(s, id.timer);
    assert forall b :: b in r.heap ==> r.heap[b] == s.heap[b] && InQueue(r, b) == InQueue(s, b);
    assert forall b :: InBatch(r, b) == InBatch(s, b);
    assert forall i :: 0 <= i < |s.batch| ==> InBatch(s, s.batch[i].timer);
  }

  lemma CancelSequence(s: State, id: TimerId)
    requires UniqueSequences(s) && id in s.active && id.timer in s.heap
    ensures UniqueSequences(CancelInLoop(s, id))
  {
    var r := CancelInLoop(s, id);
    DeleteSequence(s, id.timer);
    SameLive(Delete(s, id.timer), r);
  }

  // ---------------------------------------------------------------- taking the expired batch

  lemma BeginIndex(s: State, now: int)
    requires SameIndex(s)
    ensures SameIndex(BeginExpiry(s, now))
  {
    var r := BeginExpiry(s, now);
    var due := Due(s.timers, now);
    var gone := IdsOf(s.heap, due);
    forall id | id in r.active
      ensures Entry(s.heap[id.timer].expiration, id.timer) in r.timers
    {
      var e := Entry(s.heap[id.timer].expiration, id.timer);
      assert e in due ==> id in gone;
    }
  }

  lemma BatchIsDue(s: State, now: int, i: nat)
    requires SameIndex(s) && i < |BeginExpiry(s, now).batch|
    ensures var e := BeginExpiry(s, now).batch[i];
            e in s.timers && e.when <= now && e.timer in s.heap && e.when == s.heap[e.timer].expiration
  {
    assert BeginExpiry(s, now).batch[i] in Due(s.timers, now);
  }

  lemma BeginLiveBatch(s: State, now: int)
    requires SameIndex(s)
    ensures LiveBatch(BeginExpiry(s, now))
  {
    var r := BeginExpiry(s, now);
    forall i | 0 <= i < |r.batch|
      ensures r.batch[i].timer in r.heap
    {
      BatchIsDue(s, now, i);
    }
    forall i, j | 0 <= i < j < |r.batch|
      ensures r.batch[i].timer != r.batch[j].timer
    {
      BatchIsDue(s, now, i);
      BatchIsDue(s, now, j);
      assert Before(r.batch[i], r.batch[j]);
    }
  }

  lemma BeginMoves(s: State, now: int, a: Addr)
    requires SameIndex(s) && a in s.heap
    ensures var r := BeginExpiry(s, now);
            && (InQueue(s, a) <==> InQueue(r, a) || InBatch(r, a))
            && !(InQueue(r, a) && InBatch(r, a))
  {
    var r := BeginExpiry(s, now);
    var e := Entry(s.heap[a].expiration, a);
    if e in Due(s.timers, now) {
      assert e in r.batch;
      var i :| 0 <= i < |r.batch| && r.batch[i] == e;
      assert InBatch(r, a);
    }
    if InBatch(r, a) {
      var i :| 0 <= i < |r.batch| && r.batch[i].timer == a;
      BatchIsDue(s, now, i);
    }
  }

  lemma BeginOwner(s: State, now: int)
    requires SameIndex(s) && OneOwner(s) && s.batch == []
    ensures OneOwner(BeginExpiry(s, now))
  {
    hide InQueue, Due, Ordered;
    var r := BeginExpiry(s, now);
    BeginFrame(s, now);
    BeginLiveBatch(s, now);
    forall a | a in s.heap
      ensures InQueue(s, a) <==> InQueue(r, a) || InBatch(r, a)
      ensures !(InQueue(r, a) && InBatch(r, a))
    {
      BeginMoves(s, now, a);
    }
  }

  lemma BeginFrame(s: State, now: int)
    requires SameIndex(s)
    ensures var r := BeginExpiry(s, now);
            r == s.(timers := r.timers, active := r.active, batch := r.batch, ran := 0, now := now,
                    calling := true, canceling := {}, alarm := None)
  {
  }

  // ---------------------------------------------------------------- putting the batch back

  lemma ResetOneBatch(s: State, b: Addr)
    requires LiveBatch(s) && s.batch != []
    ensures InBatch(ResetOne(s), b) <==> InBatch(s, b) && b != s.batch[0].timer
  {
    var r := ResetOne(s);
    assert r.batch == s.batch[1..];
    if InBatch(s, b) && b != s.batch[0].timer {
      var i :| 0 <= i < |s.batch| && s.batch[i].timer == b;
      assert r.batch[i - 1].timer == b;
    }
    if InBatch(r, b) {
      var i :| 0 <= i < |r.batch| && r.batch[i].timer == b;
      assert s.batch[i + 1].timer == b;
    }
  }

  predicate Survives(s: State, a: Addr)
    requires a in s.heap
  {
    s.heap[a].Repeats() && TimerId(a, s.heap[a].sequence) !in s.canceling
  }

  lemma ResetOneIndex(s: State)
    requires SameIndex(s) && OneOwner(s) && s.batch != []
    ensures SameIndex(ResetOne(s))
  {
    var a := s.batch[0].timer;
    var r := ResetOne(s);
    assert InBatch(s, a);
    forall e | e in s.timers
      ensures e.timer != a
    {
      assert InQueue(s, e.timer);
    }
    assert forall id :: id in s.active ==> id.timer != a;
  }

  lemma ResetOneOwner(s: State)
    requires SameIndex(s) && OneOwner(s) && s.batch != []
    ensures OneOwner(ResetOne(s))
  {
    var a := s.batch[0].timer;
    var r := ResetOne(s);
    assert InBatch(s, a);
    forall b
      ensures InBatch(r, b) <==> InBatch(s, b) && b != a
    {
      ResetOneBatch(s, b);
    }
    assert forall b :: b in r.heap && b != a ==> r.heap[b] == s.heap[b] && InQueue(r, b) == InQueue(s, b);
    assert a in r.heap ==> InQueue(r, a);
    assert LiveBatch(r);
  }

  lemma ResetOneSequence(s: State)
    requires UniqueSequences(s) && s.batch != [] && s.batch[0].timer in s.heap
    ensures UniqueSequences(ResetOne(s))
  {
    var a := s.batch[0].timer;
    var r := ResetOne(s);
    if Survives(s, a) {
      var m := s.(heap := s.heap[a := s.heap[a].(expiration := r.heap[a].expiration)]);
      RestartSequence(s, a, r.heap[a].expiration);
      SameLive(m, r);
    } else {
      DeleteSequence(s, a);
      SameLive(Delete(s, a), r);
    }
  }

  /** One round of reset: the first timer of the batch goes back to the queue or is deleted. */
  lemma ResetOneKeeps(s: State)
    requires Ownership(s) && s.batch != []
    ensures Ownership(ResetOne(s))
  {
    hide SameIndex, UniqueSequences;
    ResetOneIndex(s);
    ResetOneOwner(s);
    ResetOneSequence(s);
  }

  lemma {:induction false} ResetBatchKeeps(s: State)
    requires Ownership(s)
    ensures Ownership(ResetBatch(s))
    ensures var r := ResetBatch(s);
            r == s.(heap := r.heap, timers := r.timers, active := r.active, freed := r.freed, batch := [])
    decreases |s.batch|
  {
    if s.batch != [] {
      ResetOneKeeps(s);
      ResetBatchKeeps(ResetOne(s));
    }
  }

  lemma EndKeeps(s: State, clock: int)
    requires Inv(s)
    ensures Inv(EndExpiry(s, clock))
  {
    var c := s.(calling := false);
    OwnershipFrame(s, c);
    ResetBatchKeeps(c);
    OwnershipFrame(ResetBatch(c), EndExpiry(s, clock));
  }

  // ---------------------------------------------------------------- every step

  /** Ownership does not depend on the alarm, the flags, the call log or what has been cancelled. */
  lemma OwnershipFrame(s: State, r: State)
    requires Ownership(s)
    requires r == s.(calling := r.calling, alarm := r.alarm, ran := r.ran, fired := r.fired,
                     canceling := r.canceling, cancelled := r.cancelled)
    ensures Ownership(r)
  {
    SameLive(s, r);
    assert forall b :: InBatch(r, b) == InBatch(s, b);
    assert forall b :: InQueue(r, b) == InQueue(s, b);
  }

  lemma CancelKeeps(s: State, id: TimerId)
    requires Ownership(s)
    ensures Ownership(CancelInLoop(s, id))
  {
    if id in s.active {
      CancelIndex(s, id);
      CancelOwner(s, id);
      CancelSequence(s, id);
    } else {
      OwnershipFrame(s, CancelInLoop(s, id));
    }
  }

  /** Every step keeps the invariant. */
  lemma StepKeepsInv(s: State, op: Op)
    requires Inv(s) && Enabled(s, op)
    ensures Inv(Step(s, op))
  {
    hide UniqueSequences;
    match op
    case OpCreate(a, when, interval) =>
      CreateSequence(s, a, when, interval);
      CreateOwner(s, a, when, interval);
      CreateIndex(s, a, when, interval);
    case OpAdd(a, clock) =>
      AddOwner(s, a, clock);
      InFlightIsLive(s, a);
      AddIndex(s, a, clock);
      SameLive(s, AddTimerInLoop(s, a, clock));
    case OpCancel(id) =>
      CancelKeeps(s, id);
    case OpBegin(now) =>
      BeginOwner(s, now);
      BeginIndex(s, now);
      SameLive(s, BeginExpiry(s, now));
    case OpFire =>
      OwnershipFrame(s, Fire(s));
    case OpEnd(clock) =>
      EndKeeps(s, clock);
  }

  lemma CreateIndex(s: State, a: Addr, when: int, interval: real)
    requires SameIndex(s) && a !in s.heap
    ensures SameIndex(Create(s, a, when, interval))
  {
  }

  lemma InFlightIsLive(s: State, a: Addr)
    requires OneOwner(s) && a in s.inFlight
    ensures a in s.heap
  {
  }
}
