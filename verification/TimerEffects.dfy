/** What each step of the timer queue brings about: when timers are called back and due again, and the timerfd set. */
module TimerEffects {
  import opened CMath
  import opened Options
  import opened TimerSpec
  import opened TimerOwnership
  import opened TimerRuns

  // ---------------------------------------------------------------- restarting

  /** The timer at a is in the queue, due one interval after now. */
  ghost predicate BackInQueue(r: State, a: Addr, t: Timer, now: int) {
    InQueue(r, a) && OneIntervalLater(r.heap[a].expiration, now, t.interval)
    && r.heap[a].interval == t.interval && r.heap[a].sequence == t.sequence
  }

  /** The first timer of the batch, if it repeats and is not being cancelled, is due again one interval later. */
  lemma RestartsOneIntervalLater(s: State)
    requires Ownership(s) && s.batch != [] && s.now > 0
    ensures var a := s.batch[0].timer;
            && a in s.heap
            && if Survives(s, a) then BackInQueue(ResetOne(s), a, s.heap[a], s.now) else a !in ResetOne(s).heap
  {
    hide SameIndex, UniqueSequences;
    var a := s.batch[0].timer;
    if Survives(s, a) {
      RestartIsLater(s.heap[a], s.now);
    }
    hide Restart;
  }

  /** A round of reset leaves every other timer alone. */
  lemma ResetOneLeaves(s: State, a: Addr)
    requires Ownership(s) && s.batch != [] && a in s.heap && a != s.batch[0].timer
    ensures var r := ResetOne(s);
            a in r.heap && r.heap[a] == s.heap[a] && r.canceling == s.canceling && r.now == s.now
            && (InQueue(s, a) ==> InQueue(r, a))
  {
    hide SameIndex, UniqueSequences, OneOwner;
  }

  lemma {:induction false} ResetBatchLeaves(s: State, a: Addr)
    requires Ownership(s) && a in s.heap && !InBatch(s, a) && InQueue(s, a)
    ensures var r := ResetBatch(s);
            a in r.heap && r.heap[a] == s.heap[a] && InQueue(r, a)
    decreases |s.batch|
  {
    if s.batch != [] {
      assert a != s.batch[0].timer;
      ResetOneKeeps(s);
      ResetOneLeaves(s, a);
      ResetOneBatch(s, a);
      hide ResetOne, Ownership, InQueue, InBatch;
      ResetBatchLeaves(ResetOne(s), a);
    }
  }

  /** After reset, every timer of the batch is due again one interval after the batch, or is gone. */
  lemma {:induction false} BatchRestarts(s: State, i: nat)
    requires Ownership(s) && s.now > 0 && i < |s.batch| && s.batch[i].timer in s.heap
    ensures var a := s.batch[i].timer;
            if Survives(s, a) then BackInQueue(ResetBatch(s), a, s.heap[a], s.now)
            else Live(s, s.heap[a].sequence) && !Live(ResetBatch(s), s.heap[a].sequence)
    decreases |s.batch|
  {
    hide Ownership, Survives, BackInQueue, Live, ResetOne, ResetBatch, InQueue;
    if i == 0 {
      FirstRestarts(s);
    } else {
      LaterIsLeft(s, i);
      LiveBefore(s, s.batch[i].timer);
      BatchRestarts(ResetOne(s), i - 1);
    }
  }

  /** What a round of reset on the first timer leaves of a later one. */
  lemma LaterIsLeft(s: State, i: nat)
    requires Ownership(s) && 0 < i < |s.batch|
    ensures s.batch[0].timer in s.heap
    ensures var a, r := s.batch[i].timer, ResetOne(s);
            && Ownership(r) && r.batch == s.batch[1..] && r.now == s.now && ResetBatch(s) == ResetBatch(r)
            && a in s.heap && a in r.heap && r.heap[a] == s.heap[a] && Survives(r, a) == Survives(s, a)
  {
    var a := s.batch[i].timer;
    FirstIsOther(s, i);
    ResetOneKeeps(s);
    ResetOneLeaves(s, a);
    ResetBatchStep(s);
    SameSurvival(s, ResetOne(s), a);
    hide Ownership, Survives, ResetOne, ResetBatch, InQueue;
  }

  lemma ResetBatchStep(s: State)
    requires Ownership(s) && s.batch != [] && Ownership(ResetOne(s))
    ensures ResetBatch(s) == ResetBatch(ResetOne(s))
  {
    hide ResetOne;
  }

  lemma FirstRestarts(s: State)
    requires Ownership(s) && s.now > 0 && s.batch != [] && s.batch[0].timer in s.heap
    ensures var a := s.batch[0].timer;
            if Survives(s, a) then BackInQueue(ResetBatch(s), a, s.heap[a], s.now)
            else Live(s, s.heap[a].sequence) && !Live(ResetBatch(s), s.heap[a].sequence)
  {
    var a := s.batch[0].timer;
    var r := ResetOne(s);
    RestartsOneIntervalLater(s);
    ResetOneKeeps(s);
    if Survives(s, a) {
      FirstLeaves(s);
      hide Ownership, ResetOne, InBatch, OneIntervalLater;
      ResetBatchLeaves(r, a);
    } else {
      FirstGoes(s);
      hide Ownership, ResetOne, Live;
      GoneAfterReset(r, s.heap[a].sequence);
    }
  }

  lemma FirstLeaves(s: State)
    requires Ownership(s) && s.batch != [] && s.batch[0].timer in ResetOne(s).heap
    ensures !InBatch(ResetOne(s), s.batch[0].timer)
  {
    ResetOneBatch(s, s.batch[0].timer);
  }

  lemma FirstIsOther(s: State, i: nat)
    requires Ownership(s) && 0 < i < |s.batch|
    ensures s.batch[i].timer in s.heap && s.batch[i].timer != s.batch[0].timer && ResetOne(s).batch == s.batch[1..]
  {
  }

  lemma LiveBefore(s: State, a: Addr)
    requires a in s.heap
    ensures Live(s, s.heap[a].sequence)
  {
  }

  lemma SameSurvival(s: State, r: State, a: Addr)
    requires a in s.heap && a in r.heap && r.heap[a] == s.heap[a] && r.canceling == s.canceling
    ensures Survives(r, a) == Survives(s, a)
  {
  }

  lemma FirstGoes(s: State)
    requires Ownership(s) && s.batch != [] && s.batch[0].timer in s.heap && !Survives(s, s.batch[0].timer)
    ensures var q := s.heap[s.batch[0].timer].sequence;
            Live(s, q) && !Live(ResetOne(s), q) && 1 <= q <= ResetOne(s).created
  {
    var a := s.batch[0].timer;
    hide SameIndex, OneOwner;
    assert Live(s, s.heap[a].sequence);
    assert forall b :: b in ResetOne(s).heap ==> b != a && s.heap[b].sequence != s.heap[a].sequence;
  }

  lemma {:induction false} GoneAfterReset(s: State, q: int)
    requires Ownership(s) && 1 <= q <= s.created && !Live(s, q)
    ensures !Live(ResetBatch(s), q)
    decreases |s.batch|
  {
    if s.batch != [] {
      ResetOneKeeps(s);
      GoneInRound(s, q);
      hide Ownership, Live, ResetOne;
      GoneAfterReset(ResetOne(s), q);
    }
  }

  lemma GoneInRound(s: State, q: int)
    requires Ownership(s) && s.batch != [] && 1 <= q <= s.created && !Live(s, q)
    ensures !Live(ResetOne(s), q) && ResetOne(s).created == s.created
  {
    hide SameIndex, UniqueSequences;
    assert s.batch[0].timer in s.heap;
    assert forall b :: b in ResetOne(s).heap ==> b in s.heap && ResetOne(s).heap[b].sequence == s.heap[b].sequence;
  }

  lemma EndIsReset(s: State, clock: int, a: Addr, t: Timer)
    requires LiveBatch(s) && LiveBatch(s.(calling := false))
    ensures var m, r := ResetBatch(s.(calling := false)), EndExpiry(s, clock);
            && (BackInQueue(m, a, t, s.now) ==> BackInQueue(r, a, t, s.now))
            && (forall q :: Live(r, q) ==> Live(m, q))
  {
    hide ResetBatch, OneIntervalLater;
    var m, r := ResetBatch(s.(calling := false)), EndExpiry(s, clock);
    assert r.heap == m.heap && r.timers == m.timers;
  }

  /** The same for all of handleRead: a repeating timer that nobody cancels is due one interval after the batch. */
  lemma EndRestarts(s: State, clock: int, i: nat)
    requires Inv(s) && s.calling && s.ran == |s.batch| && i < |s.batch|
    ensures var a := s.batch[i].timer;
            && LiveBatch(s) && a in s.heap
            && if Survives(s, a) then BackInQueue(EndExpiry(s, clock), a, s.heap[a], s.now)
                           else !Live(EndExpiry(s, clock), s.heap[a].sequence)
  {
    var c := s.(calling := false);
    OwnershipFrame(s, c);
    BatchRestarts(c, i);
    EndIsReset(s, clock, s.batch[i].timer, s.heap[s.batch[i].timer]);
    hide Inv, Ownership, ResetBatch, EndExpiry, BackInQueue, Live;
  }

  // ---------------------------------------------------------------- expiring

  /** The batch is every timer due by now, and the queue keeps every other. */
  lemma BeginTakesDue(s: State, now: int)
    requires Inv(s) && Enabled(s, OpBegin(now))
    ensures var r := Step(s, OpBegin(now));
            && (forall e :: e in r.batch <==> e in s.timers && e.when <= now)
            && (forall e :: e in r.timers <==> e in s.timers && now < e.when)
            && (forall i, j :: 0 <= i < j < |r.batch| ==> r.batch[i].when <= r.batch[j].when)
            && r.now == now && r.calling && r.ran == 0 && r.heap == s.heap && r.fired == s.fired && r.alarm == None
  {
    hide SameIndex, OneOwner, UniqueSequences;
    var r := Step(s, OpBegin(now));
    assert forall i, j :: 0 <= i < j < |r.batch| ==> Before(r.batch[i], r.batch[j]);
  }

  /** What is in the batch is due, under the expiration that the timer still has. */
  ghost predicate BatchIsDueNow(s: State) {
    forall i :: 0 <= i < |s.batch| ==>
      s.batch[i].timer in s.heap && s.heap[s.batch[i].timer].expiration == s.batch[i].when <= s.now
  }

  lemma BeginIsDue(s: State, now: int)
    requires Inv(s) && Enabled(s, OpBegin(now))
    ensures BatchIsDueNow(Step(s, OpBegin(now)))
  {
    var r := Step(s, OpBegin(now));
    forall i | 0 <= i < |r.batch|
      ensures r.batch[i].timer in r.heap && r.heap[r.batch[i].timer].expiration == r.batch[i].when <= r.now
    {
      BatchIsDue(s, now, i);
    }
  }

  lemma CancelKeepsBatch(s: State, id: TimerId)
    requires Inv(s)
    ensures forall i :: 0 <= i < |s.batch| ==>
              s.batch[i].timer in CancelInLoop(s, id).heap
              && CancelInLoop(s, id).heap[s.batch[i].timer] == s.heap[s.batch[i].timer]
  {
    hide UniqueSequences;
    forall i | 0 <= i < |s.batch|
      ensures s.batch[i].timer in CancelInLoop(s, id).heap
      ensures CancelInLoop(s, id).heap[s.batch[i].timer] == s.heap[s.batch[i].timer]
    {
      assert InBatch(s, s.batch[i].timer);
      assert id in s.active ==> InQueue(s, id.timer);
    }
  }

  lemma StepKeepsDue(s: State, op: Op)
    requires Inv(s) && BatchIsDueNow(s) && Enabled(s, op)
    ensures BatchIsDueNow(Step(s, op))
  {
    match op
    case OpBegin(now) => BeginIsDue(s, now);
    case OpEnd(clock) =>
      StepKeepsInv(s, op);
      NoBatchLeft(s, clock);
    case _ =>
      KeepsBatch(s, op);
      hide Inv, Step;
  }

  lemma NoBatchLeft(s: State, clock: int)
    requires Inv(s) && Enabled(s, OpEnd(clock))
    ensures Step(s, OpEnd(clock)).batch == []
  {
    var c := s.(calling := false);
    OwnershipFrame(s, c);
    ResetBatchKeeps(c);
    hide Ownership;
  }

  lemma KeepsBatch(s: State, op: Op)
    requires Inv(s) && Enabled(s, op) && !op.OpBegin? && !op.OpEnd?
    ensures var r := Step(s, op);
            && r.batch == s.batch && r.now == s.now
            && forall i :: 0 <= i < |s.batch| ==>
                 && s.batch[i].timer in s.heap && s.batch[i].timer in r.heap
                 && r.heap[s.batch[i].timer] == s.heap[s.batch[i].timer]
  {
    assert LiveBatch(s);
    if op.OpCancel? {
      CancelKeepsBatch(s, op.id);
    }
    hide SameIndex, UniqueSequences, OneOwner;
  }

  lemma {:induction false} RunKeepsDue(s: State, ops: seq<Op>)
    requires Inv(s) && BatchIsDueNow(s) && Legal(s, ops)
    ensures BatchIsDueNow(Run(s, ops))
    decreases |ops|
  {
    if ops != [] {
      StepKeepsInv(s, ops[0]);
      StepKeepsDue(s, ops[0]);
      hide Inv, BatchIsDueNow, Step, Enabled;
      RunKeepsDue(Step(s, ops[0]), ops[1..]);
    }
  }

  /** Over every run, no timer is called back before its expiration. */
  lemma NeverEarly(ops: seq<Op>)
    requires Inv(INITIAL) && Legal(INITIAL, ops) && Enabled(Run(INITIAL, ops), OpFire)
    ensures var r := Run(INITIAL, ops);
            var a := r.batch[r.ran].timer;
            && a in r.heap && r.heap[a].expiration <= r.now
            && Step(r, OpFire).fired == r.fired + [r.heap[a].sequence]
  {
    RunKeepsDue(INITIAL, ops);
    hide Ownership;
  }

  /** A timer starts with the expiration and interval that were asked for. */
  lemma CreatedAsAsked(s: State, a: Addr, when: int, interval: real)
    requires Inv(s) && Enabled(s, OpCreate(a, when, interval))
    ensures var r := Step(s, OpCreate(a, when, interval));
            && a in r.heap && r.heap[a].expiration == when && r.heap[a].interval == interval
            && forall b :: b in s.heap ==> b in r.heap && r.heap[b] == s.heap[b]
  {
    hide Ownership;
  }

  /** And keeps them until the end of a batch that it is in. */
  lemma ExpirationStays(s: State, op: Op, a: Addr)
    requires Inv(s) && Enabled(s, op) && a in s.heap && !op.OpEnd? && a in Step(s, op).heap
    requires Step(s, op).heap[a].sequence == s.heap[a].sequence
    ensures Step(s, op).heap[a] == s.heap[a]
  {
    hide Ownership;
    match op
    case OpCreate(b, when, interval) =>
    case _ =>
  }

  // ---------------------------------------------------------------- calling back

  /** The sequence numbers of some entries. */
  ghost function Sequences(heap: map<Addr, Timer>, entries: seq<Entry>): seq<int>
    requires forall i :: 0 <= i < |entries| ==> entries[i].timer in heap
  {
    seq(|entries|, i requires 0 <= i < |entries| => heap[entries[i].timer].sequence)
  }

  /** What callbacks and other threads do between two callbacks leaves the batch as it is. */
  lemma CallKeepsBatch(s: State, op: Op)
    requires Inv(s) && s.calling && Enabled(s, op) && !op.OpEnd? && !op.OpBegin?
    ensures var r := Step(s, op);
            && r.batch == s.batch && r.calling
            && (forall i :: 0 <= i < |s.batch| ==>
                  s.batch[i].timer in s.heap && s.batch[i].timer in r.heap
                  && r.heap[s.batch[i].timer].sequence == s.heap[s.batch[i].timer].sequence)
            && (if op == OpFire then r.ran == s.ran + 1 && r.fired == s.fired + [s.heap[s.batch[s.ran].timer].sequence]
                else r.ran == s.ran && r.fired == s.fired)
  {
    KeepsBatch(s, op);
    hide Ownership;
  }

  /** While a batch is being called back, its timers are called once each, in order, whatever the callbacks do. */
  lemma {:induction false} CalledInOrder(s: State, ops: seq<Op>)
    requires Inv(s) && s.calling && Legal(s, ops)
    requires forall i :: 0 <= i < |ops| ==> !ops[i].OpEnd? && !ops[i].OpBegin?
    ensures var r := Run(s, ops);
            && r.batch == s.batch && s.ran <= r.ran <= |s.batch| && LiveBatch(s)
            && r.fired == s.fired + Sequences(s.heap, s.batch[s.ran..r.ran])
    decreases |ops|
  {
    assert LiveBatch(s);
    if ops == [] {
      assert Sequences(s.heap, s.batch[s.ran..s.ran]) == [];
    } else {
      StepKeepsInv(s, ops[0]);
      CallKeepsBatch(s, ops[0]);
      assert forall i :: 0 <= i < |ops[1..]| ==> !ops[1..][i].OpEnd? && !ops[1..][i].OpBegin?;
      hide Inv, Step, Enabled, LiveBatch, Sequences;
      var t := Step(s, ops[0]);
      CalledInOrder(t, ops[1..]);
      var r := Run(t, ops[1..]);
      JoinCalls(s, t, ops[0] == OpFire, r.ran, r.fired);
    }
  }

  lemma JoinCalls(s: State, t: State, fire: bool, ran: nat, fired: seq<int>)
    requires LiveBatch(s) && LiveBatch(t) && t.batch == s.batch && t.ran <= ran <= |s.batch|
    requires forall i :: 0 <= i < |s.batch| ==> t.heap[s.batch[i].timer].sequence == s.heap[s.batch[i].timer].sequence
    requires fired == t.fired + Sequences(t.heap, t.batch[t.ran..ran])
    requires if fire then && s.ran < |s.batch| && t.ran == s.ran + 1
                          && t.fired == s.fired + [s.heap[s.batch[s.ran].timer].sequence]
             else t.ran == s.ran && t.fired == s.fired
    ensures fired == s.fired + Sequences(s.heap, s.batch[s.ran..ran])
  {
    SameSequences(s.heap, t.heap, s.batch[t.ran..ran]);
    if fire {
      SequencesNext(s.heap, s.batch, s.ran, ran);
    }
    hide Sequences;
  }

  lemma SameSequences(h: map<Addr, Timer>, k: map<Addr, Timer>, entries: seq<Entry>)
    requires forall i :: 0 <= i < |entries| ==> entries[i].timer in h && entries[i].timer in k
    requires forall i :: 0 <= i < |entries| ==> k[entries[i].timer].sequence == h[entries[i].timer].sequence
    ensures Sequences(k, entries) == Sequences(h, entries)
  {
  }

  lemma SequencesNext(heap: map<Addr, Timer>, batch: seq<Entry>, i: nat, j: nat)
    requires i < j <= |batch| && forall k :: 0 <= k < |batch| ==> batch[k].timer in heap
    ensures Sequences(heap, batch[i..j]) == [heap[batch[i].timer].sequence] + Sequences(heap, batch[i + 1..j])
  {
    assert batch[i..j] == [batch[i]] + batch[i + 1..j];
  }

  // ---------------------------------------------------------------- the timerfd

  /** Adding a timer sets the timerfd for it exactly if it is due before all others. */
  lemma AddArmsExactly(s: State, a: Addr, clock: int)
    requires Inv(s) && Enabled(s, OpAdd(a, clock))
    ensures a in s.heap && InQueue(Step(s, OpAdd(a, clock)), a)
    ensures var when, r := s.heap[a].expiration, Step(s, OpAdd(a, clock));
            r.alarm == if forall e :: e in s.timers ==> when < e.when
                       then Some(Alarm(clock, if when < clock + 100 then clock + 100 else when)) else s.alarm
  {
    ArmedInTime(s.heap[a].expiration, clock);
    hide Ownership, ResetTimerfd;
    if s.timers != {} {
      var first := Earliest(s.timers);
      assert forall e :: e in s.timers ==> first.when <= e.when;
    }
  }

  /** After a batch it is set for the earliest timer there is, if that has a valid expiration. */
  lemma EndArmsForEarliest(s: State, clock: int)
    requires Inv(s) && Enabled(s, OpEnd(clock))
    ensures var r := Step(s, OpEnd(clock));
            r.alarm == if r.timers == {} || Earliest(r.timers).when <= 0 then s.alarm
                       else var when := Earliest(r.timers).when;
                            Some(Alarm(clock, if when < clock + 100 then clock + 100 else when))
  {
    var r := Step(s, OpEnd(clock));
    OwnershipFrame(s, s.(calling := false));
    ResetKeepsAlarm(s.(calling := false));
    if r.timers != {} {
      ArmedInTime(Earliest(r.timers).when, clock);
    }
    hide Ownership, ResetTimerfd, ResetBatch;
  }

  lemma {:induction false} ResetKeepsAlarm(s: State)
    requires Ownership(s)
    ensures ResetBatch(s).alarm == s.alarm
    decreases |s.batch|
  {
    if s.batch != [] {
      ResetOneKeeps(s);
      assert ResetOne(s).alarm == s.alarm;
      hide Ownership, ResetOne;
      ResetKeepsAlarm(ResetOne(s));
    }
  }
}
