/**
 netLayer/timer: the timer queue as a state machine over the steps of the loop thread.

 Timers live at addresses that the allocator may hand out again once they are deleted, so the heap is a
 map from addresses to live timers, and looking an address up is only defined while the timer is live.
 A callback is the run of steps between two Fire steps.
 */
module TimerSpec {
  import opened CMath
  import opened Options

  type Addr = nat

  datatype Timer = Timer(expiration: int, interval: real, sequence: int) {
    predicate Repeats() {
      interval > 0.0
    }
  }

  /** An element of timers_, ordered by time and then by address. */
  datatype Entry = Entry(when: int, timer: Addr)

  /** An element of activeTimers_ and cancelingTimers_, and what a caller holds to cancel a timer. */
  datatype TimerId = TimerId(timer: Addr, sequence: int)

  /** A setting of the timerfd: when it was made and when it goes off. */
  datatype Alarm = Alarm(armedAt: int, due: int)

  datatype State = State(
    heap: map<Addr, Timer>,
    created: nat,
    inFlight: set<Addr>,         // created, but addTimerInLoop has not run yet
    timers: set<Entry>,
    active: set<TimerId>,
    calling: bool,
    canceling: set<TimerId>,
    alarm: Option<Alarm>,
    batch: seq<Entry>,           // the local variable expired of handleRead
    ran: nat,                    // how many of the batch have been called back
    now: int,                    // the local variable now of handleRead
    repeats: map<int, bool>,     // history: whether the timer with this sequence number repeats
    fired: seq<int>,             // history: sequence numbers called back
    freed: seq<int>,             // history: sequence numbers deleted
    cancelled: map<int, bool>)   // history: sequence numbers cancelled while live, and whether the queue had the timer

  const INITIAL := State(map[], 0, {}, {}, {}, false, {}, None, [], 0, 0, map[], [], [], map[])

  // ---------------------------------------------------------------- ordered sets

  predicate Before(a: Entry, b: Entry) {
    a.when < b.when || (a.when == b.when && a.timer < b.timer)
  }

  predicate IsEarliest(e: Entry, s: set<Entry>) {
    e in s && forall x :: x in s && x != e ==> Before(e, x)
  }

  lemma {:induction false} EarliestExists(s: set<Entry>)
    requires s != {}
    ensures exists e :: IsEarliest(e, s)
    decreases |s|
  {
    var a :| a in s;
    var rest := s - {a};
    assert forall x :: x in s && x != a ==> x in rest;
    if rest == {} {
      assert IsEarliest(a, s);
    } else {
      EarliestExists(rest);
      var e :| IsEarliest(e, rest);
      assert IsEarliest(if Before(a, e) then a else e, s);
    }
  }

  /** begin() of an ordered set. */
  function Earliest(s: set<Entry>): (e: Entry)
    requires s != {}
    ensures IsEarliest(e, s)
  {
    EarliestExists(s);
    var e :| IsEarliest(e, s);
    e
  }

  /** An ordered set in iteration order. */
  function Ordered(s: set<Entry>): (r: seq<Entry>)
    ensures forall e :: e in r <==> e in s
    ensures forall i, j :: 0 <= i < j < |r| ==> Before(r[i], r[j])
    decreases |s|
  {
    if s == {} then [] else [Earliest(s)] + Ordered(s - {Earliest(s)})
  }

  // ---------------------------------------------------------------- the timerfd

  datatype TimeSpec = TimeSpec(sec: int, nsec: int)

  /** Exact to the microsecond, and never sooner than 100 microseconds. */
  function HowMuchTimeFromNow(when: int, clock: int): (ts: TimeSpec)
    ensures 0 <= ts.nsec < 1000000000
    ensures ts.sec * 1000000000 + ts.nsec == 1000 * Max(when - clock, 100)
  {
    var microseconds := if when - clock < 100 then 100 else when - clock;
    TimeSpec(microseconds / 1000000, (microseconds % 1000000) * 1000)
  }

  function ResetTimerfd(when: int, clock: int): Alarm {
    var ts := HowMuchTimeFromNow(when, clock);
    Alarm(clock, clock + ts.sec * 1000000 + ts.nsec / 1000)
  }

  // ---------------------------------------------------------------- the steps

  /** addTime: seconds to microseconds, truncated. */
  function AddTime(now: int, seconds: real): int {
    var delta := seconds * 1000000.0 + now as real;
    if delta >= 0.0 then delta.Floor else -((-delta).Floor)
  }

  function Restart(t: Timer, now: int): Timer {
    t.(expiration := if t.Repeats() then AddTime(now, t.interval) else 0)
  }

  /** new Timer: the allocator returns any address that is not in use. */
  function Create(s: State, a: Addr, when: int, interval: real): State
    requires a !in s.heap
  {
    s.(heap := s.heap[a := Timer(when, interval, s.created + 1)],
       created := s.created + 1,
       inFlight := s.inFlight + {a},
       repeats := s.repeats[s.created + 1 := interval > 0.0])
  }

  /** TimerQueue::insert. */
  function Insert(s: State, a: Addr): State
    requires a in s.heap
  {
    s.(timers := s.timers + {Entry(s.heap[a].expiration, a)},
       active := s.active + {TimerId(a, s.heap[a].sequence)})
  }

  predicate EarliestChanges(s: State, when: int) {
    s.timers == {} || when < Earliest(s.timers).when
  }

  function AddTimerInLoop(s: State, a: Addr, clock: int): State
    requires a in s.heap
  {
    var when := s.heap[a].expiration;
    var r := Insert(s, a);
    r.(inFlight := s.inFlight - {a},
       alarm := if EarliestChanges(s, when) then Some(ResetTimerfd(when, clock)) else s.alarm)
  }

  /** delete: the address can be handed out again. */
  function Delete(s: State, a: Addr): State
    requires a in s.heap
  {
    s.(heap := s.heap - {a}, freed := s.freed + [s.heap[a].sequence])
  }

  /** The identifier of a live timer. */
  predicate Names(s: State, id: TimerId) {
    id.timer in s.heap && s.heap[id.timer].sequence == id.sequence
  }

  function CancelInLoop(s: State, id: TimerId): State
    requires id in s.active ==> id.timer in s.heap
  {
    var c := if Names(s, id) then s.(cancelled := s.cancelled[id.sequence := id.timer !in s.inFlight]) else s;
    if id in s.active then
      Delete(c.(timers := s.timers - {Entry(s.heap[id.timer].expiration, id.timer)},
                active := s.active - {id}), id.timer)
    else if s.calling then
      c.(canceling := s.canceling + {id})
    else
      c
  }

  /** The entries that getExpired moves out. */
  function Due(timers: set<Entry>, now: int): set<Entry> {
    set e | e in timers && e.when <= now
  }

  function IdsOf(heap: map<Addr, Timer>, entries: set<Entry>): set<TimerId>
    requires forall e :: e in entries ==> e.timer in heap
  {
    set e | e in entries :: TimerId(e.timer, heap[e.timer].sequence)
  }

  function BeginExpiry(s: State, now: int): State
    requires forall e :: e in s.timers ==> e.timer in s.heap
  {
    var due := Due(s.timers, now);
    s.(timers := s.timers - due,
       active := s.active - IdsOf(s.heap, due),
       batch := Ordered(due), ran := 0, now := now,
       calling := true, canceling := {},
       alarm := None)
  }

  function Fire(s: State): State
    requires s.ran < |s.batch| && s.batch[s.ran].timer in s.heap
  {
    s.(ran := s.ran + 1, fired := s.fired + [s.heap[s.batch[s.ran].timer].sequence])
  }

  /** One round of the loop of TimerQueue::reset, on the first timer of the batch. */
  function ResetOne(s: State): State
    requires s.batch != [] && s.batch[0].timer in s.heap
  {
    var a := s.batch[0].timer;
    var t := s.heap[a];
    if t.Repeats() && TimerId(a, t.sequence) !in s.canceling then
      Insert(s.(batch := s.batch[1..], heap := s.heap[a := Restart(t, s.now)]), a)
    else
      Delete(s.(batch := s.batch[1..]), a)
  }

  ghost predicate LiveBatch(s: State) {
    && (forall i :: 0 <= i < |s.batch| ==> s.batch[i].timer in s.heap)
    && (forall i, j :: 0 <= i < j < |s.batch| ==> s.batch[i].timer != s.batch[j].timer)
  }

  function ResetBatch(s: State): State
    requires LiveBatch(s)
    decreases |s.batch|
  {
    if s.batch == [] then s else ResetBatch(ResetOne(s))
  }

  function Rearm(s: State, clock: int): State {
    if s.timers != {} && Earliest(s.timers).when > 0
    then s.(alarm := Some(ResetTimerfd(Earliest(s.timers).when, clock)))
    else s
  }

  function EndExpiry(s: State, clock: int): State
    requires LiveBatch(s)
  {
    Rearm(ResetBatch(s.(calling := false)), clock).(ran := 0)
  }

  datatype Op =
    | OpCreate(a: Addr, when: int, interval: real)
    | OpAdd(a: Addr, clock: int)
    | OpCancel(id: TimerId)
    | OpBegin(now: int)
    | OpFire
    | OpEnd(clock: int)

  /** When the loop thread, its callbacks or a creating thread can take a step. */
  predicate Enabled(s: State, op: Op) {
    match op
    case OpCreate(a, _, _) => a !in s.heap
    case OpAdd(a, _) => a in s.inFlight
    case OpCancel(_) => true
    case OpBegin(now) => !s.calling && now > 0
    case OpFire => s.calling && s.ran < |s.batch|
    case OpEnd(_) => s.calling && s.ran == |s.batch|
  }

  // ---------------------------------------------------------------- ownership

  ghost predicate InQueue(s: State, a: Addr) {
    a in s.heap && Entry(s.heap[a].expiration, a) in s.timers
  }

  ghost predicate InBatch(s: State, a: Addr) {
    exists i :: 0 <= i < |s.batch| && s.batch[i].timer == a
  }

  /** timers_ and activeTimers_ index the same live timers, under their current expirations. */
  ghost predicate SameIndex(s: State) {
    && (forall e :: e in s.timers ==>
          && e.timer in s.heap && e.when == s.heap[e.timer].expiration
          && TimerId(e.timer, s.heap[e.timer].sequence) in s.active)
    && (forall id :: id in s.active ==>
          && id.timer in s.heap && id.sequence == s.heap[id.timer].sequence
          && Entry(s.heap[id.timer].expiration, id.timer) in s.timers)
  }

  /** Every live timer has exactly one owner: the queue, the expiring batch, or its pending insertion. */
  ghost predicate OneOwner(s: State) {
    && LiveBatch(s)
    && s.inFlight <= s.heap.Keys
    && forall a :: a in s.heap ==>
         && (InQueue(s, a) || InBatch(s, a) || a in s.inFlight)
         && !(InQueue(s, a) && InBatch(s, a))
         && !(InQueue(s, a) && a in s.inFlight)
         && !(InBatch(s, a) && a in s.inFlight)
  }

  ghost predicate Live(s: State, sequence: int) {
    exists a :: a in s.heap && s.heap[a].sequence == sequence
  }

  /** Sequence numbers identify timers for ever: each is live or freed, and is freed once. */
  ghost predicate UniqueSequences(s: State) {
    && (forall a :: a in s.heap ==> 1 <= s.heap[a].sequence <= s.created)
    && (forall a, b :: a in s.heap && b in s.heap && a != b ==> s.heap[a].sequence != s.heap[b].sequence)
    && (forall i :: 0 <= i < |s.freed| ==> 1 <= s.freed[i] <= s.created && !Live(s, s.freed[i]))
    && (forall i, j :: 0 <= i < j < |s.freed| ==> s.freed[i] != s.freed[j])
    && (forall q :: 1 <= q <= s.created ==> Live(s, q) || q in s.freed)
    && (forall q :: q in s.repeats <==> 1 <= q <= s.created)
    && (forall a :: a in s.heap ==> s.repeats[s.heap[a].sequence] == s.heap[a].Repeats())
  }

  ghost predicate Ownership(s: State) {
    SameIndex(s) && OneOwner(s) && UniqueSequences(s)
  }

  ghost predicate Quiet(s: State) {
    s.ran <= |s.batch| && (!s.calling ==> s.batch == [] && s.ran == 0) && (s.calling ==> s.now > 0)
  }

  ghost predicate Inv(s: State) {
    Ownership(s) && Quiet(s)
  }

  /** Taking a step never looks up an address whose timer is gone: Step is defined on every such state. */
  function Step(s: State, op: Op): State
    requires Inv(s) && Enabled(s, op)
  {
    match op
    case OpCreate(a, when, interval) => Create(s, a, when, interval)
    case OpAdd(a, clock) => AddTimerInLoop(s, a, clock)
    case OpCancel(id) => CancelInLoop(s, id)
    case OpBegin(now) => BeginExpiry(s, now)
    case OpFire => Fire(s)
    case OpEnd(clock) => EndExpiry(s, clock)
  }
}
