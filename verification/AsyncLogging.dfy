/**
 base/log/AyncLogging.cpp and base/log/LogStream.h: front-end threads append lines to a buffer, a backend thread
 swaps the filled buffers out and writes them, and buffers are recycled between the two.

 append and the locked section of threadFunc are atomic; the rest of threadFunc works on the backend's own variables.
 Buffers are owned by unique_ptr, so each is a value here: its contents.
 */
module AsyncLoggings {
  import opened NetworkOrder
  import opened Options

  // ---------------------------------------------------------------- FixedBuffer

  class FixedBuffer {
    const data: array<Byte>
    var cur: nat

    ghost predicate Valid()
      reads this
    {
      cur <= data.Length
    }

    function Contents(): Bytes
      requires Valid()
      reads this, data
    {
      data[..cur]
    }

    constructor (size: nat)
      ensures Valid() && Contents() == [] && data.Length == size && fresh(data)
    {
      data := new Byte[size](_ => 0);
      cur := 0;
    }

    function Avail(): nat
      requires Valid()
      reads this
    {
      data.Length - cur
    }

    /** Appends all of buf, or nothing if that would not leave a byte to spare. */
    method Append(buf: Bytes)
      requires Valid()
      modifies this`cur, data
      ensures Valid()
      ensures Contents() == Appended(data.Length, old(Contents()), buf)
    {
      if Avail() > |buf| {
        forall i | 0 <= i < |buf| {
          data[cur + i] := buf[i];
        }
        cur := cur + |buf|;
      }
    }

    method Reset()
      requires Valid()
      modifies this`cur
      ensures Valid() && Contents() == []
    {
      cur := 0;
    }
  }

  /** The contents of a buffer of the given size after FixedBuffer::append. */
  function Appended(size: nat, contents: Bytes, line: Bytes): Bytes {
    if size - |contents| > |line| then contents + line else contents
  }

  // ---------------------------------------------------------------- the protocol

  /** What the log file receives: the notice of a drop, or the contents of a buffer. */
  datatype Output = Notice(dropped: nat) | Data(bytes: Bytes)

  /** Where the backend is in its loop; it tests running_ at the top only. */
  datatype Place = Top | Waiting | Swapped | Written | Exited

  const MAX_BATCH := 25

  /** What the mutex guards. */
  datatype Front = Front(current: Bytes, next: Option<Bytes>, buffers: seq<Bytes>)

  /** The variables of threadFunc. */
  datatype Back = Back(place: Place, newBuffer1: Option<Bytes>, newBuffer2: Option<Bytes>, buffersToWrite: seq<Bytes>)

  datatype State = State(
    size: nat,                     // kLargeBuffer
    running: bool,
    front: Front,
    back: Back,
    file: seq<Output>,
    accepted: Bytes,               // history: the lines appended, except those as long as a buffer
    batches: seq<seq<Bytes>>)      // history: the batches swapped out

  function Initial(size: nat): State {
    State(size, true, Front([], Some([]), []), Back(Top, Some([]), Some([]), []), [], [], [])
  }

  datatype Op = Append(line: Bytes) | Test | Swap | Write | Recycle | Stop

  /** The swap comes after the wait, if there was one, whether or not running_ is still true. */
  predicate Enabled(s: State, op: Op) {
    match op
    case Append(_) => true
    case Test => s.back.place == Top
    case Swap => s.back.place == Waiting && s.back.newBuffer1.Some?
    case Write => s.back.place == Swapped
    case Recycle => s.back.place == Written
    case Stop => true
  }

  function AfterAppend(s: State, line: Bytes): State {
    var f := s.front;
    s.(accepted := if |line| < s.size then s.accepted + line else s.accepted,
       front := if s.size - |f.current| > |line| then f.(current := f.current + line)
                else
                  var spare := if f.next.Some? then f.next.value else [];
                  Front(Appended(s.size, spare, line), None, f.buffers + [f.current]))
  }

  function AfterSwap(s: State): State
    requires s.back.newBuffer1.Some?
  {
    var f, b := s.front, s.back;
    var batch := f.buffers + [f.current];
    s.(front := Front(b.newBuffer1.value, if f.next.None? then b.newBuffer2 else f.next, []),
       back := Back(Swapped, None, if f.next.None? then None else b.newBuffer2, batch),
       batches := s.batches + [batch])
  }

  function DataOf(buffers: seq<Bytes>): seq<Output> {
    seq(|buffers|, i requires 0 <= i < |buffers| => Data(buffers[i]))
  }

  function Kept(batch: seq<Bytes>): seq<Bytes> {
    if |batch| > MAX_BATCH then batch[..2] else batch
  }

  /** The output for a batch: all of it, or a notice and its first two buffers. */
  function OutputFor(batch: seq<Bytes>): seq<Output> {
    (if |batch| > MAX_BATCH then [Notice(|batch| - 2)] else []) + DataOf(Kept(batch))
  }

  function AfterWrite(s: State): State {
    s.(file := s.file + OutputFor(s.back.buffersToWrite),
       back := s.back.(buffersToWrite := Kept(s.back.buffersToWrite), place := Written))
  }

  /** Takes the last buffer written, emptied, if the spare is missing; the code asserts that there is one. */
  function Refill(spare: Option<Bytes>, used: seq<Bytes>): (Option<Bytes>, seq<Bytes>) {
    if spare.None? && used != [] then (Some([]), used[..|used| - 1]) else (spare, used)
  }

  /** Both spares can be refilled from the buffers of the batch. */
  predicate CanRecycle(s: State) {
    && (s.back.newBuffer1.None? ==> s.back.buffersToWrite != [])
    && (s.back.newBuffer2.None? ==> |s.back.buffersToWrite| >= if s.back.newBuffer1.None? then 2 else 1)
  }

  function AfterRecycle(s: State): State {
    var used := if |s.back.buffersToWrite| > 2 then s.back.buffersToWrite[..2] else s.back.buffersToWrite;
    var (b1, used1) := Refill(s.back.newBuffer1, used);
    var (b2, _) := Refill(s.back.newBuffer2, used1);
    s.(back := Back(Top, b1, b2, []))
  }

  function Step(s: State, op: Op): State
    requires Enabled(s, op)
  {
    match op
    case Append(line) => AfterAppend(s, line)
    case Test => s.(back := s.back.(place := if s.running then Waiting else Exited))
    case Swap => AfterSwap(s)
    case Write => AfterWrite(s)
    case Recycle => AfterRecycle(s)
    case Stop => s.(running := false)
  }

  // ---------------------------------------------------------------- the invariant

  /** The bytes of all batches, in order. */
  function Joined(batches: seq<seq<Bytes>>): Bytes {
    if batches == [] then [] else Joined(batches[..|batches| - 1]) + Concat(batches[|batches| - 1])
  }

  function OutputForAll(batches: seq<seq<Bytes>>): seq<Output> {
    if batches == [] then [] else OutputForAll(batches[..|batches| - 1]) + OutputFor(batches[|batches| - 1])
  }

  /** Every accepted byte has been swapped out, or is in buffers_ or currentBuffer_, in order. */
  predicate Conserved(s: State) {
    Joined(s.batches) + Concat(s.front.buffers) + s.front.current == s.accepted
  }

  /** The file holds the output for the batches written; the last one swapped out may still be to write. */
  predicate FileMatches(s: State) {
    if s.back.place == Swapped
    then s.batches != [] && s.back.buffersToWrite == s.batches[|s.batches| - 1]
         && s.file == OutputForAll(s.batches[..|s.batches| - 1])
    else s.file == OutputForAll(s.batches)
  }

  /** The spares that the code asserts it has, and why it can refill them. */
  predicate SparesMatch(s: State) {
    && (s.front.next.None? ==> s.front.buffers != [])
    && (s.front.next.Some? ==> s.front.next.value == [])
    && (s.back.place in {Top, Waiting, Exited} ==>
          s.back.newBuffer1 == Some([]) && s.back.newBuffer2 == Some([]) && s.back.buffersToWrite == [])
    && (s.back.place in {Swapped, Written} ==>
          s.back.newBuffer1 == None && s.back.newBuffer2 in {None, Some([])} && CanRecycle(s))
  }

  predicate Inv(s: State) {
    Conserved(s) && FileMatches(s) && SparesMatch(s)
  }

  lemma AppendConserves(s: State, line: Bytes)
    requires Conserved(s) && SparesMatch(s)
    ensures Conserved(AfterAppend(s, line))
  {
    var r, f := AfterAppend(s, line), s.front;
    var done := Joined(s.batches);
    ConcatGrows(f.buffers, f.current);
    hide Joined, Concat;
    if s.size - |f.current| > |line| {
      assert done + Concat(f.buffers) + (f.current + line) == (done + Concat(f.buffers) + f.current) + line;
    } else {
      assert done + (Concat(f.buffers) + f.current) == done + Concat(f.buffers) + f.current;
      assert r.front.current == if |line| < s.size then line else [];
    }
  }

  lemma AppendKeeps(s: State, line: Bytes)
    requires Inv(s)
    ensures Inv(AfterAppend(s, line))
  {
    AppendConserves(s, line);
    hide Conserved;
  }

  lemma SwapConserves(s: State)
    requires Conserved(s) && s.back.newBuffer1 == Some([])
    ensures Conserved(AfterSwap(s))
  {
    var f := s.front;
    var batch := f.buffers + [f.current];
    ConcatGrows(f.buffers, f.current);
    assert Concat([]) == [];
    JoinedGrows(s.batches, batch);
    hide Joined, Concat;
    var done := Joined(s.batches);
    assert done + (Concat(f.buffers) + f.current) == done + Concat(f.buffers) + f.current;
    assert s.accepted + [] + [] == s.accepted;
  }

  lemma JoinedGrows(batches: seq<seq<Bytes>>, batch: seq<Bytes>)
    ensures Joined(batches + [batch]) == Joined(batches) + Concat(batch)
  {
    assert (batches + [batch])[..|batches|] == batches;
  }

  lemma SwapKeeps(s: State)
    requires Inv(s) && Enabled(s, Swap)
    ensures Inv(AfterSwap(s))
  {
    SwapConserves(s);
    SwapFile(s);
    SwapSpares(s);
    hide Conserved, FileMatches, SparesMatch;
  }

  lemma SwapFile(s: State)
    requires FileMatches(s) && s.back.place == Waiting && s.back.newBuffer1.Some?
    ensures FileMatches(AfterSwap(s))
  {
    hide OutputForAll;
    assert AfterSwap(s).batches[..|s.batches|] == s.batches;
  }

  lemma SwapSpares(s: State)
    requires SparesMatch(s) && s.back.place == Waiting && s.back.newBuffer1.Some?
    ensures SparesMatch(AfterSwap(s))
  {
  }

  /** Every step keeps the invariant; in particular the spares can always be refilled. */
  lemma StepKeepsInv(s: State, op: Op)
    requires Inv(s) && Enabled(s, op)
    ensures op.Recycle? ==> CanRecycle(s)
    ensures Inv(Step(s, op))
  {
    match op
    case Append(line) => AppendKeeps(s, line);
    case Swap => SwapKeeps(s);
    case Write =>
    case Recycle =>
    case Stop =>
    case Test =>
  }

  // ---------------------------------------------------------------- runs

  predicate Legal(s: State, ops: seq<Op>)
    decreases |ops|
  {
    ops == [] || (Enabled(s, ops[0]) && Legal(Step(s, ops[0]), ops[1..]))
  }

  function Run(s: State, ops: seq<Op>): State
    requires Legal(s, ops)
    decreases |ops|
  {
    if ops == [] then s else Run(Step(s, ops[0]), ops[1..])
  }

  lemma {:induction false} RunKeepsInv(s: State, ops: seq<Op>)
    requires Inv(s) && Legal(s, ops)
    ensures Inv(Run(s, ops))
    decreases |ops|
  {
    if ops != [] {
      StepKeepsInv(s, ops[0]);
      RunKeepsInv(Step(s, ops[0]), ops[1..]);
    }
  }

  lemma InitialInv(size: nat)
    ensures Inv(Initial(size))
  {
  }

  /** The lines that fit into a buffer of the given size, in the order they are appended. */
  function LinesOf(size: nat, ops: seq<Op>): Bytes {
    if ops == [] then []
    else (if ops[0].Append? && |ops[0].line| < size then ops[0].line else []) + LinesOf(size, ops[1..])
  }

  lemma AcceptedByStep(s: State, op: Op)
    requires Enabled(s, op)
    ensures Step(s, op).accepted == s.accepted + (if op.Append? && |op.line| < s.size then op.line else [])
    ensures Step(s, op).size == s.size
  {
  }

  lemma {:induction false} AcceptedAre(s: State, ops: seq<Op>)
    requires Legal(s, ops)
    ensures Run(s, ops).accepted == s.accepted + LinesOf(s.size, ops) && Run(s, ops).size == s.size
    decreases |ops|
  {
    if ops != [] {
      var line := if ops[0].Append? && |ops[0].line| < s.size then ops[0].line else [];
      AcceptedByStep(s, ops[0]);
      hide Step, Enabled;
      AcceptedAre(Step(s, ops[0]), ops[1..]);
      assert s.accepted + (line + LinesOf(s.size, ops[1..])) == s.accepted + line + LinesOf(s.size, ops[1..]);
    }
  }

  /** A batch of more than 25 buffers is written as a notice of how many are dropped and its first two. */
  lemma DropsExactly(batch: seq<Bytes>)
    ensures |batch| > 25 ==> OutputFor(batch) == [Notice(|batch| - 2), Data(batch[0]), Data(batch[1])]
    ensures |batch| <= 25 ==>
              |OutputFor(batch)| == |batch| && forall i :: 0 <= i < |batch| ==> OutputFor(batch)[i] == Data(batch[i])
  {
  }

  /** What the file should hold for the batches. */
  function Expected(batches: seq<seq<Bytes>>): seq<Output> {
    if batches == [] then []
    else
      var last := batches[|batches| - 1];
      Expected(batches[..|batches| - 1])
      + if |last| > 25 then [Notice(|last| - 2), Data(last[0]), Data(last[1])]
        else seq(|last|, i requires 0 <= i < |last| => Data(last[i]))
  }

  lemma {:induction false} ExpectedIs(batches: seq<seq<Bytes>>)
    ensures OutputForAll(batches) == Expected(batches)
  {
    if batches != [] {
      ExpectedIs(batches[..|batches| - 1]);
      DropsExactly(batches[|batches| - 1]);
    }
  }

  /**
   In every interleaving: every byte of every line that fits is in a batch, in buffers_ or in currentBuffer_, in order,
   and the file holds every batch, or a notice and the first two buffers of one of more than 25.
   */
  lemma LinesAreConserved(size: nat, ops: seq<Op>)
    requires Legal(Initial(size), ops)
    ensures var r := Run(Initial(size), ops);
            && Joined(r.batches) + Concat(r.front.buffers) + r.front.current == LinesOf(size, ops)
            && (r.back.place != Swapped ==> r.file == Expected(r.batches))
            && (r.back.place == Swapped ==>
                  r.batches != [] && r.back.buffersToWrite == r.batches[|r.batches| - 1]
                  && r.file == Expected(r.batches[..|r.batches| - 1]))
  {
    InitialInv(size);
    RunKeepsInv(Initial(size), ops);
    AcceptedAre(Initial(size), ops);
    var r := Run(Initial(size), ops);
    hide Legal, Run, Expected, OutputForAll, SparesMatch;
    ExpectedIs(r.batches);
    if r.batches != [] {
      ExpectedIs(r.batches[..|r.batches| - 1]);
    }
  }

  /** A line goes to the current buffer, which is retired exactly if that would leave no byte to spare. */
  lemma AppendRetiresExactly(s: State, line: Bytes)
    requires Inv(s)
    ensures var r := Step(s, Append(line)).front;
            if |s.front.current| + |line| < s.size
            then r == s.front.(current := s.front.current + line)
            else && r.buffers == s.front.buffers + [s.front.current] && r.next == None
                 && r.current == if |line| < s.size then line else []
  {
    hide Conserved, FileMatches;
  }

  /** Once a batch is written, the buffers left to recycle are those that were. */
  lemma WriteKeepsWritten(s: State)
    requires Enabled(s, Write)
    ensures var b, r := s.back.buffersToWrite, Step(s, Write);
            r.back.buffersToWrite == (if |b| > 25 then [b[0], b[1]] else b) && r.front == s.front
  {
  }

  /** A swap takes all the buffers, the current one last, and leaves none with a byte in it. */
  lemma SwapTakesAll(s: State)
    requires Inv(s) && Enabled(s, Swap)
    ensures var r := Step(s, Swap);
            && r.back.buffersToWrite == s.front.buffers + [s.front.current]
            && r.front.buffers == [] && r.front.current == [] && r.front.next.Some?
  {
    hide Conserved, FileMatches;
  }

  /** No assertion of threadFunc fails: its spares are there and empty, and can be refilled. */
  lemma SparesAreThere(size: nat, ops: seq<Op>)
    requires Legal(Initial(size), ops)
    ensures var r := Run(Initial(size), ops);
            && (r.back.place in {Top, Waiting} ==>
                  r.back.newBuffer1 == Some([]) && r.back.newBuffer2 == Some([]) && r.back.buffersToWrite == [])
            && (r.back.place == Swapped ==> r.back.buffersToWrite != [])
            && (r.back.place == Written ==> CanRecycle(r))
            && (r.front.next.None? ==> r.front.buffers != [])
  {
    InitialInv(size);
    RunKeepsInv(Initial(size), ops);
  }

  // ---------------------------------------------------------------- the end

  /** After stop the backend swaps at most once more, and only if it had seen running_ before. */
  lemma {:induction false} LastSwap(s: State, ops: seq<Op>)
    requires !s.running && Legal(s, ops)
    ensures var r := Run(s, ops);
            !r.running && |r.batches| <= |s.batches| + if s.back.place == Waiting then 1 else 0
    decreases |ops|
  {
    if ops != [] {
      LastSwap(Step(s, ops[0]), ops[1..]);
    }
  }

  /** Once the backend has left its loop, what it has not swapped out is never written. */
  lemma {:induction false} NothingAfterExit(s: State, ops: seq<Op>)
    requires s.back.place == Exited && Legal(s, ops)
    ensures Run(s, ops).file == s.file && Run(s, ops).back.place == Exited
    decreases |ops|
  {
    if ops != [] {
      NothingAfterExit(Step(s, ops[0]), ops[1..]);
    }
  }

  predicate FrontEmpty(s: State) {
    Concat(s.front.buffers) + s.front.current == []
  }

  lemma AllSwapped(s: State)
    requires Inv(s)
    ensures Joined(s.batches) == s.accepted <==> FrontEmpty(s)
  {
    hide FileMatches, SparesMatch, Joined, Concat;
    var a, b := Joined(s.batches), Concat(s.front.buffers) + s.front.current;
    assert a + b == s.accepted;
  }

  /** No line is appended. */
  predicate NoAppends(ops: seq<Op>) {
    forall i :: 0 <= i < |ops| ==> !ops[i].Append?
  }

  /** The lines appended so far will all be swapped out: they are already, or the backend is past its test. */
  predicate Saved(s: State) {
    s.back.place == Waiting || FrontEmpty(s)
  }

  lemma StepSaves(s: State, op: Op)
    requires Inv(s) && !s.running && Enabled(s, op) && !op.Append?
    ensures Inv(Step(s, op)) && !Step(s, op).running && Step(s, op).accepted == s.accepted
    ensures Saved(Step(s, op)) <==> Saved(s)
  {
    StepKeepsInv(s, op);
    assert Concat([]) == [];
    hide Conserved, FileMatches, Concat;
  }

  /**
   From stop on, everything appended so far is swapped out by the time the backend leaves if and only if the backend
   had already tested running_ in its round, or there was nothing left to swap.
   */
  lemma {:induction false} SavedExactly(s: State, ops: seq<Op>)
    requires Inv(s) && !s.running && Legal(s, ops) && NoAppends(ops) && Run(s, ops).back.place == Exited
    ensures Joined(Run(s, ops).batches) == s.accepted <==> s.back.place == Waiting || FrontEmpty(s)
    decreases |ops|
  {
    if ops == [] {
      AllSwapped(s);
    } else {
      StepSaves(s, ops[0]);
      assert !ops[0].Append?;
      hide Inv, Step, Enabled, FrontEmpty, Joined;
      SavedExactly(Step(s, ops[0]), ops[1..]);
    }
  }

  /** For instance a line appended just before stop, while the backend is at the top of its loop. */
  lemma StopLosesLine(size: nat, line: Bytes)
    requires 0 < |line| < size
    ensures var ops := [Append(line), Stop, Test];
            && Legal(Initial(size), ops) && Run(Initial(size), ops).back.place == Exited
            && Run(Initial(size), ops).accepted == line && Run(Initial(size), ops).file == []
  {
    var s1 := Step(Initial(size), Append(line));
    var s2 := Step(s1, Stop);
    var s3 := Step(s2, Test);
    var ops := [Append(line), Stop, Test];
    assert s3.accepted == line;
    assert ops[1..] == [Stop, Test] && ops[1..][1..] == [Test] && ops[1..][1..][1..] == [];
    assert Legal(s3, []) && Run(s3, []) == s3;
    assert Legal(s2, [Test]) && Run(s2, [Test]) == s3;
    assert Legal(s1, ops[1..]) && Run(s1, ops[1..]) == s3;
  }

  // ---------------------------------------------------------------- without drops

  function BytesIn(file: seq<Output>): Bytes {
    if file == [] then []
    else BytesIn(file[..|file| - 1]) + if file[|file| - 1].Data? then file[|file| - 1].bytes else []
  }

  lemma {:induction false} BytesInConcat(a: seq<Output>, b: seq<Output>)
    ensures BytesIn(a + b) == BytesIn(a) + BytesIn(b)
    decreases |b|
  {
    if b == [] {
      assert a + b == a;
    } else {
      var init, last := b[..|b| - 1], b[|b| - 1];
      BytesInConcat(a, init);
      assert (a + b)[..|a + b| - 1] == a + init && (a + b)[|a + b| - 1] == last;
    }
  }

  lemma {:induction false} BytesInData(buffers: seq<Bytes>)
    ensures BytesIn(DataOf(buffers)) == Concat(buffers)
  {
    if buffers != [] {
      BytesInData(buffers[..|buffers| - 1]);
      assert DataOf(buffers)[..|buffers| - 1] == DataOf(buffers[..|buffers| - 1]);
    }
  }

  lemma {:induction false} BytesInBatches(batches: seq<seq<Bytes>>)
    requires forall i :: 0 <= i < |batches| ==> |batches[i]| <= MAX_BATCH
    ensures BytesIn(OutputForAll(batches)) == Joined(batches)
  {
    if batches != [] {
      var init, last := batches[..|batches| - 1], batches[|batches| - 1];
      BytesInBatches(init);
      BytesInConcat(OutputForAll(init), OutputFor(last));
      assert OutputFor(last) == DataOf(last);
      BytesInData(last);
    }
  }

  predicate NoDrops(s: State) {
    forall i :: 0 <= i < |s.batches| ==> |s.batches[i]| <= MAX_BATCH
  }

  lemma NothingLostAt(s: State)
    requires Inv(s) && NoDrops(s)
    ensures BytesIn(s.file) + (if s.back.place == Swapped then Concat(s.back.buffersToWrite) else [])
              + Concat(s.front.buffers) + s.front.current
         == s.accepted
  {
    hide SparesMatch, OutputForAll, BytesIn;
    if s.back.place == Swapped {
      BytesInBatches(s.batches[..|s.batches| - 1]);
    } else {
      BytesInBatches(s.batches);
    }
  }

  /** While no batch has exceeded 25 buffers, nothing at all is lost. */
  lemma NothingLost(size: nat, ops: seq<Op>)
    requires Legal(Initial(size), ops) && NoDrops(Run(Initial(size), ops))
    ensures var r := Run(Initial(size), ops);
            BytesIn(r.file) + (if r.back.place == Swapped then Concat(r.back.buffersToWrite) else [])
              + Concat(r.front.buffers) + r.front.current
              == LinesOf(size, ops)
  {
    InitialInv(size);
    RunKeepsInv(Initial(size), ops);
    AcceptedAre(Initial(size), ops);
    NothingLostAt(Run(Initial(size), ops));
  }

  /** The bytes of the batches that reach the file: all of a batch, or its first two buffers. */
  function Surviving(batches: seq<seq<Bytes>>): Bytes {
    if batches == [] then []
    else
      var last := batches[|batches| - 1];
      Surviving(batches[..|batches| - 1]) + if |last| > 25 then last[0] + last[1] else Concat(last)
  }

  lemma {:induction false} SurvivingAre(batches: seq<seq<Bytes>>)
    ensures BytesIn(OutputForAll(batches)) == Surviving(batches)
  {
    if batches != [] {
      var init, last := batches[..|batches| - 1], batches[|batches| - 1];
      SurvivingAre(init);
      BytesInConcat(OutputForAll(init), OutputFor(last));
      BatchBytes(last);
      hide OutputFor, BytesIn;
    }
  }

  lemma BatchBytes(batch: seq<Bytes>)
    ensures BytesIn(OutputFor(batch)) == if |batch| > 25 then batch[0] + batch[1] else Concat(batch)
  {
    DropsExactly(batch);
    if |batch| > 25 {
      NoticeAndTwo(|batch| - 2, batch[0], batch[1]);
    } else {
      SmallBatch(batch);
      BytesInData(batch);
    }
    hide OutputFor, BytesIn, DataOf;
  }

  lemma SmallBatch(batch: seq<Bytes>)
    requires |batch| <= 25
    ensures OutputFor(batch) == DataOf(batch)
  {
  }

  lemma NoticeAndTwo(n: nat, x: Bytes, y: Bytes)
    ensures BytesIn([Notice(n), Data(x), Data(y)]) == x + y
  {
    var a, b, c := Notice(n), Data(x), Data(y);
    assert BytesIn([]) == [];
    BytesInNext([], a);
    BytesInNext([a], b);
    BytesInNext([a, b], c);
    hide BytesIn;
    assert [] + [a] == [a] && [a] + [b] == [a, b] && [a, b] + [c] == [a, b, c];
  }

  lemma BytesInNext(file: seq<Output>, o: Output)
    ensures BytesIn(file + [o]) == BytesIn(file) + if o.Data? then o.bytes else []
  {
    assert (file + [o])[..|file|] == file;
  }

  /** Over every run, the file holds exactly the bytes that survive of the batches written so far. */
  lemma FileBytes(size: nat, ops: seq<Op>)
    requires Legal(Initial(size), ops)
    ensures var r := Run(Initial(size), ops);
            && (r.back.place == Swapped ==> r.batches != [])
            && BytesIn(r.file) == Surviving(if r.back.place == Swapped then r.batches[..|r.batches| - 1] else r.batches)
  {
    InitialInv(size);
    RunKeepsInv(Initial(size), ops);
    var r := Run(Initial(size), ops);
    SurvivingAre(if r.back.place == Swapped then r.batches[..|r.batches| - 1] else r.batches);
    hide Conserved, SparesMatch;
  }

  // ---------------------------------------------------------------- the object

  class AsyncLogging {
    const size: nat
    var running: bool
    var currentBuffer: Bytes
    var nextBuffer: Option<Bytes>
    var buffers: seq<Bytes>
    var newBuffer1: Option<Bytes>
    var newBuffer2: Option<Bytes>
    var buffersToWrite: seq<Bytes>
    var file: seq<Output>
    ghost var place: Place
    ghost var accepted: Bytes
    ghost var batches: seq<seq<Bytes>>

    ghost function View(): State
      reads this
    {
      State(size, running, Front(currentBuffer, nextBuffer, buffers),
            Back(place, newBuffer1, newBuffer2, buffersToWrite), file, accepted, batches)
    }

    constructor (size: nat)
      ensures View() == Initial(size)
    {
      this.size := size;
      running, currentBuffer, nextBuffer, buffers := true, [], Some([]), [];
      newBuffer1, newBuffer2, buffersToWrite, file := Some([]), Some([]), [], [];
      place, accepted, batches := Top, [], [];
    }

    method AppendLine(logline: Bytes)
      requires Inv(View())
      modifies this
      ensures View() == AfterAppend(old(View()), logline) && Inv(View())
    {
      AppendKeeps(View(), logline);
      hide Inv;
      if size - |currentBuffer| > |logline| {
        currentBuffer := currentBuffer + logline;
      } else {
        buffers := buffers + [currentBuffer];
        if nextBuffer.Some? {
          currentBuffer, nextBuffer := nextBuffer.value, None;
        } else {
          currentBuffer := [];
        }
        currentBuffer := Appended(size, currentBuffer, logline);
      }
      if |logline| < size {
        accepted := accepted + logline;
      }
    }

    /** The test of the loop of threadFunc. */
    method TestRunning() returns (goesOn: bool)
      requires Inv(View()) && Enabled(View(), Test)
      modifies this`place
      ensures View() == Step(old(View()), Test) && Inv(View())
      ensures goesOn == running
    {
      StepKeepsInv(View(), Test);
      hide Inv;
      goesOn := running;
      place := if goesOn then Waiting else Exited;
    }

    /** The locked section of threadFunc, after the wait if there was one. */
    method SwapBuffers()
      requires Inv(View()) && Enabled(View(), Swap)
      modifies this
      ensures View() == AfterSwap(old(View())) && Inv(View())
    {
      SwapKeeps(View());
      assert newBuffer1 == Some([]) && newBuffer2 == Some([]) && buffersToWrite == [] by {
        hide Conserved, FileMatches;
      }
      hide Inv;
      batches := batches + [buffers + [currentBuffer]];
      TakeBuffers();
      if nextBuffer.None? {
        nextBuffer, newBuffer2 := newBuffer2, None;
      }
      place := Swapped;
      assert buffersToWrite != [];
    }

    /** Swaps the full buffers out, with a spare in place of the current one. */
    method TakeBuffers()
      requires newBuffer1.Some? && buffersToWrite == []
      modifies this`buffers, this`currentBuffer, this`newBuffer1, this`buffersToWrite
      ensures buffersToWrite == old(buffers) + [old(currentBuffer)] && buffers == []
      ensures currentBuffer == old(newBuffer1).value && newBuffer1 == None
    {
      buffers := buffers + [currentBuffer];
      currentBuffer, newBuffer1 := newBuffer1.value, None;
      buffersToWrite, buffers := buffers, buffersToWrite;
    }

    method WriteBatch()
      requires Inv(View()) && place == Swapped
      modifies this
      ensures View() == AfterWrite(old(View())) && Inv(View())
    {
      StepKeepsInv(View(), Write);
      hide Inv, OutputFor, Kept;
      WriteKept();
      place := Written;
    }

    /** Writes the buffers, or a notice and the first two. */
    method WriteKept()
      modifies this`file, this`buffersToWrite
      ensures file == old(file) + OutputFor(old(buffersToWrite)) && buffersToWrite == Kept(old(buffersToWrite))
    {
      hide DataOf;
      if |buffersToWrite| > MAX_BATCH {
        file := file + [Notice(|buffersToWrite| - 2)];
        buffersToWrite := buffersToWrite[..2];
      }
      WriteBuffers();
    }

    /** The loop that writes the buffers kept. */
    method WriteBuffers()
      modifies this`file
      ensures file == old(file) + DataOf(buffersToWrite)
    {
      var i := 0;
      while i < |buffersToWrite|
        invariant 0 <= i <= |buffersToWrite| && file == old(file) + DataOf(buffersToWrite[..i])
      {
        assert DataOf(buffersToWrite[..i + 1]) == DataOf(buffersToWrite[..i]) + [Data(buffersToWrite[i])];
        file := file + [Data(buffersToWrite[i])];
        i := i + 1;
      }
      assert buffersToWrite[..i] == buffersToWrite;
    }

    method Recycle()
      requires Inv(View()) && place == Written
      modifies this
      ensures View() == AfterRecycle(old(View())) && Inv(View())
    {
      StepKeepsInv(View(), Op.Recycle);
      hide Inv, Refill;
      RefillSpares();
      buffersToWrite := [];
      place := Top;
    }

    /** Both spares, if they are missing, are taken from the last buffers written. */
    method RefillSpares()
      requires CanRecycle(View())
      modifies this`newBuffer1, this`newBuffer2, this`buffersToWrite
      ensures var used := if |old(buffersToWrite)| > 2 then old(buffersToWrite)[..2] else old(buffersToWrite);
              && newBuffer1 == Refill(old(newBuffer1), used).0
              && newBuffer2 == Refill(old(newBuffer2), Refill(old(newBuffer1), used).1).0
    {
      if |buffersToWrite| > 2 {
        buffersToWrite := buffersToWrite[..2];
      }
      if newBuffer1.None? {
        assert buffersToWrite != [];
        newBuffer1 := Some([]);
        buffersToWrite := buffersToWrite[..|buffersToWrite| - 1];
      }
      if newBuffer2.None? {
        assert buffersToWrite != [];
        newBuffer2 := Some([]);
        buffersToWrite := buffersToWrite[..|buffersToWrite| - 1];
      }
    }
  }
}
