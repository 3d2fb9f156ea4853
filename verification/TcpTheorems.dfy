/** What holds over every run of a connection. */
module TcpTheorems {

  import opened NetworkOrder
  import opened TcpSpec
  import Pollers

  // ---------------------------------------------------------------- the output stream

  /** The bytes on the socket and those still buffered are what sendInLoop took over. */
  predicate Intact(s: Stream) {
    s.sock + s.output == Accepted(s.log)
  }

  lemma AcceptedGrows(log: seq<Offer>, offer: Offer)
    ensures Accepted(log + [offer]) == Accepted(log) + if offer.kept then offer.message else []
  {
    assert (log + [offer])[..|log|] == log;
  }

  /** Either nothing of the message is written at once, or nothing was buffered before. */
  lemma Joined(sock: Bytes, output: Bytes, message: Bytes, k: nat)
    requires k <= |message| && (k == 0 || output == [])
    ensures (sock + message[..k]) + (output + message[k..]) == sock + output + message
  {
    if k == 0 {
      assert message[..k] == [] && message[k..] == message;
    } else {
      assert message == message[..k] + message[k..];
    }
  }

  lemma SentIntact(s: State, message: Bytes, io: WriteResult)
    requires Possible(io, |message|) && Intact(s.stream)
    ensures Intact(Sent(s, message, io).stream)
  {
    AcceptedGrows(s.stream.log, Offer(message, Kept(s, io)));
    hide Accepted;
    if Kept(s, io) {
      var k := |message| - |Rest(s, message, io)|;
      assert Rest(s, message, io) == message[k..];
      Joined(s.stream.sock, s.stream.output, message, k);
    }
  }

  lemma WrittenIntact(s: State, io: WriteResult)
    requires Possible(io, |s.stream.output|) && Intact(s.stream)
    ensures Intact(Written(s, io).stream)
  {
    hide ShutdownNow;
    forall t: State
      ensures ShutdownNow(t).stream == t.stream
    {
      ShutdownNowKeepsStream(t);
    }
    if io.Wrote? {
      assert s.stream.output == s.stream.output[..io.n] + s.stream.output[io.n..];
    }
  }

  lemma StepIntact(s: State, op: Op)
    requires Enabled(s, op) && Intact(s.stream)
    ensures Intact(Step(s, op).stream)
  {
    hide Intact, Sent, Written, Closed, ShutdownNow;
    match op
    case Send(message, io) => SentIntact(s, message, io);
    case RunFunctor(io) =>
      assert Popped(s).stream == s.stream;
      if s.tasks.functors[0].RunSend? {
        SentIntact(Popped(s), s.tasks.functors[0].message, io);
      }
      ShutdownNowKeepsStream(Popped(s));
      var t := Popped(s);
      CloseKeepsStream(t.(flags := t.flags.(closeFlag := true, forceFlag := true)));
    case PeerCloses => CloseKeepsStream(s);
    case Shutdown => ShutdownNowKeepsStream(s.(flags := s.flags.(closeFlag := true), phase := Disconnecting));
    case Writable(io) => WrittenIntact(s, io);
    case _ =>
  }

  /** No short write, startWrite, stopWrite or close ever loses, repeats or reorders a byte of the output. */
  lemma {:induction false} OutputIntegrity(s: State, ops: seq<Op>)
    requires Runs(s, ops) && Intact(s.stream)
    ensures Intact(Run(s, ops).stream)
    decreases |ops|
  {
    if ops != [] {
      StepIntact(s, ops[0]);
      hide Intact, Step, Enabled;
      OutputIntegrity(Step(s, ops[0]), ops[1..]);
    }
  }

  /** As long as the peer takes the data and the connection is not down, every message is taken over. */
  predicate AllKept(s: State) {
    s.phase != Disconnected ==> forall i :: 0 <= i < |s.stream.log| ==> s.stream.log[i].kept
  }

  predicate Sound(op: Op) {
    match op
    case Send(_, io) => io != BrokenPipe
    case RunFunctor(io) => io != BrokenPipe
    case Writable(io) => io != BrokenPipe
    case _ => true
  }

  lemma StepKeepsAll(s: State, op: Op)
    requires Enabled(s, op) && Sound(op) && AllKept(s)
    ensures AllKept(Step(s, op))
  {
    StepIsForward(s, op);
    StepLog(s, op);
    hide Step, Enabled, Rank;
  }

  /** A step adds at most one message to the log, and drops it only if it is told to. */
  lemma StepLog(s: State, op: Op)
    requires Enabled(s, op)
    ensures var l, m := s.stream.log, Step(s, op).stream.log;
            m == l || (exists o: Offer :: m == l + [o] && (Sound(op) && s.phase != Disconnected ==> o.kept))
  {
    hide Closed, ShutdownNow, Rest;
    match op
    case Send(message, io) =>
      var log := Step(s, op).stream.log;
      assert log == s.stream.log || log == s.stream.log + [Offer(message, Kept(s, io))];
    case RunFunctor(io) =>
      var t := Popped(s);
      ShutdownNowKeepsStream(t);
      CloseKeepsStream(t.(flags := t.flags.(closeFlag := true, forceFlag := true)));
      if t != s && s.tasks.functors[0].RunSend? {
        assert Step(s, op).stream.log == s.stream.log + [Offer(s.tasks.functors[0].message, Kept(t, io))];
      }
    case PeerCloses => CloseKeepsStream(s);
    case Shutdown => ShutdownNowKeepsStream(s.(flags := s.flags.(closeFlag := true), phase := Disconnecting));
    case Writable(io) =>
      forall t: State
        ensures ShutdownNow(t).stream == t.stream
      {
        ShutdownNowKeepsStream(t);
      }
    case _ =>
  }

  lemma {:induction false} NothingDropped(s: State, ops: seq<Op>)
    requires Runs(s, ops) && AllKept(s) && forall op :: op in ops ==> Sound(op)
    ensures AllKept(Run(s, ops))
    decreases |ops|
  {
    if ops != [] {
      StepKeepsAll(s, ops[0]);
      hide AllKept, Step, Enabled, Sound;
      NothingDropped(Step(s, ops[0]), ops[1..]);
    }
  }

  // ---------------------------------------------------------------- the state never moves backwards

  lemma StepIsForward(s: State, op: Op)
    requires Enabled(s, op)
    ensures Rank(Step(s, op).phase) >= Rank(s.phase)
  {
    hide Closed, ShutdownNow, Rest, Kept;
    match op
    case RunFunctor(io) =>
      var t := Popped(s);
      ShutdownNowKeepsStream(t);
      CloseKeepsStream(t.(flags := t.flags.(closeFlag := true, forceFlag := true)));
    case PeerCloses => CloseKeepsStream(s);
    case Shutdown => ShutdownNowKeepsStream(s.(flags := s.flags.(closeFlag := true), phase := Disconnecting));
    case Writable(io) =>
      forall t: State
        ensures Rank(ShutdownNow(t).phase) >= Rank(t.phase)
      {
        ShutdownNowKeepsStream(t);
      }
    case _ =>
  }

  lemma {:induction false} NeverBackwards(s: State, ops: seq<Op>)
    requires Runs(s, ops)
    ensures Rank(Run(s, ops).phase) >= Rank(s.phase)
    decreases |ops|
  {
    if ops != [] {
      StepIsForward(s, ops[0]);
      hide Rank, Step, Enabled;
      NeverBackwards(Step(s, ops[0]), ops[1..]);
    }
  }

  // ---------------------------------------------------------------- the close protocol

  /** The connection callback reports UP once and DOWN once, and the channel is off from then on. */
  predicate CallbacksInv(s: State) {
    var r := s.record;
    && !r.failed
    && r.ups == (if s.phase == Connecting then 0 else 1)
    && r.downs == (if s.phase == Disconnected then 1 else 0)
    && r.closes <= r.downs
  }

  predicate ChannelInv(s: State) {
    var c := s.channel;
    if Live(s) then (c.watched <==> c.read || c.write) && s.flags.reading == c.read
    else c == Channel(false, false, false)
  }

  /** A close that the peer began and a shutdown queued by another thread exclude each other. */
  predicate FlagsInv(s: State) {
    && (s.phase == Connecting ==> s.tasks == Tasks([], 0) && s.flags == NEW.flags)
    && (s.flags.dissByPeer ==> Rank(s.phase) >= 2 && RunShutdown !in s.tasks.functors)
    && (s.flags.closeFlag ==> Rank(s.phase) >= 2)
    && (RunShutdown in s.tasks.functors ==> s.flags.closeFlag)
    && (s.flags.forceFlag ==> s.phase == Disconnected)
  }

  predicate CloseInv(s: State) {
    CallbacksInv(s) && ChannelInv(s) && FlagsInv(s)
  }

  /**
   handleClose would find a channel without any interest. Its disableAll then adds the fd to the epoll instance again,
   which reports a hang-up even to a channel that asks for nothing.
   */
  predicate ClosesDeaf(s: State, op: Op)
    requires Enabled(s, op)
  {
    var deaf := !s.channel.read && !s.channel.write;
    match op
    case PeerCloses => deaf && (s.flags.closeFlag || s.phase == Connected)
    case RunFunctor(io) => deaf && s.tasks.functors[0] == RunForceClose && Live(s)
    case Writable(io) =>
      && !s.channel.read && s.channel.write && io == Wrote(|s.stream.output|) && s.stream.output != []
      && s.phase == Disconnecting && s.flags.dissByPeer && s.flags.closeFlag
    case _ => false
  }

  /** What the close protocol asks of the users of a connection. */
  predicate Behaved(s: State, op: Op)
    requires Enabled(s, op)
  {
    && (Touches(s, op) ==> Live(s))
    && (op == Destroy && s.phase == Disconnecting ==> !s.channel.read && !s.channel.write)
    && !ClosesDeaf(s, op)
  }

  lemma CloseExactly(s: State)
    requires CloseInv(s) && Live(s)
    ensures CloseInv(Closed(s)) <==> s.channel.read || s.channel.write || !(s.flags.closeFlag || s.phase == Connected)
  {
    CloseIs(s);
    hide Closed;
  }

  lemma ForceExactly(s: State)
    requires CloseInv(s)
    ensures CloseInv(ForceClosedNow(s)) <==> !(Live(s) && !s.channel.read && !s.channel.write)
  {
    CloseIs(s.(flags := s.flags.(closeFlag := true, forceFlag := true)));
    hide Closed;
  }

  /** Without a close by the peer, shutting down is harmless whatever the state. */
  lemma ShutdownNowKeepsInv(s: State)
    requires CloseInv(s) && !s.flags.dissByPeer
    ensures CloseInv(ShutdownNow(s))
  {
    hide Closed;
  }

  lemma WrittenExactly(s: State, io: WriteResult)
    requires CloseInv(s) && Enabled(s, Writable(io))
    ensures CloseInv(Written(s, io)) <==> !ClosesDeaf(s, Writable(io))
  {
    if s.channel.write && io.Wrote? && io.n > 0 {
      var stream := Stream(s.stream.output[io.n..], s.stream.sock + s.stream.output[..io.n], s.stream.log);
      var t := s.(stream := stream, channel := Updated(s.channel, s.channel.read, false));
      assert stream.output == [] <==> io.n == |s.stream.output|;
      assert CloseInv(t);
      if s.phase == Disconnecting {
        CloseIs(WriteShut(t));
      }
      hide Closed;
    }
  }

  lemma SentKeepsInv(s: State, message: Bytes, io: WriteResult)
    requires CloseInv(s) && s.phase != Connecting && Possible(io, |message|)
    ensures CloseInv(Sent(s, message, io))
  {
    assert s.phase == Disconnected ==> Rest(s, message, io) == [];
  }

  lemma PoppedKeepsInv(s: State)
    requires CloseInv(s) && s.tasks.functors != []
    ensures CloseInv(Popped(s))
    ensures s.tasks.functors[0] == RunShutdown ==> !s.flags.dissByPeer
  {
  }

  /** A step keeps the protocol exactly if it is behaved. */
  lemma StepExactly(s: State, op: Op)
    requires CloseInv(s) && Enabled(s, op)
    ensures CloseInv(Step(s, op)) <==> Behaved(s, op)
  {
    hide Closed, ShutdownNow, Written, Sent;
    match op
    case RunFunctor(io) =>
      PoppedKeepsInv(s);
      ForceExactly(Popped(s));
      match s.tasks.functors[0] {
        case RunSend(message) => SentKeepsInv(Popped(s), message, io);
        case RunShutdown => ShutdownNowKeepsInv(Popped(s));
        case RunForceClose =>
      }
    case Send(message, io) =>
      if s.phase == Connected {
        SentKeepsInv(s, message, io);
      }
    case PeerCloses => CloseExactly(s);
    case Shutdown =>
      if s.phase == Connected {
        ShutdownNowKeepsInv(s.(flags := s.flags.(closeFlag := true), phase := Disconnecting));
      }
    case Writable(io) => WrittenExactly(s, io);
    case _ =>
  }

  /** No assertion fails in the step, nor in a close reported right after it. */
  predicate Safe(s: State, op: Op)
    requires Enabled(s, op)
  {
    var r := Step(s, op);
    !r.record.failed && (Enabled(r, PeerCloses) ==> !Step(r, PeerCloses).record.failed)
  }

  lemma CloseFailsExactly(s: State)
    ensures Closed(s).record.failed <==> s.record.failed || !Live(s)
  {
    CloseIs(s);
    hide Closed;
  }

  /** A step that is not behaved fails an assertion, or leaves a channel watched that is not live. */
  lemma MisbehavedLeavesOpen(s: State, op: Op)
    requires CloseInv(s) && Enabled(s, op) && !Behaved(s, op)
    ensures var r := Step(s, op); r.record.failed || (r.channel.watched && !Live(r))
  {
    hide Closed, ShutdownNow, Sent;
    match op
    case RunFunctor(io) => CloseIs(Popped(s).(flags := s.flags.(closeFlag := true, forceFlag := true)));
    case PeerCloses => CloseIs(s);
    case Writable(io) =>
      var stream := Stream(s.stream.output[io.n..], s.stream.sock + s.stream.output[..io.n], s.stream.log);
      var t := s.(stream := stream, channel := Updated(s.channel, s.channel.read, false));
      assert Written(s, io) == ShutdownNow(t) == Closed(WriteShut(t)) by {
        DrainedCloses(s, io, t);
      }
      CloseIs(WriteShut(t));
    case _ =>
  }

  lemma DrainedCloses(s: State, io: WriteResult, t: State)
    requires Enabled(s, Writable(io)) && ClosesDeaf(s, Writable(io))
    requires t == s.(stream := Stream(s.stream.output[io.n..], s.stream.sock + s.stream.output[..io.n], s.stream.log),
                     channel := Updated(s.channel, s.channel.read, false))
    ensures Written(s, io) == ShutdownNow(t) == Closed(WriteShut(t))
  {
    hide Closed;
  }

  /** So being behaved is exactly what keeps the assertions: without it one fails at once or at the next close. */
  lemma SafeExactly(s: State, op: Op)
    requires CloseInv(s) && Enabled(s, op)
    ensures Safe(s, op) <==> Behaved(s, op)
  {
    StepExactly(s, op);
    var r := Step(s, op);
    CloseFailsExactly(r);
    if !Behaved(s, op) {
      MisbehavedLeavesOpen(s, op);
    }
    assert Enabled(r, PeerCloses) ==> Step(r, PeerCloses) == Closed(r);
    hide Closed, Behaved;
  }

  predicate BehavedRun(s: State, ops: seq<Op>)
    decreases |ops|
  {
    ops == [] || (Enabled(s, ops[0]) && Behaved(s, ops[0]) && BehavedRun(Step(s, ops[0]), ops[1..]))
  }

  lemma {:induction false} RunKeepsInv(s: State, ops: seq<Op>)
    requires CloseInv(s) && BehavedRun(s, ops)
    ensures Runs(s, ops) && CloseInv(Run(s, ops))
    decreases |ops|
  {
    if ops != [] {
      StepExactly(s, ops[0]);
      hide CloseInv, Step, Enabled, Behaved;
      RunKeepsInv(Step(s, ops[0]), ops[1..]);
    }
  }

  /** A run of any calls but start and stop, where the owner does not destroy a connection that is kDisconnecting. */
  predicate PlainRun(s: State, ops: seq<Op>)
    decreases |ops|
  {
    ops == [] ||
    (&& Enabled(s, ops[0]) && !IsSwitch(ops[0]) && (ops[0] == Destroy ==> s.phase != Disconnecting)
     && PlainRun(Step(s, ops[0]), ops[1..]))
  }

  lemma StepKeepsReading(s: State, op: Op)
    requires CloseInv(s) && Enabled(s, op) && !IsSwitch(op) && (Live(s) ==> s.channel.read)
    ensures Live(Step(s, op)) ==> Step(s, op).channel.read
  {
    hide Closed, ShutdownNow, Kept, Rest;
    match op
    case PeerCloses => LiveKeepsChannel(s);
    case Shutdown => LiveKeepsChannel(s.(flags := s.flags.(closeFlag := true), phase := Disconnecting));
    case RunFunctor(io) =>
      var t := Popped(s);
      LiveKeepsChannel(t);
      LiveKeepsChannel(t.(flags := t.flags.(closeFlag := true, forceFlag := true)));
    case Writable(io) =>
      forall t: State
        ensures Live(ShutdownNow(t)) ==> ShutdownNow(t).channel == t.channel && Live(t)
      {
        LiveKeepsChannel(t);
      }
    case _ =>
  }

  lemma LiveKeepsChannel(s: State)
    ensures Live(Closed(s)) ==> Closed(s).channel == s.channel && Live(s)
    ensures Live(ShutdownNow(s)) ==> ShutdownNow(s).channel == s.channel && Live(s)
  {
    CloseIs(s);
    CloseIs(WriteShut(s));
    hide Closed;
  }

  lemma {:induction false} PlainIsBehaved(s: State, ops: seq<Op>)
    requires CloseInv(s) && PlainRun(s, ops) && (Live(s) ==> s.channel.read)
    ensures BehavedRun(s, ops)
    decreases |ops|
  {
    if ops != [] {
      StepExactly(s, ops[0]);
      StepKeepsReading(s, ops[0]);
      hide CloseInv, Step, Enabled;
      PlainIsBehaved(Step(s, ops[0]), ops[1..]);
    }
  }

  /** A hang-up reported to a connection that is down gives a second DOWN, against the assertion of handleClose. */
  lemma DownAgain(s: State)
    requires s.phase == Disconnected && s.flags.closeFlag && s.channel.watched
    ensures Enabled(s, PeerCloses) && Step(s, PeerCloses).record.failed
    ensures Step(s, PeerCloses).record.downs == s.record.downs + 1
  {
    CloseIs(s);
  }

  /** A connection that is up and idle, reading or not, and what forceClose makes of it. */
  function Idle(reading: bool): State {
    NEW.(phase := Connected, channel := Channel(reading, false, reading), flags := NEW.flags.(reading := reading),
         record := NEW.record.(ups := 1))
  }

  function IdleClosed(reading: bool): State {
    Idle(reading).(phase := Disconnected, channel := Channel(false, false, !reading),
                   flags := Flags(true, true, false, reading), record := Record(1, 1, 1, false, false))
  }

  lemma IdleForceCloses(reading: bool)
    ensures Enabled(Step(Idle(reading), ForceClose), RunFunctor(WouldBlock))
    ensures Step(Step(Idle(reading), ForceClose), RunFunctor(WouldBlock)) == IdleClosed(reading)
  {
    var s := Step(Idle(reading), ForceClose);
    assert s.tasks.functors == [RunForceClose];
    assert Popped(s) == Idle(reading).(phase := Disconnecting);
    CloseIs(Popped(s).(flags := Flags(true, true, false, reading)));
    hide Closed;
  }

  lemma IdleReopens()
    ensures Step(NEW, Establish) == Idle(true)
    ensures var s := Step(IdleClosed(true), StartRead);
            s.phase == Disconnected && s.flags.closeFlag && s.channel.watched && s.record.downs == 1
  {
  }

  /** startRead after the connection is down brings the channel back, and the next end of file a second DOWN. */
  lemma ReopenedGoesDownTwice()
    ensures var ops := [Establish, ForceClose, RunFunctor(WouldBlock), StartRead, PeerCloses];
            Runs(NEW, ops) && Run(NEW, ops).record.downs == 2 && Run(NEW, ops).record.failed
  {
    IdleReopens();
    IdleForceCloses(true);
    DownAgain(Step(IdleClosed(true), StartRead));
    hide Step, Idle, IdleClosed;
    UnrollFive(NEW, Establish, ForceClose, RunFunctor(WouldBlock), StartRead, PeerCloses);
  }

  /** So does closing a connection that has stopped reading. */
  lemma DeafGoesDownTwice()
    ensures var ops := [Establish, StopRead, ForceClose, RunFunctor(WouldBlock), PeerCloses];
            Runs(NEW, ops) && Run(NEW, ops).record.downs == 2 && Run(NEW, ops).record.failed
  {
    assert Step(NEW, Establish) == Idle(true);
    assert Step(Idle(true), StopRead) == Idle(false);
    IdleForceCloses(false);
    DownAgain(IdleClosed(false));
    assert IdleClosed(false).record.downs == 1;
    hide Step, Idle, IdleClosed;
    UnrollFive(NEW, Establish, StopRead, ForceClose, RunFunctor(WouldBlock), PeerCloses);
  }

  lemma UnrollFive(s: State, o1: Op, o2: Op, o3: Op, o4: Op, o5: Op)
    requires Enabled(s, o1) && Enabled(Step(s, o1), o2) && Enabled(Step(Step(s, o1), o2), o3)
    requires Enabled(Step(Step(Step(s, o1), o2), o3), o4)
    requires Enabled(Step(Step(Step(Step(s, o1), o2), o3), o4), o5)
    ensures Runs(s, [o1, o2, o3, o4, o5])
    ensures Run(s, [o1, o2, o3, o4, o5]) == Step(Step(Step(Step(Step(s, o1), o2), o3), o4), o5)
  {
    hide Step, Enabled;
    var t1 := Step(s, o1);
    var t2 := Step(t1, o2);
    var t3 := Step(t2, o3);
    var t4 := Step(t3, o4);
    assert [o1, o2, o3, o4, o5][1..] == [o2, o3, o4, o5];
    assert [o2, o3, o4, o5][1..] == [o3, o4, o5];
    assert [o3, o4, o5][1..] == [o4, o5];
    assert [o4, o5][1..] == [o5];
    assert [o5][1..] == [];
    assert Runs(Step(t4, o5), []) && Run(Step(t4, o5), []) == Step(t4, o5);
    assert Runs(t4, [o5]) && Run(t4, [o5]) == Step(t4, o5);
    assert Runs(t3, [o4, o5]) && Run(t3, [o4, o5]) == Step(t4, o5);
    assert Runs(t2, [o3, o4, o5]) && Run(t2, [o3, o4, o5]) == Step(t4, o5);
    assert Runs(t1, [o2, o3, o4, o5]) && Run(t1, [o2, o3, o4, o5]) == Step(t4, o5);
  }

  // ---------------------------------------------------------------- shutting down the write side

  /** Every shutdown of the write side of a connection that is not down yet found the buffer empty. */
  predicate ShutsEmpty(shuts: seq<Shut>) {
    forall i :: 0 <= i < |shuts| && shuts[i].phase != Disconnected ==> shuts[i].pending == []
  }

  /**
   Buffered output is waited for; a shutdown that was asked for is made, queued, or waits for the output; and a
   connection whose peer has closed once stays only while its channel is writing.
   */
  predicate DrainInv(s: State) {
    && (s.phase != Disconnected && s.stream.output != [] ==> s.channel.write)
    && ShutsEmpty(s.shuts)
    && (s.phase == Disconnecting && s.flags.closeFlag ==>
          s.channel.write || s.shuts != [] || RunShutdown in s.tasks.functors)
    && (s.phase == Disconnecting && s.flags.closeFlag && s.flags.dissByPeer ==> s.channel.write)
  }

  lemma CloseDrains(s: State)
    requires DrainInv(s) && CloseInv(s) && Live(s)
    ensures DrainInv(Closed(s))
  {
    CloseIs(s);
    hide Closed;
  }

  lemma ShutdownNowDrains(s: State)
    requires ShutsEmpty(s.shuts) && (s.phase != Disconnected && s.stream.output != [] ==> s.channel.write)
    requires s.phase != Connected && (s.flags.dissByPeer ==> Live(s))
    ensures DrainInv(ShutdownNow(s))
  {
    CloseIs(WriteShut(s));
    hide Closed;
  }

  lemma WrittenDrains(s: State, io: WriteResult)
    requires DrainInv(s) && CloseInv(s) && Enabled(s, Writable(io))
    ensures DrainInv(Written(s, io))
  {
    if s.channel.write && io.Wrote? && io.n > 0 {
      var stream := Stream(s.stream.output[io.n..], s.stream.sock + s.stream.output[..io.n], s.stream.log);
      var t := s.(stream := stream, channel := Updated(s.channel, s.channel.read, false));
      if s.phase == Disconnecting && stream.output == [] {
        ShutdownNowDrains(t);
      }
      hide ShutdownNow;
    }
  }

  lemma SentDrains(s: State, message: Bytes, io: WriteResult)
    requires DrainInv(s) && Possible(io, |message|)
    ensures DrainInv(Sent(s, message, io))
  {
    hide ShutsEmpty, Rest, Kept;
  }

  lemma RunFirstDrains(s: State, io: WriteResult)
    requires DrainInv(s) && CloseInv(s) && CanRun(s, io)
    ensures DrainInv(RunFirst(s, io))
  {
    PoppedKeepsInv(s);
    hide Sent, ShutdownNow, Closed;
    var t := Popped(s);
    match s.tasks.functors[0]
    case RunSend(message) =>
      assert RunShutdown in s.tasks.functors ==> RunShutdown in t.tasks.functors;
      SentDrains(t, message, io);
    case RunShutdown => ShutdownNowDrains(t);
    case RunForceClose =>
      assert RunShutdown in s.tasks.functors ==> RunShutdown in t.tasks.functors;
      CloseIs(t.(flags := t.flags.(closeFlag := true, forceFlag := true)));
  }

  /** stopWrite while there is output, or while the end of the connection waits for the last of it. */
  predicate Strands(s: State, op: Op) {
    && op == StopWrite && s.channel.write
    && (s.stream.output != [] ||
        (&& s.phase == Disconnecting && s.flags.closeFlag
         && (s.flags.dissByPeer || (s.shuts == [] && RunShutdown !in s.tasks.functors))))
  }

  /** Only such a stopWrite breaks the promise. */
  lemma StepDrainsExactly(s: State, op: Op)
    requires DrainInv(s) && CloseInv(s) && Enabled(s, op)
    ensures DrainInv(Step(s, op)) <==> !Strands(s, op)
  {
    hide Closed, ShutdownNow, Written, Sent, RunFirst, ShutsEmpty;
    match op
    case RunFunctor(io) => RunFirstDrains(s, io);
    case Send(message, io) => SentDrains(s, message, io);
    case PeerCloses => CloseDrains(s);
    case Shutdown =>
      if s.phase == Connected {
        ShutdownNowDrains(s.(flags := s.flags.(closeFlag := true), phase := Disconnecting));
      }
    case Writable(io) => WrittenDrains(s, io);
    case _ =>
  }

  lemma {:induction false} RunDrains(s: State, ops: seq<Op>)
    requires DrainInv(s) && CloseInv(s) && BehavedRun(s, ops) && StopWrite !in ops
    ensures Runs(s, ops) && DrainInv(Run(s, ops)) && CloseInv(Run(s, ops))
    decreases |ops|
  {
    if ops != [] {
      StepDrainsExactly(s, ops[0]);
      StepExactly(s, ops[0]);
      hide CloseInv, DrainInv, Step, Enabled, Behaved;
      RunDrains(Step(s, ops[0]), ops[1..]);
    }
  }

  /** Without stopWrite, a connection shuts its write side down with nothing left to write, and never forgets to. */
  lemma ShutdownWaitsForOutput(ops: seq<Op>)
    requires BehavedRun(NEW, ops) && StopWrite !in ops
    ensures Runs(NEW, ops)
    ensures var s := Run(NEW, ops);
            && ShutsEmpty(s.shuts)
            && (s.phase == Disconnecting && s.flags.closeFlag && !s.channel.write ==>
                  s.shuts != [] || RunShutdown in s.tasks.functors)
            && (s.phase == Disconnecting && s.flags.closeFlag && s.flags.dissByPeer ==> s.channel.write)
  {
    assert CloseInv(NEW) && DrainInv(NEW);
    hide CloseInv;
    RunDrains(NEW, ops);
  }

  /** After stopWrite with output buffered, shutdown closes the write side over it. */
  lemma StrandedOutput(s: State)
    requires s.phase == Connected && Strands(s, StopWrite) && !s.flags.dissByPeer
    ensures Runs(s, [StopWrite, Shutdown]) && !ShutsEmpty(Run(s, [StopWrite, Shutdown]).shuts)
  {
    var t := Step(s, StopWrite);
    var u := Step(t, Shutdown);
    var v := t.(flags := t.flags.(closeFlag := true), phase := Disconnecting);
    assert t.phase == Connected && !t.channel.write && !t.flags.dissByPeer;
    assert u == ShutDown(t) == ShutdownNow(v) == WriteShut(v);
    assert u.shuts[|s.shuts|] == Shut(Disconnecting, s.stream.output, s.stream.sock);
    assert [StopWrite, Shutdown][1..] == [Shutdown] && [Shutdown][1..] == [];
    hide Step;
    assert Runs(u, []) && Run(u, []) == u;
    assert Runs(t, [Shutdown]) && Run(t, [Shutdown]) == u;
  }

  /** Every shutdown of a connection that was not down yet came after the last byte that was ever taken over. */
  predicate FinalInv(s: State) {
    && (s.shuts != [] ==> Rank(s.phase) >= 2)
    && (forall i :: 0 <= i < |s.shuts| && s.shuts[i].phase != Disconnected ==>
          s.shuts[i].sent == Accepted(s.stream.log))
  }

  /** The write side of a connection that was not down has been shut. */
  predicate WriteSideShut(s: State) {
    exists i :: 0 <= i < |s.shuts| && s.shuts[i].phase != Disconnected
  }

  /** A queued message is taken over after that. */
  predicate TakesLate(s: State, op: Op)
    requires Enabled(s, op)
  {
    && op.RunFunctor? && s.tasks.functors[0].RunSend? && s.tasks.functors[0].message != []
    && WriteSideShut(s) && Kept(s, op.io)
  }

  /** A shutdown adds at most one record, of the state that it finds. */
  lemma ShutdownNowShuts(s: State)
    requires s.phase != Connected
    ensures var t := ShutdownNow(s);
            || t.shuts == s.shuts
            || (!s.channel.write && t.shuts == s.shuts + [Shut(s.phase, s.stream.output, s.stream.sock)])
  {
    CloseIs(WriteShut(s));
    hide Closed;
  }

  lemma ShutdownNowFinal(s: State)
    requires FinalInv(s) && Intact(s.stream) && Rank(s.phase) >= 2
    requires s.phase != Disconnected && s.stream.output != [] ==> s.channel.write
    ensures FinalInv(ShutdownNow(s))
  {
    ShutdownNowShuts(s);
    ShutdownNowKeepsStream(s);
    hide ShutdownNow, Accepted;
    assert s.stream.output == [] ==> s.stream.sock == Accepted(s.stream.log);
  }

  lemma CloseFinal(s: State)
    requires FinalInv(s) && DrainInv(s) && Intact(s.stream) && Rank(s.phase) >= 1
    ensures FinalInv(Closed(s))
  {
    CloseIs(s);
    hide Closed, Accepted;
    assert s.stream.output == [] ==> s.stream.sock == Accepted(s.stream.log);
  }

  lemma WrittenFinal(s: State, io: WriteResult)
    requires FinalInv(s) && DrainInv(s) && Intact(s.stream) && Enabled(s, Writable(io))
    ensures FinalInv(Written(s, io))
  {
    if s.channel.write && io.Wrote? && io.n > 0 {
      var stream := Stream(s.stream.output[io.n..], s.stream.sock + s.stream.output[..io.n], s.stream.log);
      var t := s.(stream := stream, channel := Updated(s.channel, s.channel.read, false));
      assert s.stream.output == s.stream.output[..io.n] + s.stream.output[io.n..];
      hide Accepted;
      assert Intact(stream);
      if s.phase == Disconnecting && stream.output == [] {
        ShutdownNowFinal(t);
      }
      hide ShutdownNow;
    }
  }

  lemma SentFinalExactly(s: State, message: Bytes, io: WriteResult)
    requires FinalInv(s) && Possible(io, |message|)
    ensures FinalInv(Sent(s, message, io)) <==> !(message != [] && WriteSideShut(s) && Kept(s, io))
  {
    AcceptedGrows(s.stream.log, Offer(message, Kept(s, io)));
    var r := Sent(s, message, io);
    hide Accepted, Rest, Kept;
    if WriteSideShut(s) && Kept(s, io) && message != [] {
      var i :| 0 <= i < |s.shuts| && s.shuts[i].phase != Disconnected;
      assert |Accepted(r.stream.log)| > |Accepted(s.stream.log)|;
      assert r.shuts[i] == s.shuts[i];
    } else if !WriteSideShut(s) {
      assert forall i :: 0 <= i < |r.shuts| ==> r.shuts[i].phase == Disconnected;
    } else {
      assert Accepted(r.stream.log) == Accepted(s.stream.log);
    }
  }

  lemma RunFirstFinalExactly(s: State, io: WriteResult)
    requires FinalInv(s) && DrainInv(s) && CloseInv(s) && Intact(s.stream) && CanRun(s, io)
    ensures FinalInv(RunFirst(s, io)) <==> !TakesLate(s, RunFunctor(io))
  {
    hide ShutdownNow, Closed, Accepted, Intact, Sent;
    var t := Popped(s);
    assert t.stream == s.stream && t.shuts == s.shuts;
    match s.tasks.functors[0]
    case RunSend(message) => SentFinalExactly(t, message, io);
    case RunShutdown => ShutdownNowFinal(t);
    case RunForceClose =>
      if Live(s) {
        CloseIs(t.(flags := t.flags.(closeFlag := true, forceFlag := true)));
      }
  }

  /** A step keeps that if and only if it does not take a message over late. */
  lemma StepFinalExactly(s: State, op: Op)
    requires FinalInv(s) && DrainInv(s) && CloseInv(s) && Intact(s.stream) && Enabled(s, op)
    ensures FinalInv(Step(s, op)) <==> !TakesLate(s, op)
  {
    hide Closed, ShutdownNow, Written, RunFirst, Accepted, Intact, Sent, Kept;
    match op
    case RunFunctor(io) => RunFirstFinalExactly(s, io);
    case Send(message, io) =>
      if s.phase == Connected {
        SentFinalExactly(s, message, io);
      }
    case PeerCloses => CloseFinal(s);
    case Shutdown =>
      if s.phase == Connected {
        ShutdownNowFinal(s.(flags := s.flags.(closeFlag := true), phase := Disconnecting));
      }
    case Writable(io) => WrittenFinal(s, io);
    case _ =>
  }

  // ---------------------------------------------------------------- sends of the loop thread

  predicate NoSendQueued(s: State) {
    forall f :: f in s.tasks.functors ==> !f.RunSend?
  }

  lemma NoneLate(s: State, op: Op)
    requires NoSendQueued(s) && Enabled(s, op)
    ensures !TakesLate(s, op)
  {
    assert op.RunFunctor? ==> s.tasks.functors[0] in s.tasks.functors;
  }

  lemma StepQueuesNoSend(s: State, op: Op)
    requires NoSendQueued(s) && Enabled(s, op) && !op.CrossSend?
    ensures NoSendQueued(Step(s, op))
  {
    hide Closed, ShutdownNow, Rest, Kept;
    match op
    case RunFunctor(io) =>
      var t := Popped(s);
      ShutdownNowKeepsStream(t);
      CloseKeepsStream(t.(flags := t.flags.(closeFlag := true, forceFlag := true)));
    case PeerCloses => CloseKeepsStream(s);
    case Shutdown => ShutdownNowKeepsStream(s.(flags := s.flags.(closeFlag := true), phase := Disconnecting));
    case Writable(io) =>
      forall t: State
        ensures ShutdownNow(t).tasks == t.tasks
      {
        ShutdownNowKeepsStream(t);
      }
    case _ =>
  }

  lemma {:induction false} RunFinal(s: State, ops: seq<Op>)
    requires FinalInv(s) && DrainInv(s) && CloseInv(s) && Intact(s.stream) && NoSendQueued(s)
    requires BehavedRun(s, ops) && StopWrite !in ops && forall op :: op in ops ==> !op.CrossSend?
    ensures Runs(s, ops) && FinalInv(Run(s, ops))
    decreases |ops|
  {
    if ops != [] {
      NoneLate(s, ops[0]);
      StepQueuesNoSend(s, ops[0]);
      StepFinalExactly(s, ops[0]);
      StepIntact(s, ops[0]);
      StepDrainsExactly(s, ops[0]);
      StepExactly(s, ops[0]);
      hide FinalInv, CloseInv, DrainInv, Intact, Step, Enabled, Behaved, TakesLate, NoSendQueued;
      RunFinal(Step(s, ops[0]), ops[1..]);
    }
  }

  /** With sends from the loop thread, such a shutdown comes after all the output that is ever taken over. */
  lemma ShutdownIsFinal(ops: seq<Op>)
    requires BehavedRun(NEW, ops) && StopWrite !in ops && forall op :: op in ops ==> !op.CrossSend?
    ensures Runs(NEW, ops)
    ensures var s := Run(NEW, ops);
            forall i :: 0 <= i < |s.shuts| && s.shuts[i].phase != Disconnected ==>
                          s.shuts[i].sent == Accepted(s.stream.log)
  {
    assert CloseInv(NEW) && DrainInv(NEW) && Intact(NEW.stream) && FinalInv(NEW);
    hide CloseInv, DrainInv, Intact;
    RunFinal(NEW, ops);
  }

  // ---------------------------------------------------------------- sends of any thread

  /** A socket whose write side is shut answers write(2) with EPIPE. */
  predicate Documented(s: State, op: Op) {
    WriteSideShut(s) ==>
      match op
      case Send(_, io) => s.phase == Connected && Direct(s) ==> io == BrokenPipe
      case RunFunctor(io) => s.tasks.functors != [] && s.tasks.functors[0].RunSend? && Direct(s) ==> io == BrokenPipe
      case Writable(io) => s.channel.write ==> io == BrokenPipe
      case _ => true
  }

  predicate DocumentedRun(s: State, ops: seq<Op>)
    requires Runs(s, ops)
    decreases |ops|
  {
    ops == [] || (Documented(s, ops[0]) && DocumentedRun(Step(s, ops[0]), ops[1..]))
  }

  /**
   A message that sendInLoop gets is taken over, unless the peer breaks the pipe, if and only if the connection is not
   down and, if its write side is shut, the message is not written at once because startWrite has been called.
   */
  lemma KeptExactly(s: State, message: Bytes, io: WriteResult)
    requires Possible(io, |message|) && (Direct(s) ==> (io == BrokenPipe <==> WriteSideShut(s)))
    ensures Sent(s, message, io).stream.log == s.stream.log + [Offer(message, Kept(s, io))]
    ensures Kept(s, io) <==> s.phase != Disconnected && !(WriteSideShut(s) && Direct(s))
  {
    hide WriteSideShut, Rest;
  }

  /** Nothing waits to be written once the write side is shut, so the next message would be written at once. */
  predicate QuietInv(s: State) {
    WriteSideShut(s) && s.phase != Disconnected ==> Direct(s)
  }

  /** So a message that is queued then is dropped. */
  lemma QuietDropsLate(s: State, op: Op)
    requires QuietInv(s) && Enabled(s, op) && Documented(s, op)
    ensures !TakesLate(s, op)
  {
    hide WriteSideShut;
  }

  lemma ShutdownNowQuiet(s: State)
    requires QuietInv(s) && Rank(s.phase) >= 2
    requires s.phase != Disconnected && s.stream.output != [] ==> s.channel.write
    ensures QuietInv(ShutdownNow(s))
  {
    ShutdownNowShuts(s);
    ShutdownNowKeepsStream(s);
    LiveKeepsChannel(s);
    hide ShutdownNow;
    var t := ShutdownNow(s);
    if t.shuts != s.shuts {
      assert s.phase != Disconnected ==> Direct(s);
    }
  }

  lemma SentQuiet(s: State, message: Bytes, io: WriteResult)
    requires QuietInv(s) && Possible(io, |message|) && (WriteSideShut(s) && Direct(s) ==> io == BrokenPipe)
    ensures QuietInv(Sent(s, message, io))
  {
    var r := Sent(s, message, io);
    assert WriteSideShut(r) == WriteSideShut(s);
    hide WriteSideShut;
  }

  lemma WrittenQuiet(s: State, io: WriteResult)
    requires QuietInv(s) && DrainInv(s) && CloseInv(s) && Enabled(s, Writable(io))
    ensures QuietInv(Written(s, io))
  {
    if s.channel.write && io.Wrote? && io.n > 0 {
      var stream := Stream(s.stream.output[io.n..], s.stream.sock + s.stream.output[..io.n], s.stream.log);
      var t := s.(stream := stream, channel := Updated(s.channel, s.channel.read, false));
      assert WriteSideShut(t) == WriteSideShut(s);
      if s.phase == Disconnecting && stream.output == [] {
        ShutdownNowQuiet(t);
      }
      assert WriteSideShut(s.(stream := stream)) == WriteSideShut(s);
      hide ShutdownNow, WriteSideShut;
    }
  }

  lemma StepQuiet(s: State, op: Op)
    requires QuietInv(s) && FinalInv(s) && DrainInv(s) && CloseInv(s)
    requires Enabled(s, op) && Documented(s, op) && op != StartWrite
    ensures QuietInv(Step(s, op))
  {
    hide Closed, ShutdownNow, Written, Sent, Accepted;
    match op
    case RunFunctor(io) =>
      var t := Popped(s);
      assert WriteSideShut(t) == WriteSideShut(s);
      match s.tasks.functors[0] {
        case RunSend(message) => SentQuiet(t, message, io);
        case RunShutdown => ShutdownNowQuiet(t);
        case RunForceClose => CloseIs(t.(flags := t.flags.(closeFlag := true, forceFlag := true)));
      }
    case Send(message, io) =>
      if s.phase == Connected {
        SentQuiet(s, message, io);
      }
    case PeerCloses => CloseIs(s);
    case Shutdown =>
      if s.phase == Connected {
        ShutdownNowQuiet(s.(flags := s.flags.(closeFlag := true), phase := Disconnecting));
      }
    case Writable(io) => WrittenQuiet(s, io);
    case _ =>
  }

  lemma {:induction false} RunFinalForAll(s: State, ops: seq<Op>)
    requires FinalInv(s) && QuietInv(s) && DrainInv(s) && CloseInv(s) && Intact(s.stream)
    requires BehavedRun(s, ops) && StopWrite !in ops && StartWrite !in ops && Runs(s, ops) && DocumentedRun(s, ops)
    ensures FinalInv(Run(s, ops))
    decreases |ops|
  {
    if ops != [] {
      QuietDropsLate(s, ops[0]);
      StepQuiet(s, ops[0]);
      StepFinalExactly(s, ops[0]);
      StepIntact(s, ops[0]);
      StepDrainsExactly(s, ops[0]);
      StepExactly(s, ops[0]);
      hide FinalInv, QuietInv, CloseInv, DrainInv, Intact, Step, Enabled, Behaved, Documented, TakesLate;
      RunFinalForAll(Step(s, ops[0]), ops[1..]);
    }
  }

  /** So it does with sends from any thread, if a shut socket answers as documented and startWrite is not called. */
  lemma ShutdownIsFinalForAll(ops: seq<Op>)
    requires BehavedRun(NEW, ops) && Runs(NEW, ops) && DocumentedRun(NEW, ops)
    requires StopWrite !in ops && StartWrite !in ops
    ensures var s := Run(NEW, ops);
            forall i :: 0 <= i < |s.shuts| && s.shuts[i].phase != Disconnected ==>
                          s.shuts[i].sent == Accepted(s.stream.log)
  {
    assert CloseInv(NEW) && DrainInv(NEW) && Intact(NEW.stream) && FinalInv(NEW) && QuietInv(NEW);
    hide CloseInv, DrainInv, Intact, QuietInv;
    RunFinalForAll(NEW, ops);
  }

  /** For instance a send of another thread that runs after the write side is shut: it is dropped. */
  lemma CrossSendComesLate(s: State, message: Bytes)
    requires s.phase == Connected && Direct(s) && !s.flags.dissByPeer && s.tasks.functors == []
    ensures var ops := [CrossSend(message), Shutdown, RunFunctor(BrokenPipe)];
            && Runs(s, ops) && Run(s, ops).stream.log == s.stream.log + [Offer(message, false)]
            && Run(s, ops).shuts == s.shuts + [Shut(Disconnecting, [], s.stream.sock)]
  {
    var t := Step(s, CrossSend(message));
    assert t.tasks.functors == [RunSend(message)];
    var u := Step(t, Shutdown);
    var v := t.(flags := t.flags.(closeFlag := true), phase := Disconnecting);
    assert u == ShutDown(t) == ShutdownNow(v) == WriteShut(v);
    var w := Step(u, RunFunctor(BrokenPipe));
    assert w == Sent(Popped(u), message, BrokenPipe);
    var ops := [CrossSend(message), Shutdown, RunFunctor(BrokenPipe)];
    assert ops[1..] == [Shutdown, RunFunctor(BrokenPipe)] && ops[1..][1..] == [RunFunctor(BrokenPipe)];
    assert [RunFunctor(BrokenPipe)][1..] == [];
    hide Step, Enabled, Sent, ShutDown, ShutdownNow;
    assert Runs(w, []) && Run(w, []) == w;
    assert Runs(u, [RunFunctor(BrokenPipe)]) && Run(u, [RunFunctor(BrokenPipe)]) == w;
    assert Runs(t, ops[1..]) && Run(t, ops[1..]) == w;
  }

  // ---------------------------------------------------------------- output that is abandoned

  /** The step takes the connection down with output in the buffer. */
  predicate Abandons(s: State, op: Op)
    requires Enabled(s, op)
  {
    var r := Step(s, op);
    Live(s) && r.phase == Disconnected && r.stream.output != []
  }

  /**
   Output is abandoned exactly by a forced close, by connectDestroyed, by a close of the peer after the connection has
   been shut down or the peer has closed before, or by one that finds the output not waited for after stopWrite.
   */
  lemma AbandonsExactly(s: State, op: Op)
    requires CloseInv(s) && Enabled(s, op) && Live(s)
    ensures Abandons(s, op) <==>
            && s.stream.output != []
            && (|| (op == Destroy && s.phase == Connected)
                || (op == PeerCloses && (s.flags.closeFlag || (s.phase == Connected && !s.channel.write)))
                || (op.RunFunctor? && s.tasks.functors[0] == RunForceClose))
  {
    hide Closed, ShutdownNow, Written, Sent;
    match op
    case RunFunctor(io) =>
      PoppedKeepsInv(s);
      CloseIs(Popped(s).(flags := s.flags.(closeFlag := true, forceFlag := true)));
      LivesOn(Popped(s));
      SentPhase(s, io);
    case PeerCloses => CloseIs(s);
    case Shutdown => LivesOn(s.(flags := s.flags.(closeFlag := true), phase := Disconnecting));
    case Writable(io) => DrainedFirst(s, io);
    case Send(message, io) => assert Sent(s, message, io).phase == s.phase by { SentStays(s, message, io); }
    case _ =>
  }

  lemma SentStays(s: State, message: Bytes, io: WriteResult)
    requires Possible(io, |message|)
    ensures Sent(s, message, io).phase == s.phase
  {
  }

  lemma SentPhase(s: State, io: WriteResult)
    requires CanRun(s, io)
    ensures s.tasks.functors[0].RunSend? ==> RunFirst(s, io).phase == s.phase
  {
    hide Rest, Kept;
  }

  /** Without a close by the peer, shutting down does not take the connection down. */
  lemma LivesOn(s: State)
    ensures !s.flags.dissByPeer ==> ShutdownNow(s).phase == s.phase
  {
    hide Closed;
  }

  /** handleWrite goes on to close only with an empty buffer. */
  lemma DrainedFirst(s: State, io: WriteResult)
    requires Enabled(s, Writable(io)) && Live(s)
    ensures Written(s, io).phase == Disconnected ==> Written(s, io).stream.output == []
  {
    hide ShutdownNow;
    forall t: State
      ensures ShutdownNow(t).stream == t.stream
    {
      ShutdownNowKeepsStream(t);
    }
  }

  lemma ClosesTwice(b: State)
    requires b.phase == Connected && b.channel.write && !b.flags.closeFlag
    ensures Runs(b, [PeerCloses, PeerCloses])
    ensures var r := Run(b, [PeerCloses, PeerCloses]); r.phase == Disconnected && r.stream == b.stream
  {
    CloseIs(b);
    var c := Step(b, PeerCloses);
    assert c.phase == Disconnecting && c.flags.closeFlag && c.stream == b.stream;
    CloseIs(c);
    var d := Step(c, PeerCloses);
    assert d.phase == Disconnected && d.stream == b.stream;
    hide Step, Closed;
    assert [PeerCloses, PeerCloses][1..] == [PeerCloses] && [PeerCloses][1..] == [];
    assert Runs(d, []) && Run(d, []) == d;
    assert Runs(c, [PeerCloses]) && Run(c, [PeerCloses]) == d;
  }

  /** For instance an end of file that is reported twice, as a level-triggered poller does, over a blocked message. */
  lemma SecondEndOfFileAbandons(message: Bytes)
    requires message != []
    ensures var ops := [Establish, Send(message, WouldBlock), PeerCloses, PeerCloses];
            && Runs(NEW, ops) && Run(NEW, ops).phase == Disconnected
            && Run(NEW, ops).stream == Stream(message, [], [Offer(message, true)])
  {
    var a := Step(NEW, Establish);
    var b := Step(a, Send(message, WouldBlock));
    assert b.phase == Connected && b.channel.write && !b.flags.closeFlag;
    assert b.stream == Stream(message, [], [Offer(message, true)]);
    ClosesTwice(b);
    hide Step;
    var ops := [Establish, Send(message, WouldBlock), PeerCloses, PeerCloses];
    assert ops[1..] == [Send(message, WouldBlock), PeerCloses, PeerCloses] && ops[1..][1..] == [PeerCloses, PeerCloses];
    assert Runs(a, ops[1..]) && Run(a, ops[1..]) == Run(b, [PeerCloses, PeerCloses]);
  }

  // ---------------------------------------------------------------- the poller below

  /** kReadEvent and kWriteEvent. */
  function Events(read: bool, write: bool): nat {
    (if read then 3 else 0) + (if write then 4 else 0)
  }

  /** An fd is watched after an update, and not after a removal, exactly if an EPollPoller has the kernel watch it. */
  lemma WatchedByEpoll(c: Channel, read: bool, write: bool, e: Pollers.EpollState, fd: int)
    requires Pollers.EpollInv(e) && (c.watched <==> fd in e.kernel)
    ensures Updated(c, read, write).watched <==> fd in Pollers.EpollUpdated(e, fd, Events(read, write)).kernel
    ensures fd in e.index ==> fd !in Pollers.EpollRemoved(e, fd).kernel
  {
  }

  /** After startWrite on a connection whose write side is shut, a queued message is taken over for nothing. */
  lemma StartWriteTakesLate(s: State, message: Bytes, io: WriteResult)
    requires s.phase == Disconnecting && WriteSideShut(s) && Direct(s) && message != [] && Possible(io, |message|)
    requires s.tasks.functors == [RunSend(message)]
    ensures Enabled(Step(s, StartWrite), RunFunctor(io)) && TakesLate(Step(s, StartWrite), RunFunctor(io))
  {
    var t := Step(s, StartWrite);
    assert t.shuts == s.shuts && t.channel.write;
    assert WriteSideShut(t);
  }
}
