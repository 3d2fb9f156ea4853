/**
 What each call and event of a connection brings about: the bytes that move, the callbacks, and the closes to come.
 */
module TcpEffects {

  import opened NetworkOrder
  import opened TcpSpec
  import opened TcpTheorems

  // ---------------------------------------------------------------- what the socket gets

  /** The message or buffer that the step gives to write(2), if it calls it. */
  predicate GivesMessage(s: State, op: Op, message: Bytes) {
    match op
    case Send(m, _) => s.phase == Connected && Direct(s) && m == message
    case RunFunctor(_) =>
      s.tasks.functors != [] && s.tasks.functors[0] == RunSend(message) && s.phase != Disconnected && Direct(s)
    case Writable(_) => s.channel.write && s.stream.output == message
    case _ => false
  }

  function AnswerOf(op: Op): WriteResult {
    match op
    case Send(_, io) => io
    case RunFunctor(io) => io
    case Writable(io) => io
    case _ => WouldBlock
  }

  lemma SentGains(s: State, message: Bytes, io: WriteResult)
    requires Possible(io, |message|)
    ensures var gained := s.phase != Disconnected && Direct(s) && io.Wrote?;
            Sent(s, message, io).stream.sock == s.stream.sock + if gained then message[..io.n] else []
  {
    if Kept(s, io) && !(Direct(s) && io.Wrote?) {
      assert message[..0] == [];
    }
  }

  lemma WrittenGains(s: State, io: WriteResult)
    requires Possible(io, |s.stream.output|)
    ensures var gained := s.channel.write && io.Wrote?;
            Written(s, io).stream.sock == s.stream.sock + if gained then s.stream.output[..io.n] else []
  {
    hide ShutdownNow;
    forall t: State
      ensures ShutdownNow(t).stream == t.stream
    {
      ShutdownNowKeepsStream(t);
    }
  }

  /** The socket gains exactly the bytes that write(2) took of what it was given, and nothing otherwise. */
  lemma SocketGains(s: State, op: Op)
    requires Enabled(s, op)
    ensures forall message :: GivesMessage(s, op, message) && AnswerOf(op).Wrote? ==>
              AnswerOf(op).n <= |message| && Step(s, op).stream.sock == s.stream.sock + message[..AnswerOf(op).n]
    ensures (forall message :: !GivesMessage(s, op, message)) || !AnswerOf(op).Wrote? ==>
              Step(s, op).stream.sock == s.stream.sock
  {
    hide Sent, Written, Closed, ShutdownNow;
    match op
    case Send(message, io) =>
      SentGains(s, message, io);
      assert GivesMessage(s, op, message) <==> s.phase == Connected && Direct(s);
    case RunFunctor(io) =>
      var t := Popped(s);
      if s.tasks.functors[0].RunSend? {
        SentGains(t, s.tasks.functors[0].message, io);
        assert GivesMessage(s, op, s.tasks.functors[0].message) <==> s.phase != Disconnected && Direct(s);
      }
      ShutdownNowKeepsStream(t);
      CloseKeepsStream(t.(flags := t.flags.(closeFlag := true, forceFlag := true)));
    case PeerCloses => CloseKeepsStream(s);
    case Shutdown => ShutdownNowKeepsStream(s.(flags := s.flags.(closeFlag := true), phase := Disconnecting));
    case Writable(io) =>
      WrittenGains(s, io);
      assert GivesMessage(s, op, s.stream.output) <==> s.channel.write;
    case _ =>
  }

  /** Once the buffer is drained, handleWrite waits no longer; before that it does. */
  lemma WriteInterestExactly(s: State, io: WriteResult)
    requires CloseInv(s) && Enabled(s, Writable(io)) && s.channel.write && io.Wrote? && io.n > 0
    ensures var r := Step(s, Writable(io));
            r.stream.output == s.stream.output[io.n..] && (r.channel.write <==> r.stream.output != [])
  {
    hide ShutdownNow;
    forall t: State
      ensures ShutdownNow(t).stream == t.stream && (!t.channel.write ==> !ShutdownNow(t).channel.write)
    {
      ShutdownNowKeepsStream(t);
      ShutdownStaysOff(t);
    }
  }

  lemma ShutdownStaysOff(t: State)
    ensures !t.channel.write ==> !ShutdownNow(t).channel.write
  {
    CloseIs(WriteShut(t));
    hide Closed;
  }

  // ---------------------------------------------------------------- going down

  /** The buffer is written to the end while the peer waits for the close. */
  predicate DrainsForPeer(s: State, io: WriteResult) {
    && s.channel.write && s.stream.output != [] && io == Wrote(|s.stream.output|)
    && s.phase == Disconnecting && s.flags.dissByPeer && s.flags.closeFlag
  }

  /** When a step takes a live connection down. */
  predicate TakesDown(s: State, op: Op) {
    match op
    case Destroy => s.phase == Connected
    case PeerCloses => s.flags.closeFlag || (s.phase == Connected && !s.channel.write)
    case RunFunctor(_) => s.tasks.functors != [] && s.tasks.functors[0] == RunForceClose
    case Writable(io) => DrainsForPeer(s, io)
    case _ => false
  }

  /** The step took the connection down, and told its owner unless the owner asked for it. */
  predicate WentDown(s: State, r: State, tells: bool) {
    && r.phase == Disconnected && r.record.downs == s.record.downs + 1
    && r.record.closes == s.record.closes + (if tells then 1 else 0)
  }

  predicate StayedUp(s: State, r: State) {
    r.phase != Disconnected && r.record.downs == s.record.downs && r.record.closes == s.record.closes
  }

  lemma CloseTakesDown(s: State)
    requires Live(s)
    ensures var r := Closed(s);
            if s.flags.closeFlag || (s.phase == Connected && !s.channel.write) then WentDown(s, r, true)
            else StayedUp(s, r)
  {
    CloseIs(s);
    hide Closed;
  }

  lemma ShutdownNowTakesDown(s: State)
    requires s.phase == Disconnecting
    ensures var r := ShutdownNow(s);
            if !s.channel.write && s.flags.dissByPeer && s.flags.closeFlag then WentDown(s, r, true)
            else StayedUp(s, r)
  {
    if !s.channel.write && s.flags.dissByPeer {
      CloseTakesDown(WriteShut(s));
    }
    hide Closed;
  }

  lemma WrittenTakesDown(s: State, io: WriteResult)
    requires Live(s) && Possible(io, |s.stream.output|)
    ensures var r := Written(s, io);
            if DrainsForPeer(s, io) then WentDown(s, r, true) else StayedUp(s, r)
  {
    if s.channel.write && io.Wrote? && io.n > 0 {
      var stream := Stream(s.stream.output[io.n..], s.stream.sock + s.stream.output[..io.n], s.stream.log);
      var t := s.(stream := stream, channel := Updated(s.channel, s.channel.read, false));
      assert stream.output == [] <==> io.n == |s.stream.output|;
      if s.phase == Disconnecting {
        ShutdownNowTakesDown(t);
      }
      hide ShutdownNow;
    }
  }

  /**
   A live connection goes down exactly by connectDestroyed, by a forced close, by a close of the peer that finds nothing
   to wait for, or when the output that such a close waited for is written. DOWN is reported then and only then, and
   the close callback is called, except to the owner that called connectDestroyed.
   */
  lemma GoesDownExactly(s: State, op: Op)
    requires CloseInv(s) && Enabled(s, op) && Live(s)
    ensures var r := Step(s, op);
            if TakesDown(s, op) then WentDown(s, r, op != Destroy) else StayedUp(s, r)
  {
    hide Closed, ShutdownNow, Written, Sent;
    match op
    case RunFunctor(io) =>
      PoppedKeepsInv(s);
      match s.tasks.functors[0] {
        case RunSend(message) => SentKeepsRecord(Popped(s), message, io);
        case RunShutdown => ShutdownNowTakesDown(Popped(s));
        case RunForceClose => CloseTakesDown(Popped(s).(flags := s.flags.(closeFlag := true, forceFlag := true)));
      }
    case Send(message, io) => SentKeepsRecord(s, message, io);
    case PeerCloses => CloseTakesDown(s);
    case Shutdown =>
      if s.phase == Connected {
        ShutdownNowTakesDown(s.(flags := s.flags.(closeFlag := true), phase := Disconnecting));
      }
    case Writable(io) => WrittenTakesDown(s, io);
    case _ =>
  }

  lemma SentKeepsRecord(s: State, message: Bytes, io: WriteResult)
    requires Possible(io, |message|)
    ensures Sent(s, message, io).phase == s.phase && Sent(s, message, io).record == s.record
  {
  }

  lemma OthersStayQuiet(s: State, op: Op)
    requires CloseInv(s) && Enabled(s, op) && Behaved(s, op) && !Live(s)
    ensures var r := Step(s, op); r.record.closes == s.record.closes && r.record.downs == s.record.downs
  {
    hide Closed, ShutdownNow, Written;
    match op
    case RunFunctor(io) =>
      PoppedKeepsInv(s);
      if s.tasks.functors[0] == RunShutdown {
        ShutdownNowTells(Popped(s));
      }
    case Writable(io) => assert Written(s, io) == s by { NotWriting(s, io); }
    case _ =>
  }

  lemma NotWriting(s: State, io: WriteResult)
    requires !s.channel.write && Possible(io, |s.stream.output|)
    ensures Written(s, io) == s
  {
  }

  lemma ShutdownNowTells(s: State)
    requires !s.flags.dissByPeer
    ensures ShutdownNow(s).record == s.record
  {
    hide Closed;
  }

  /** Over every behaved run in which the owner does not destroy it, the owner is told of a close exactly once. */
  lemma {:induction false} OwnerIsTold(s: State, ops: seq<Op>)
    requires CloseInv(s) && BehavedRun(s, ops) && Destroy !in ops && s.record.closes == s.record.downs
    ensures Runs(s, ops) && Run(s, ops).record.closes == Run(s, ops).record.downs
    ensures Run(s, ops).record.closes == if Run(s, ops).phase == Disconnected then 1 else 0
    decreases |ops|
  {
    if ops != [] {
      StepExactly(s, ops[0]);
      if Live(s) {
        GoesDownExactly(s, ops[0]);
      } else {
        OthersStayQuiet(s, ops[0]);
      }
      hide CloseInv, Step, Enabled, Behaved, TakesDown;
      OwnerIsTold(Step(s, ops[0]), ops[1..]);
    }
  }

  /**
   Over any behaved run no assertion fails, DOWN comes once, and the close callback at most once, and exactly once with
   it unless the owner destroys the connection.
   */
  lemma CloseProtocol(ops: seq<Op>)
    requires BehavedRun(NEW, ops)
    ensures Runs(NEW, ops)
    ensures var s := Run(NEW, ops);
            && !s.record.failed
            && s.record.downs == (if s.phase == Disconnected then 1 else 0)
            && s.record.closes <= 1 && (Destroy !in ops ==> s.record.closes == s.record.downs)
            && (s.phase == Disconnected ==> !s.channel.watched)
  {
    RunKeepsInv(NEW, ops);
    if Destroy !in ops {
      OwnerIsTold(NEW, ops);
    }
  }

  /** So the protocol holds over any mix of sends, shutdowns, forced and delayed closes and closes by the peer. */
  lemma PlainCloseProtocol(ops: seq<Op>)
    requires PlainRun(NEW, ops)
    ensures Runs(NEW, ops)
    ensures var s := Run(NEW, ops);
            && !s.record.failed
            && s.record.downs == (if s.phase == Disconnected then 1 else 0)
            && s.record.closes <= 1 && (Destroy !in ops ==> s.record.closes == s.record.downs)
  {
    assert CloseInv(NEW);
    hide CloseInv;
    PlainIsBehaved(NEW, ops);
    CloseProtocol(ops);
  }

  /**
   After any close, now or later, a live connection is no longer kConnected, so it takes no new sends or shutdowns.
   */
  lemma ClosingStopsSends(s: State, op: Op, next: Op)
    requires CloseInv(s) && Live(s) && op in {Shutdown, CrossShutdown, ForceClose, ForceCloseWithDelay, PeerCloses}
    requires op == PeerCloses ==> s.phase == Connected
    requires next.Send? || next.CrossSend? || next in {Shutdown, CrossShutdown}
    ensures Rank(Step(s, op).phase) >= 2
    ensures Enabled(Step(s, op), next) ==> Step(Step(s, op), next) == Step(s, op)
  {
    if op == Shutdown && s.phase == Connected {
      ShutdownNowKeepsStream(s.(flags := s.flags.(closeFlag := true), phase := Disconnecting));
    }
    if op == PeerCloses {
      CloseIs(s);
    }
    hide Closed, ShutdownNow, Sent, Written;
  }

  /** connectDestroyed takes the fd out of the poller and cannot come again. */
  lemma DestroyIsFinal(s: State)
    requires Enabled(s, Destroy)
    ensures var r := Step(s, Destroy);
            !r.channel.watched && r.record.destroyed && !Enabled(r, Destroy) && r.phase != Connected
  {
  }

  // ---------------------------------------------------------------- closes to come

  /** The connection is down, or a forced close is queued or waits for its delay. */
  predicate WillBeForced(s: State) {
    s.phase == Disconnected || RunForceClose in s.tasks.functors || s.tasks.delayed > 0
  }

  lemma QueueKeepsForced(s: State, op: Op)
    requires CloseInv(s) && Enabled(s, op) && RunForceClose in s.tasks.functors
    ensures Step(s, op).phase == Disconnected || RunForceClose in Step(s, op).tasks.functors
  {
    hide Closed, ShutdownNow, Rest, Kept;
    match op
    case RunFunctor(io) =>
      var t := Popped(s);
      ShutdownNowKeepsStream(t);
      assert RunForceClose in t.tasks.functors || s.tasks.functors[0] == RunForceClose;
      if Live(t) && s.tasks.functors[0] == RunForceClose {
        CloseTakesDown(t.(flags := t.flags.(closeFlag := true, forceFlag := true)));
      }
    case PeerCloses => CloseKeepsStream(s);
    case Shutdown => ShutdownNowKeepsStream(s.(flags := s.flags.(closeFlag := true), phase := Disconnecting));
    case Writable(io) =>
      forall t: State
        ensures ShutdownNow(t).tasks == t.tasks
      {
        ShutdownNowKeepsStream(t);
      }
    case _ =>
  }

  lemma StepKeepsForced(s: State, op: Op)
    requires CloseInv(s) && Enabled(s, op) && WillBeForced(s)
    ensures WillBeForced(Step(s, op))
  {
    StepIsForward(s, op);
    if RunForceClose in s.tasks.functors {
      QueueKeepsForced(s, op);
    } else if s.tasks.delayed > 0 {
      DelayStays(s, op);
    }
    hide Step, Enabled;
  }

  lemma DelayStays(s: State, op: Op)
    requires CloseInv(s) && Enabled(s, op) && s.tasks.delayed > 0
    ensures WillBeForced(Step(s, op))
  {
    hide Closed, ShutdownNow, Rest, Kept;
    match op
    case RunFunctor(io) =>
      var t := Popped(s);
      ShutdownNowKeepsStream(t);
      CloseKeepsStream(t.(flags := t.flags.(closeFlag := true, forceFlag := true)));
    case PeerCloses => CloseKeepsStream(s);
    case Shutdown => ShutdownNowKeepsStream(s.(flags := s.flags.(closeFlag := true), phase := Disconnecting));
    case Writable(io) =>
      forall t: State
        ensures ShutdownNow(t).tasks == t.tasks
      {
        ShutdownNowKeepsStream(t);
      }
    case _ =>
  }

  lemma {:induction false} RunKeepsForced(s: State, ops: seq<Op>)
    requires CloseInv(s) && WillBeForced(s) && BehavedRun(s, ops)
    ensures Runs(s, ops) && WillBeForced(Run(s, ops))
    decreases |ops|
  {
    if ops != [] {
      StepExactly(s, ops[0]);
      StepKeepsForced(s, ops[0]);
      hide CloseInv, WillBeForced, Step, Enabled, Behaved;
      RunKeepsForced(Step(s, ops[0]), ops[1..]);
    }
  }

  /**
   A forced close, delayed or not, is never forgotten: with nothing queued and no delay left the connection is down.
   */
  lemma ForceCloseIsCarriedOut(s: State, op: Op, ops: seq<Op>)
    requires CloseInv(s) && Live(s) && op in {ForceClose, ForceCloseWithDelay} && BehavedRun(Step(s, op), ops)
    ensures Runs(Step(s, op), ops)
    ensures var r := Run(Step(s, op), ops);
            r.tasks.delayed == 0 && RunForceClose !in r.tasks.functors ==> r.phase == Disconnected
  {
    StepExactly(s, op);
    assert WillBeForced(Step(s, op));
    hide CloseInv, Step;
    RunKeepsForced(Step(s, op), ops);
  }

  /** Only a forced close sets forceFlag_, which has connectDestroyed close the socket. */
  lemma ForceFlagExactly(s: State, op: Op)
    requires CloseInv(s) && Enabled(s, op) && Live(s)
    ensures Step(s, op).flags.forceFlag <==> op.RunFunctor? && s.tasks.functors[0] == RunForceClose
  {
    hide Closed, ShutdownNow, Written, Sent;
    match op
    case RunFunctor(io) =>
      match s.tasks.functors[0] {
        case RunSend(message) => SentKeepsFlags(Popped(s), message, io);
        case RunShutdown => ShutdownNowKeepsForce(Popped(s));
        case RunForceClose => CloseKeepsForce(Popped(s).(flags := s.flags.(closeFlag := true, forceFlag := true)));
      }
    case Send(message, io) => SentKeepsFlags(s, message, io);
    case PeerCloses => CloseKeepsForce(s);
    case Shutdown => ShutdownNowKeepsForce(s.(flags := s.flags.(closeFlag := true), phase := Disconnecting));
    case Writable(io) => WrittenKeepsForce(s, io);
    case _ =>
  }

  lemma SentKeepsFlags(s: State, message: Bytes, io: WriteResult)
    requires Possible(io, |message|)
    ensures Sent(s, message, io).flags == s.flags
  {
  }

  lemma CloseKeepsForce(s: State)
    ensures Closed(s).flags.forceFlag == s.flags.forceFlag
    ensures s.flags.closeFlag ==> Closed(s).flags.closeFlag
  {
    CloseIs(s);
    hide Closed;
  }

  lemma ShutdownNowKeepsForce(s: State)
    ensures ShutdownNow(s).flags.forceFlag == s.flags.forceFlag
    ensures s.flags.closeFlag ==> ShutdownNow(s).flags.closeFlag
  {
    CloseKeepsForce(WriteShut(s));
    hide Closed;
  }

  lemma WrittenKeepsForce(s: State, io: WriteResult)
    requires Possible(io, |s.stream.output|)
    ensures Written(s, io).flags.forceFlag == s.flags.forceFlag
    ensures s.flags.closeFlag ==> Written(s, io).flags.closeFlag
  {
    hide ShutdownNow;
    forall t: State
      ensures ShutdownNow(t).flags.forceFlag == t.flags.forceFlag
      ensures t.flags.closeFlag ==> ShutdownNow(t).flags.closeFlag
    {
      ShutdownNowKeepsForce(t);
    }
  }

  lemma StepKeepsCloseFlag(s: State, op: Op)
    requires Enabled(s, op) && s.flags.closeFlag
    ensures Step(s, op).flags.closeFlag
  {
    hide Closed, ShutdownNow, Written, Sent;
    match op
    case RunFunctor(io) =>
      var t := Popped(s);
      if s.tasks.functors[0].RunSend? {
        SentKeepsFlags(t, s.tasks.functors[0].message, io);
      }
      ShutdownNowKeepsForce(t);
      CloseKeepsForce(t.(flags := t.flags.(closeFlag := true, forceFlag := true)));
    case Send(message, io) => SentKeepsFlags(s, message, io);
    case PeerCloses => CloseKeepsForce(s);
    case Shutdown => ShutdownNowKeepsForce(s.(flags := s.flags.(closeFlag := true), phase := Disconnecting));
    case Writable(io) => WrittenKeepsForce(s, io);
    case _ =>
  }

  lemma {:induction false} RunKeepsCloseFlag(s: State, ops: seq<Op>)
    requires Runs(s, ops) && s.flags.closeFlag
    ensures Run(s, ops).flags.closeFlag
    decreases |ops|
  {
    if ops != [] {
      StepKeepsCloseFlag(s, ops[0]);
      hide Step, Enabled;
      RunKeepsCloseFlag(Step(s, ops[0]), ops[1..]);
    }
  }

  lemma ShutdownBegins(s: State, op: Op)
    requires CloseInv(s) && DrainInv(s) && s.phase == Connected && op in {Shutdown, CrossShutdown}
    ensures var r := Step(s, op);
            CloseInv(r) && DrainInv(r) && r.flags.closeFlag && Rank(r.phase) >= 2
  {
    StepExactly(s, op);
    StepDrainsExactly(s, op);
    hide Closed, ShutdownNow, CloseInv, DrainInv;
    var t := s.(flags := s.flags.(closeFlag := true), phase := Disconnecting);
    ShutdownNowKeepsForce(t);
    ShutdownNowKeepsStream(t);
  }

  /**
   A shutdown of a connected connection, from either thread, is never forgotten: without stopWrite, and unless the
   connection is down, the write side is shut, or the call is queued, or it waits for the channel to be writable.
   */
  lemma ShutdownIsCarriedOut(s: State, op: Op, ops: seq<Op>)
    requires CloseInv(s) && DrainInv(s) && s.phase == Connected && op in {Shutdown, CrossShutdown}
    requires BehavedRun(Step(s, op), ops) && StopWrite !in ops
    ensures Runs(Step(s, op), ops)
    ensures var r := Run(Step(s, op), ops);
            || r.phase == Disconnected
            || (r.phase == Disconnecting && (r.shuts != [] || r.channel.write || RunShutdown in r.tasks.functors))
  {
    ShutdownBegins(s, op);
    var t := Step(s, op);
    hide CloseInv, Step;
    RunDrains(t, ops);
    RunKeepsCloseFlag(t, ops);
    NeverBackwards(t, ops);
  }

  // ---------------------------------------------------------------- queued calls

  /** The call that the step queues in the loop, if any. */
  function QueuedBy(s: State, op: Op): seq<Functor> {
    match op
    case CrossSend(message) => if s.phase == Connected then [RunSend(message)] else []
    case CrossShutdown => if s.phase == Connected then [RunShutdown] else []
    case ForceClose | DelayFires => if s.phase in {Connected, Disconnecting} then [RunForceClose] else []
    case _ => []
  }

  /** The queued call that the step runs, if any. */
  function RunBy(s: State, op: Op): seq<Functor>
    requires Enabled(s, op)
  {
    if op.RunFunctor? then [s.tasks.functors[0]] else []
  }

  function QueuedByAll(s: State, ops: seq<Op>): seq<Functor>
    requires Runs(s, ops)
    decreases |ops|
  {
    if ops == [] then [] else QueuedBy(s, ops[0]) + QueuedByAll(Step(s, ops[0]), ops[1..])
  }

  function RunByAll(s: State, ops: seq<Op>): seq<Functor>
    requires Runs(s, ops)
    decreases |ops|
  {
    if ops == [] then [] else RunBy(s, ops[0]) + RunByAll(Step(s, ops[0]), ops[1..])
  }

  lemma SentTasks(s: State, message: Bytes, io: WriteResult)
    requires Possible(io, |message|)
    ensures Sent(s, message, io).tasks == s.tasks
  {
  }

  lemma WrittenTasks(s: State, io: WriteResult)
    requires Possible(io, |s.stream.output|)
    ensures Written(s, io).tasks == s.tasks
  {
    hide ShutdownNow;
    forall t: State
      ensures ShutdownNow(t).tasks == t.tasks
    {
      ShutdownNowKeepsStream(t);
    }
  }

  /** A delayed close waits from its call on a live connection until its delay has passed, once. */
  lemma DelaysExactly(s: State, op: Op)
    requires Enabled(s, op)
    ensures Step(s, op).tasks.delayed ==
            match op
            case ForceCloseWithDelay => s.tasks.delayed + (if s.phase in {Connected, Disconnecting} then 1 else 0)
            case DelayFires => s.tasks.delayed - 1
            case _ => s.tasks.delayed
  {
    hide Closed, ShutdownNow, Sent, Written;
    match op
    case RunFunctor(io) =>
      var t := Popped(s);
      ShutdownNowKeepsStream(t);
      CloseKeepsStream(t.(flags := t.flags.(closeFlag := true, forceFlag := true)));
      if s.tasks.functors[0].RunSend? {
        SentTasks(t, s.tasks.functors[0].message, io);
      }
    case Send(message, io) => SentTasks(s, message, io);
    case PeerCloses => CloseKeepsStream(s);
    case Shutdown => ShutdownNowKeepsStream(s.(flags := s.flags.(closeFlag := true), phase := Disconnecting));
    case Writable(io) => WrittenTasks(s, io);
    case _ =>
  }

  lemma StepQueues(s: State, op: Op)
    requires Enabled(s, op)
    ensures s.tasks.functors + QueuedBy(s, op) == RunBy(s, op) + Step(s, op).tasks.functors
  {
    hide Closed, ShutdownNow, Sent, Written;
    match op
    case RunFunctor(io) =>
      var t := Popped(s);
      ShutdownNowKeepsStream(t);
      CloseKeepsStream(t.(flags := t.flags.(closeFlag := true, forceFlag := true)));
      if s.tasks.functors[0].RunSend? {
        SentTasks(t, s.tasks.functors[0].message, io);
      }
    case Send(message, io) => SentTasks(s, message, io);
    case PeerCloses => CloseKeepsStream(s);
    case Shutdown => ShutdownNowKeepsStream(s.(flags := s.flags.(closeFlag := true), phase := Disconnecting));
    case Writable(io) => WrittenTasks(s, io);
    case _ =>
  }

  /** Calls queued in the loop run once each, in the order in which they were queued. */
  lemma {:induction false} CallsRunInOrder(s: State, ops: seq<Op>)
    requires Runs(s, ops)
    ensures s.tasks.functors + QueuedByAll(s, ops) == RunByAll(s, ops) + Run(s, ops).tasks.functors
    decreases |ops|
  {
    if ops != [] {
      var t := Step(s, ops[0]);
      StepQueues(s, ops[0]);
      hide Step, Enabled, QueuedBy, RunBy;
      CallsRunInOrder(t, ops[1..]);
      Regroup(s.tasks.functors, QueuedBy(s, ops[0]), QueuedByAll(t, ops[1..]),
              RunBy(s, ops[0]), t.tasks.functors, RunByAll(t, ops[1..]), Run(s, ops).tasks.functors);
    }
  }

  lemma Regroup(first: seq<Functor>, queued: seq<Functor>, laterQueued: seq<Functor>,
                run: seq<Functor>, middle: seq<Functor>, laterRun: seq<Functor>, last: seq<Functor>)
    requires first + queued == run + middle && middle + laterQueued == laterRun + last
    ensures first + (queued + laterQueued) == run + laterRun + last
  {
    assert first + (queued + laterQueued) == first + queued + laterQueued;
    assert run + middle + laterQueued == run + (middle + laterQueued);
    assert run + (laterRun + last) == run + laterRun + last;
  }
}
