/**
 netLayer/tcp/TcpConnection.cpp: the output byte stream and the close protocol of a connection, as a machine whose steps
 are the calls of its methods. The user's callbacks only make further calls, so each of those is a step of its own.
 */
module TcpSpec {

  import opened NetworkOrder

  datatype Phase = Connecting | Connected | Disconnecting | Disconnected

  /** What write(2) answers; BrokenPipe stands for EPIPE and ECONNRESET. */
  datatype WriteResult = Wrote(n: nat) | WouldBlock | BrokenPipe | OtherError

  /** Calls that other threads, or forceClose, have queued in the loop. */
  datatype Functor = RunSend(message: Bytes) | RunShutdown | RunForceClose

  /** A message given to sendInLoop, and whether it was taken over. */
  datatype Offer = Offer(message: Bytes, kept: bool)

  /** A shutdown of the write side: the phase it came in, what was still buffered, and what was on the socket. */
  datatype Shut = Shut(phase: Phase, pending: Bytes, sent: Bytes)

  /** Channel interest, and whether the kernel watches the fd (EPollPoller watches even an empty set after an ADD). */
  datatype Channel = Channel(read: bool, write: bool, watched: bool)

  datatype Flags = Flags(closeFlag: bool, forceFlag: bool, dissByPeer: bool, reading: bool)

  /** What is buffered, what the socket took, and what sendInLoop was given. */
  datatype Stream = Stream(output: Bytes, sock: Bytes, log: seq<Offer>)

  datatype Tasks = Tasks(functors: seq<Functor>, delayed: nat)

  /** Callbacks made, and whether an assertion of the source did not hold. */
  datatype Record = Record(ups: nat, downs: nat, closes: nat, destroyed: bool, failed: bool)

  datatype State = State(
    phase: Phase, flags: Flags, channel: Channel, stream: Stream, shuts: seq<Shut>, tasks: Tasks, record: Record)

  const NEW := State(Connecting, Flags(false, false, false, true), Channel(false, false, false), Stream([], [], []), [],
                     Tasks([], 0), Record(0, 0, 0, false, false))

  predicate Live(s: State) {
    s.phase == Connected || s.phase == Disconnecting
  }

  function Rank(p: Phase): nat {
    match p
    case Connecting => 0
    case Connected => 1
    case Disconnecting => 2
    case Disconnected => 3
  }

  /** The bytes of the messages that were taken over. */
  function Accepted(log: seq<Offer>): Bytes {
    if log == [] then []
    else
      var last := log[|log| - 1];
      Accepted(log[..|log| - 1]) + if last.kept then last.message else []
  }

  /** Channel::update on an EPollPoller: an unwatched fd is added, a watched one that asks for nothing is deleted. */
  function Updated(c: Channel, read: bool, write: bool): Channel {
    Channel(read, write, !c.watched || read || write)
  }

  // ---------------------------------------------------------------- output

  predicate Possible(io: WriteResult, size: nat) {
    io.Wrote? ==> io.n <= size
  }

  /** Whether sendInLoop writes to the socket itself. */
  predicate Direct(s: State) {
    !s.channel.write && s.stream.output == []
  }

  predicate Kept(s: State, io: WriteResult) {
    s.phase != Disconnected && !(Direct(s) && io == BrokenPipe)
  }

  /** The part of the message that goes to the output buffer. */
  function Rest(s: State, message: Bytes, io: WriteResult): Bytes
    requires Possible(io, |message|)
  {
    if !Kept(s, io) then [] else if Direct(s) && io.Wrote? then message[io.n..] else message
  }

  function Sent(s: State, message: Bytes, io: WriteResult): State
    requires Possible(io, |message|)
  {
    var rest := Rest(s, message, io);
    var first := if Kept(s, io) then message[..|message| - |rest|] else [];
    s.(stream := Stream(s.stream.output + rest, s.stream.sock + first, s.stream.log + [Offer(message, Kept(s, io))]),
       channel := if rest == [] || s.channel.write then s.channel else Updated(s.channel, s.channel.read, true))
  }

  function Written(s: State, io: WriteResult): State
    requires Possible(io, |s.stream.output|)
  {
    if !s.channel.write || !io.Wrote? || io.n == 0 then s
    else
      var output := s.stream.output[io.n..];
      var stream := s.stream.(sock := s.stream.sock + s.stream.output[..io.n], output := output);
      if output != [] then s.(stream := stream)
      else
        var t := s.(stream := stream, channel := Updated(s.channel, s.channel.read, false));
        if s.phase == Disconnecting then ShutdownNow(t) else t
  }

  // ---------------------------------------------------------------- closing

  /** The state is kDisconnected, the channel is off and the connection callback has run. */
  function Disconnect(s: State, closing: nat): State {
    s.(phase := Disconnected, channel := Updated(s.channel, false, false),
       record := s.record.(downs := s.record.downs + 1, closes := s.record.closes + closing))
  }

  function Asserted(s: State, holds: bool): State {
    s.(record := s.record.(failed := s.record.failed || !holds))
  }

  /** handleClose, shutdown and shutdownInLoop call each other; closeFlag bounds the recursion. */
  function Closed(s: State): State
    decreases if s.flags.closeFlag then 0 else 3
  {
    var t := Asserted(s, Live(s));
    if s.flags.closeFlag then Disconnect(t, 1)
    else ShutDown(t.(flags := t.flags.(dissByPeer := true)))
  }

  function ShutDown(s: State): State
    decreases 2
  {
    if s.phase == Connected then ShutdownNow(s.(flags := s.flags.(closeFlag := true), phase := Disconnecting)) else s
  }

  function ShutdownNow(s: State): State
    decreases if s.flags.closeFlag then 1 else 4
  {
    if s.channel.write then s
    else if s.flags.dissByPeer then Closed(WriteShut(s))
    else WriteShut(s)
  }

  function WriteShut(s: State): State {
    s.(shuts := s.shuts + [Shut(s.phase, s.stream.output, s.stream.sock)])
  }

  function Queued(s: State, f: Functor): State {
    s.(tasks := s.tasks.(functors := s.tasks.functors + [f]))
  }

  function ForceClosed(s: State): State {
    if Live(s) then Queued(s, RunForceClose).(phase := Disconnecting) else s
  }

  function ForceClosedNow(s: State): State {
    if Live(s) then Closed(s.(flags := s.flags.(closeFlag := true, forceFlag := true))) else s
  }

  function Established(s: State): State {
    var t := Asserted(s, s.phase == Connecting);
    t.(phase := Connected, channel := Updated(s.channel, true, s.channel.write),
       record := t.record.(ups := s.record.ups + 1))
  }

  /** Channel::remove asserts that no interest is left. */
  function Destroyed(s: State): State {
    var t := if s.phase == Connected then Disconnect(s, 0) else s;
    var u := Asserted(t, !t.channel.read && !t.channel.write);
    u.(record := u.record.(destroyed := true), channel := t.channel.(watched := false))
  }

  // ---------------------------------------------------------------- steps

  datatype Op =
    | Establish | Destroy
    | Send(message: Bytes, io: WriteResult) | CrossSend(message: Bytes)
    | Shutdown | CrossShutdown
    | ForceClose | ForceCloseWithDelay | DelayFires
    | StartRead | StopRead | StartWrite | StopWrite      // as they run in the loop
    | RunFunctor(io: WriteResult)
    | PeerCloses                                         // handleRead reads nothing, or the poller reports a hang-up
    | Writable(io: WriteResult)

  predicate CanRun(s: State, io: WriteResult) {
    var fs := s.tasks.functors;
    fs != [] && (fs[0].RunSend? ==> Possible(io, |fs[0].message|))
  }

  /** What callers and the kernel can do. An event may be a stale one of the same round while the connection lives. */
  predicate Enabled(s: State, op: Op) {
    match op
    case Establish => s.phase == Connecting
    case Destroy => s.phase != Connecting && !s.record.destroyed
    case Send(message, io) => Possible(io, |message|)
    case DelayFires => s.tasks.delayed > 0
    case RunFunctor(io) => CanRun(s, io)
    case PeerCloses => s.channel.watched || Live(s)
    case Writable(io) => Possible(io, |s.stream.output|)
    case _ => true
  }

  predicate IsSwitch(op: Op) {
    op in {StartRead, StopRead, StartWrite, StopWrite}
  }

  /** startRead, stopRead, startWrite or stopWrite that change the channel's interest. */
  predicate Touches(s: State, op: Op) {
    match op
    case StartRead => !s.flags.reading || !s.channel.read
    case StopRead => s.flags.reading || s.channel.read
    case StartWrite => !s.channel.write
    case StopWrite => s.channel.write
    case _ => false
  }

  function Switched(s: State, op: Op): State {
    if !Touches(s, op) then s
    else
      match op
      case StartRead => s.(channel := Updated(s.channel, true, s.channel.write), flags := s.flags.(reading := true))
      case StopRead => s.(channel := Updated(s.channel, false, s.channel.write), flags := s.flags.(reading := false))
      case StartWrite => s.(channel := Updated(s.channel, s.channel.read, true))
      case StopWrite => s.(channel := Updated(s.channel, s.channel.read, false))
      case _ => s
  }

  /** The state without its first functor. */
  function Popped(s: State): State
    requires s.tasks.functors != []
  {
    s.(tasks := s.tasks.(functors := s.tasks.functors[1..]))
  }

  function RunFirst(s: State, io: WriteResult): State
    requires CanRun(s, io)
  {
    match s.tasks.functors[0]
    case RunSend(message) => Sent(Popped(s), message, io)
    case RunShutdown => ShutdownNow(Popped(s))
    case RunForceClose => ForceClosedNow(Popped(s))
  }

  function Step(s: State, op: Op): State
    requires Enabled(s, op)
  {
    match op
    case Establish => Established(s)
    case Destroy => Destroyed(s)
    case Send(message, io) => if s.phase == Connected then Sent(s, message, io) else s
    case CrossSend(message) => if s.phase == Connected then Queued(s, RunSend(message)) else s
    case Shutdown => ShutDown(s)
    case CrossShutdown =>
      if s.phase == Connected
      then Queued(s, RunShutdown).(flags := s.flags.(closeFlag := true), phase := Disconnecting)
      else s
    case ForceClose => ForceClosed(s)
    case ForceCloseWithDelay =>
      if Live(s) then s.(phase := Disconnecting, tasks := s.tasks.(delayed := s.tasks.delayed + 1)) else s
    case DelayFires => ForceClosed(s.(tasks := s.tasks.(delayed := s.tasks.delayed - 1)))
    case StartRead | StopRead | StartWrite | StopWrite => Switched(s, op)
    case RunFunctor(io) => RunFirst(s, io)
    case PeerCloses => Closed(s)
    case Writable(io) => Written(s, io)
  }

  predicate Runs(s: State, ops: seq<Op>)
    decreases |ops|
  {
    ops == [] || (Enabled(s, ops[0]) && Runs(Step(s, ops[0]), ops[1..]))
  }

  function Run(s: State, ops: seq<Op>): State
    requires Runs(s, ops)
    decreases |ops|
  {
    if ops == [] then s else Run(Step(s, ops[0]), ops[1..])
  }

  // ---------------------------------------------------------------- what a close does, without the recursion

  function ClosedAtOnce(s: State): State {
    var t := Asserted(s, Live(s));
    if s.flags.closeFlag then Disconnect(t, 1)
    else if s.phase != Connected then t.(flags := t.flags.(dissByPeer := true))
    else
      var u := t.(flags := t.flags.(dissByPeer := true, closeFlag := true), phase := Disconnecting);
      if s.channel.write then u else Disconnect(WriteShut(u), 1)
  }

  lemma CloseIs(s: State)
    ensures Closed(s) == ClosedAtOnce(s)
  {
    if !s.flags.closeFlag && s.phase == Connected {
      var t := Asserted(s, true);
      t := t.(flags := t.flags.(dissByPeer := true));
      var u := t.(flags := t.flags.(closeFlag := true), phase := Disconnecting);
      assert Closed(s) == ShutDown(t) == ShutdownNow(u);
      assert !s.channel.write ==> ShutdownNow(u) == Closed(WriteShut(u));
    }
  }

  /** What neither a close nor a shutdown changes. */
  predicate SameStream(s: State, t: State) {
    t.stream == s.stream && t.tasks == s.tasks
  }

  lemma CloseKeepsStream(s: State)
    ensures SameStream(s, Closed(s))
    ensures Rank(Closed(s).phase) >= Rank(s.phase)
  {
    CloseIs(s);
    hide Closed;
  }

  lemma ShutdownNowKeepsStream(s: State)
    ensures SameStream(s, ShutdownNow(s))
    ensures Rank(ShutdownNow(s).phase) >= Rank(s.phase)
  {
    CloseKeepsStream(WriteShut(s));
    hide Closed;
  }
}
