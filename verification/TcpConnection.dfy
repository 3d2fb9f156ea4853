/** netLayer/tcp/TcpConnection.h and TcpConnection.cpp. Each method is proved to make the step of the specification. */
module TcpConnections {

  import opened NetworkOrder
  import opened TcpSpec

  lemma GivesUp(s: State, message: Bytes, io: WriteResult)
    requires s.phase == Disconnected && Possible(io, |message|)
    ensures !Kept(s, io) && Rest(s, message, io) == []
  {
  }

  class TcpConnection {
    var state: Phase
    var closeFlag: bool
    var forceFlag: bool
    var dissByPeer: bool
    var reading: bool
    var channel: Channel
    var output: Bytes

    // The socket, the loop and the user, as far as the connection acts on them.
    var sock: Bytes
    var log: seq<Offer>
    var shuts: seq<Shut>
    var functors: seq<Functor>
    var delayed: nat
    var record: Record

    ghost function View(): State
      reads this
    {
      State(state, Flags(closeFlag, forceFlag, dissByPeer, reading), channel, Stream(output, sock, log), shuts,
            Tasks(functors, delayed), record)
    }

    constructor ()
      ensures View() == NEW
    {
      state, channel := Connecting, Channel(false, false, false);
      closeFlag, forceFlag, dissByPeer, reading := false, false, false, true;
      output, sock, log, shuts, functors, delayed := [], [], [], [], [], 0;
      record := Record(0, 0, 0, false, false);
    }

    // ---------------------------------------------------------------- output

    /** From another thread the message is copied and queued. */
    method Send(inLoop: bool, message: Bytes, io: WriteResult)
      requires Possible(io, |message|)
      modifies this
      ensures View() == Step(old(View()), if inLoop then Op.Send(message, io) else CrossSend(message))
    {
      hide Sent;
      if state == Connected {
        if inLoop {
          SendInLoop(message, io);
        } else {
          functors := functors + [RunSend(message)];
        }
      }
    }

    /** `io` is what write(2) answers if the message is written at once. */
    method SendInLoop(message: Bytes, io: WriteResult)
      requires Possible(io, |message|)
      modifies this`output, this`sock, this`log, this`channel
      ensures View() == Sent(old(View()), message, io)
    {
      hide Rest, Kept, Updated, Direct;
      if state == Disconnected {
        GivesUp(View(), message, io);
        log := log + [Offer(message, false)];
        return;
      }
      var nwrote, faultError := WriteDirectly(message, io);
      var remaining := |message| - nwrote;
      assert |message[nwrote..]| == remaining;
      if !faultError && remaining > 0 {
        AppendOutput(message[nwrote..]);
      }
      log := log + [Offer(message, !faultError)];
    }

    /** Buffers what could not be written, and waits until it can. */
    method AppendOutput(rest: Bytes)
      modifies this`output, this`channel
      ensures output == old(output) + rest
      ensures channel == if old(channel).write then old(channel) else Updated(old(channel), old(channel).read, true)
    {
      output := output + rest;
      if !channel.write {
        channel := Updated(channel, channel.read, true);
      }
    }

    /** If nothing is in the output buffer, tries to write at once. */
    method WriteDirectly(message: Bytes, io: WriteResult) returns (nwrote: nat, faultError: bool)
      requires state != Disconnected && Possible(io, |message|)
      modifies this`sock
      ensures nwrote <= |message| && faultError == !Kept(old(View()), io)
      ensures Rest(old(View()), message, io) == if faultError then [] else message[nwrote..]
      ensures sock == old(sock) + message[..nwrote] && (faultError ==> nwrote == 0)
    {
      nwrote, faultError := 0, false;
      if !channel.write && |output| == 0 {
        if io.Wrote? {
          nwrote := io.n;
          sock := sock + message[..nwrote];
        } else if io != WouldBlock {
          if io == BrokenPipe {
            faultError := true;
          }
        }
      }
      assert message[0..] == message;
    }

    method HandleWrite(io: WriteResult)
      requires Possible(io, |output|)
      modifies this
      ensures View() == Written(old(View()), io)
    {
      hide ShutdownNow;
      if channel.write && io.Wrote? && io.n > 0 {
        sock, output := sock + output[..io.n], output[io.n..];
        if |output| == 0 {
          channel := Updated(channel, channel.read, false);
          if state == Disconnecting {
            ShutdownInLoop();
          }
        }
      }
    }

    // ---------------------------------------------------------------- closing

    method Shutdown(inLoop: bool)
      modifies this
      ensures View() == if inLoop then ShutDown(old(View())) else Step(old(View()), CrossShutdown)
      decreases 2
    {
      if state == Connected {
        closeFlag := true;
        state := Disconnecting;
        if inLoop {
          ShutdownInLoop();
        } else {
          functors := functors + [RunShutdown];
        }
      }
    }

    method ShutdownInLoop()
      modifies this
      ensures View() == ShutdownNow(old(View()))
      decreases if closeFlag then 1 else 4
    {
      if !channel.write {
        shuts := shuts + [Shut(state, output, sock)];
        if dissByPeer {
          HandleClose();
        }
      }
    }

    /** The assertion of the source is recorded, so that every run can be followed to its end. */
    method HandleClose()
      modifies this
      ensures View() == Closed(old(View()))
      decreases if closeFlag then 0 else 3
    {
      if !(state == Connected || state == Disconnecting) {
        record := record.(failed := true);
      }
      if closeFlag {
        state := Disconnected;
        channel := Updated(channel, false, false);
        record := record.(downs := record.downs + 1);
        record := record.(closes := record.closes + 1);
      } else {
        dissByPeer := true;
        Shutdown(true);
      }
    }

    /** `n` is what reading the socket answers; only the end of file touches this state. */
    method HandleRead(n: int)
      modifies this
      ensures View() == if n == 0 then Closed(old(View())) else old(View())
    {
      if n == 0 {
        HandleClose();
      }
    }

    method ForceClose()
      modifies this`state, this`functors
      ensures View() == ForceClosed(old(View()))
    {
      if state == Connected || state == Disconnecting {
        state := Disconnecting;
        functors := functors + [RunForceClose];
      }
    }

    method ForceCloseWithDelay()
      modifies this`state, this`delayed
      ensures View() == Step(old(View()), Op.ForceCloseWithDelay)
    {
      if state == Connected || state == Disconnecting {
        state := Disconnecting;
        delayed := delayed + 1;
      }
    }

    method ForceCloseInLoop()
      modifies this
      ensures View() == ForceClosedNow(old(View()))
    {
      hide Closed;
      if state == Connected || state == Disconnecting {
        closeFlag := true;
        forceFlag := true;
        HandleClose();
      }
    }

    // ---------------------------------------------------------------- interest

    method StartReadInLoop()
      modifies this`channel, this`reading
      ensures View() == Switched(old(View()), StartRead)
    {
      if !reading || !channel.read {
        channel := Updated(channel, true, channel.write);
        reading := true;
      }
    }

    method StopReadInLoop()
      modifies this`channel, this`reading
      ensures View() == Switched(old(View()), StopRead)
    {
      if reading || channel.read {
        channel := Updated(channel, false, channel.write);
        reading := false;
      }
    }

    method StartWriteInLoop()
      modifies this`channel
      ensures View() == Switched(old(View()), StartWrite)
    {
      if !channel.write {
        channel := Updated(channel, channel.read, true);
      }
    }

    method StopWriteInLoop()
      modifies this`channel
      ensures View() == Switched(old(View()), StopWrite)
    {
      if channel.write {
        channel := Updated(channel, channel.read, false);
      }
    }

    // ---------------------------------------------------------------- life

    method ConnectEstablished()
      requires state == Connecting
      modifies this`state, this`channel, this`record
      ensures View() == Established(old(View()))
    {
      state := Connected;
      channel := Updated(channel, true, channel.write);
      record := record.(ups := record.ups + 1);
    }

    method ConnectDestroyed()
      modifies this`state, this`channel, this`record
      ensures View() == Destroyed(old(View()))
    {
      if state == Connected {
        state := Disconnected;
        channel := Updated(channel, false, false);
        record := record.(downs := record.downs + 1);
      }
      if channel.read || channel.write {
        record := record.(failed := true);
      }
      channel := channel.(watched := false);
      record := record.(destroyed := true);
    }

    /** The loop runs the functor that was queued first. */
    method RunQueued(io: WriteResult)
      requires CanRun(View(), io)
      modifies this
      ensures View() == RunFirst(old(View()), io)
    {
      hide Sent, ShutdownNow, Closed;
      var f := functors[0];
      functors := functors[1..];
      match f
      case RunSend(message) => SendInLoop(message, io);
      case RunShutdown => ShutdownInLoop();
      case RunForceClose => ForceCloseInLoop();
    }

    /** Any run of calls and events takes the object where the specification goes, from the first state on. */
    method Perform(op: Op)
      requires Enabled(View(), op)
      modifies this
      ensures View() == Step(old(View()), op)
    {
      hide Sent, ShutdownNow, Closed, ShutDown, Written, RunFirst, Switched, ForceClosed, Established, Destroyed;
      match op
      case Establish => ConnectEstablished();
      case Destroy => ConnectDestroyed();
      case Send(message, io) => Send(true, message, io);
      case CrossSend(message) => Send(false, message, WouldBlock);
      case Shutdown => Shutdown(true);
      case CrossShutdown => Shutdown(false);
      case ForceClose => ForceClose();
      case ForceCloseWithDelay => ForceCloseWithDelay();
      case DelayFires =>
        delayed := delayed - 1;
        ForceClose();
      case StartRead => StartReadInLoop();
      case StopRead => StopReadInLoop();
      case StartWrite => StartWriteInLoop();
      case StopWrite => StopWriteInLoop();
      case RunFunctor(io) => RunQueued(io);
      case PeerCloses => HandleRead(0);
      case Writable(io) => HandleWrite(io);
    }

    method PerformAll(ops: seq<Op>)
      requires Runs(View(), ops)
      modifies this
      ensures View() == Run(old(View()), ops)
    {
      hide Step, Enabled;
      var i := 0;
      while i < |ops|
        invariant 0 <= i <= |ops| && Runs(View(), ops[i..])
        invariant Run(View(), ops[i..]) == Run(old(View()), ops)
      {
        assert ops[i..][0] == ops[i] && ops[i..][1..] == ops[i + 1..];
        Perform(ops[i]);
        i := i + 1;
      }
    }
  }
}
