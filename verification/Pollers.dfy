/**
 netLayer/poller/PollPoller.cpp and netLayer/poller/EpollPoller.cpp: two ways of keeping what each channel is
 interested in, proved to be the same map from file descriptors to events.
 */
module Pollers {

  /** netLayer/event/Channel.h, as far as a poller sees it. */
  class Channel {
    const fd: nat
    var events: nat
    var revents: int
    var index: int

    constructor (fd: nat)
      ensures this.fd == fd && events == 0 && index == NEW
    {
      this.fd := fd;
      events, revents, index := 0, 0, NEW;
    }
  }

  const NEW := -1
  const ADDED := 1
  const DELETED := 2

  // ---------------------------------------------------------------- the map that both implement

  /** Registered fds and what each asks for, possibly nothing. */
  type Interest = map<int, nat>

  datatype Op = Update(fd: int, events: nat) | Remove(fd: int)

  /** Owners register a channel with some interest first, and disable it before removing it. */
  predicate OpOk(interest: Interest, op: Op) {
    match op
    case Update(fd, events) => fd >= 0 && (fd in interest || events != 0)
    case Remove(fd) => fd in interest && interest[fd] == 0
  }

  function AfterOp(interest: Interest, op: Op): Interest {
    match op
    case Update(fd, events) => interest[fd := events]
    case Remove(fd) => interest - {fd}
  }

  predicate Legal(interest: Interest, ops: seq<Op>)
    decreases |ops|
  {
    ops == [] || (OpOk(interest, ops[0]) && Legal(AfterOp(interest, ops[0]), ops[1..]))
  }

  function AfterOps(interest: Interest, ops: seq<Op>): Interest
    decreases |ops|
  {
    if ops == [] then interest else AfterOps(AfterOp(interest, ops[0]), ops[1..])
  }

  /** Interest that is not empty; an fd without any need not be watched. */
  function NonEmpty(interest: Interest): Interest {
    map fd | fd in interest && interest[fd] != 0 :: interest[fd]
  }

  // ---------------------------------------------------------------- poll

  datatype PollFd = PollFd(fd: int, events: nat)

  /** An ignored slot holds -fd-1, which is negative for fd 0 too. */
  function Ignored(fd: int): int {
    -fd - 1
  }

  function Owner(slotFd: int): int {
    if slotFd < 0 then Ignored(slotFd) else slotFd
  }

  /** The slots, and where each fd has its own. */
  datatype PollState = PollState(slots: seq<PollFd>, index: map<int, int>)

  /** Slots and fds are in bijection: each fd knows its slot, and each slot its fd. */
  predicate Bijection(p: PollState) {
    && (forall fd :: fd in p.index ==> fd >= 0 && 0 <= p.index[fd] < |p.slots| && Owner(p.slots[p.index[fd]].fd) == fd)
    && (forall i :: 0 <= i < |p.slots| ==> Owner(p.slots[i].fd) in p.index && p.index[Owner(p.slots[i].fd)] == i)
  }

  /** What poll(2) watches: the slots that are not negative and ask for something. */
  function Watched(slots: seq<PollFd>): Interest {
    if slots == [] then map[]
    else
      var w, last := Watched(slots[..|slots| - 1]), slots[|slots| - 1];
      if last.fd >= 0 && last.events != 0 then w[last.fd := last.events] else w
  }

  function SlotFor(fd: int, events: nat): PollFd {
    PollFd(if events == 0 then Ignored(fd) else fd, events)
  }

  function PollUpdated(p: PollState, fd: int, events: nat): PollState
    requires Bijection(p)
  {
    if fd in p.index then p.(slots := p.slots[p.index[fd] := SlotFor(fd, events)])
    else PollState(p.slots + [PollFd(fd, events)], p.index[fd := |p.slots|])
  }

  /** Swap with the last slot, then drop the last slot. */
  function SwapRemoved(slots: seq<PollFd>, i: int): seq<PollFd>
    requires 0 <= i < |slots|
  {
    slots[i := slots[|slots| - 1]][..|slots| - 1]
  }

  function PollRemoved(p: PollState, fd: int): PollState
    requires Bijection(p) && fd in p.index
  {
    var last := Owner(p.slots[|p.slots| - 1].fd);
    PollState(SwapRemoved(p.slots, p.index[fd]),
              if last == fd then p.index - {fd} else (p.index - {fd})[last := p.index[fd]])
  }

  lemma UpdateKeepsBijection(p: PollState, fd: int, events: nat)
    requires Bijection(p) && fd >= 0
    ensures Bijection(PollUpdated(p, fd, events))
  {
    var q := PollUpdated(p, fd, events);
    if fd in p.index {
      assert forall i :: 0 <= i < |p.slots| && i != p.index[fd] ==> q.slots[i] == p.slots[i];
    } else {
      assert forall i :: 0 <= i < |p.slots| ==> q.slots[i] == p.slots[i];
      assert q.slots[|p.slots|] == PollFd(fd, events);
    }
  }

  lemma RemoveKeepsBijection(p: PollState, fd: int)
    requires Bijection(p) && fd in p.index
    ensures Bijection(PollRemoved(p, fd))
    ensures PollRemoved(p, fd).index.Keys == p.index.Keys - {fd}
    ensures var q := PollRemoved(p, fd);
            forall f :: f in q.index ==> f in p.index && q.slots[q.index[f]] == p.slots[p.index[f]]
  {
    var q := PollRemoved(p, fd);
    var i, last := p.index[fd], |p.slots| - 1;
    assert forall j :: 0 <= j < last && j != i ==> q.slots[j] == p.slots[j];
    assert i != last ==> q.slots[i] == p.slots[last];
    forall f | f in p.index && f != fd
      ensures f in q.index && 0 <= q.index[f] < last && q.slots[q.index[f]] == p.slots[p.index[f]]
    {
    }
    forall j | 0 <= j < last
      ensures Owner(q.slots[j].fd) in q.index && q.index[Owner(q.slots[j].fd)] == j
    {
    }
  }

  /** Every registered fd has the slot that its interest calls for. */
  predicate PollHolds(p: PollState, interest: Interest) {
    && Bijection(p)
    && p.index.Keys == interest.Keys
    && (forall fd :: fd in interest ==> p.slots[p.index[fd]] == SlotFor(fd, interest[fd]))
  }

  function PollStep(p: PollState, op: Op): PollState
    requires Bijection(p) && (op.Remove? ==> op.fd in p.index)
  {
    match op
    case Update(fd, events) => PollUpdated(p, fd, events)
    case Remove(fd) => PollRemoved(p, fd)
  }

  lemma PollUpdateHolds(p: PollState, interest: Interest, fd: int, events: nat)
    requires PollHolds(p, interest) && OpOk(interest, Update(fd, events))
    ensures PollHolds(PollUpdated(p, fd, events), interest[fd := events])
  {
    UpdateKeepsBijection(p, fd, events);
    var q := PollUpdated(p, fd, events);
    forall f | f in interest && f != fd
      ensures q.slots[q.index[f]] == p.slots[p.index[f]]
    {
    }
  }

  lemma PollRemoveHolds(p: PollState, interest: Interest, fd: int)
    requires PollHolds(p, interest) && fd in interest
    ensures PollHolds(PollRemoved(p, fd), interest - {fd})
  {
    hide PollRemoved, SlotFor;
    RemoveKeepsBijection(p, fd);
  }

  /** The fds that a prefix of the slots watches. */
  lemma {:induction false} WatchedAre(slots: seq<PollFd>)
    requires forall i, j :: 0 <= i < j < |slots| ==> slots[i].fd != slots[j].fd
    ensures forall i :: 0 <= i < |slots| && slots[i].fd >= 0 && slots[i].events != 0 ==>
              slots[i].fd in Watched(slots) && Watched(slots)[slots[i].fd] == slots[i].events
    ensures forall fd :: fd in Watched(slots) ==>
              PollFd(fd, Watched(slots)[fd]) in slots && fd >= 0 && Watched(slots)[fd] != 0
  {
    if slots != [] {
      var n := |slots| - 1;
      WatchedAre(slots[..n]);
      assert slots == slots[..n] + [slots[n]];
    }
  }

  /** poll(2) watches exactly what is asked for. */
  lemma PollWatches(p: PollState, interest: Interest)
    requires PollHolds(p, interest)
    ensures Watched(p.slots) == NonEmpty(interest)
  {
    DistinctSlots(p);
    WatchedAre(p.slots);
    hide Watched, PollHolds;
    var w := Watched(p.slots);
    forall fd | fd in NonEmpty(interest)
      ensures fd in w && w[fd] == interest[fd]
    {
      SlotAsksFor(p, interest, fd);
    }
    forall fd | fd in w
      ensures fd in NonEmpty(interest) && w[fd] == interest[fd]
    {
      SlotIsAskedFor(p, interest, PollFd(fd, w[fd]));
    }
  }

  lemma DistinctSlots(p: PollState)
    requires Bijection(p)
    ensures forall i, j :: 0 <= i < j < |p.slots| ==> p.slots[i].fd != p.slots[j].fd
  {
    forall i, j | 0 <= i < j < |p.slots|
      ensures p.slots[i].fd != p.slots[j].fd
    {
      assert p.index[Owner(p.slots[i].fd)] == i && p.index[Owner(p.slots[j].fd)] == j;
    }
  }

  lemma SlotAsksFor(p: PollState, interest: Interest, fd: int)
    requires PollHolds(p, interest) && fd in interest && interest[fd] != 0
    ensures fd >= 0 && PollFd(fd, interest[fd]) in p.slots
  {
    assert p.slots[p.index[fd]] == PollFd(fd, interest[fd]);
  }

  lemma SlotIsAskedFor(p: PollState, interest: Interest, slot: PollFd)
    requires PollHolds(p, interest) && slot in p.slots && slot.fd >= 0 && slot.events != 0
    ensures slot.fd in interest && interest[slot.fd] == slot.events
  {
    var i :| 0 <= i < |p.slots| && p.slots[i] == slot;
    assert Owner(p.slots[i].fd) == slot.fd;
  }

  // ---------------------------------------------------------------- epoll

  datatype Control = Add | Mod | Del

  /** Registered channels with their kAdded/kDeleted index, and the interest list of the epoll instance. */
  datatype EpollState = EpollState(index: map<int, int>, kernel: Interest)

  /** epoll_ctl fails on an ADD of a watched fd and on a MOD or DEL of one that is not. */
  predicate Accepted(kernel: Interest, control: Control, fd: int) {
    control == Add <==> fd !in kernel
  }

  function AfterControl(kernel: Interest, control: Control, fd: int, events: nat): Interest {
    if control == Del then kernel - {fd} else kernel[fd := events]
  }

  function ControlFor(e: EpollState, fd: int, events: nat): Control {
    if fd !in e.index || e.index[fd] == DELETED then Add
    else if events == 0 then Del
    else Mod
  }

  function EpollUpdated(e: EpollState, fd: int, events: nat): EpollState {
    var control := ControlFor(e, fd, events);
    EpollState(e.index[fd := if control == Del then DELETED else ADDED], AfterControl(e.kernel, control, fd, events))
  }

  function EpollRemoved(e: EpollState, fd: int): EpollState
    requires fd in e.index
  {
    EpollState(e.index - {fd}, if e.index[fd] == ADDED then AfterControl(e.kernel, Del, fd, 0) else e.kernel)
  }

  function EpollStep(e: EpollState, op: Op): EpollState
    requires op.Remove? ==> op.fd in e.index
  {
    match op
    case Update(fd, events) => EpollUpdated(e, fd, events)
    case Remove(fd) => EpollRemoved(e, fd)
  }

  /** A channel is marked added exactly when the kernel watches its fd. */
  predicate EpollInv(e: EpollState) {
    && (forall fd :: fd in e.index ==> e.index[fd] in {ADDED, DELETED} && (e.index[fd] == ADDED <==> fd in e.kernel))
    && e.kernel.Keys <= e.index.Keys
  }

  predicate EpollHolds(e: EpollState, interest: Interest) {
    && EpollInv(e)
    && e.index.Keys == interest.Keys
    && NonEmpty(e.kernel) == NonEmpty(interest)
  }

  /** The epoll_ctl call that the operation makes, if any, is one that the kernel accepts. */
  predicate CallAccepted(e: EpollState, op: Op) {
    match op
    case Update(fd, events) => Accepted(e.kernel, ControlFor(e, fd, events), fd)
    case Remove(fd) => fd in e.index && e.index[fd] == ADDED ==> Accepted(e.kernel, Del, fd)
  }

  lemma EpollStepHolds(e: EpollState, interest: Interest, op: Op)
    requires EpollHolds(e, interest) && (op.Remove? ==> op.fd in interest)
    ensures CallAccepted(e, op)
    ensures EpollHolds(EpollStep(e, op), AfterOp(interest, op))
  {
    var f, after := EpollStep(e, op), AfterOp(interest, op);
    assert EpollInv(f);
    forall fd
      ensures fd in NonEmpty(f.kernel) <==> fd in NonEmpty(after)
      ensures fd in NonEmpty(f.kernel) ==> f.kernel[fd] == after[fd]
    {
      if fd != op.fd {
        assert fd in NonEmpty(e.kernel) <==> fd in NonEmpty(interest);
        assert fd in NonEmpty(e.kernel) ==> NonEmpty(e.kernel)[fd] == NonEmpty(interest)[fd];
      }
    }
  }

  /** An update leaves the kernel watching the fd if it asks for something, or if it was not watched before. */
  lemma EpollWatchesExactly(e: EpollState, fd: int, events: nat)
    requires EpollInv(e)
    ensures var f := EpollUpdated(e, fd, events);
            && (fd in f.kernel <==> events != 0 || fd !in e.kernel) && (fd in f.kernel ==> f.kernel[fd] == events)
            && forall other :: other != fd ==> (other in f.kernel <==> other in e.kernel)
  {
  }

  // ---------------------------------------------------------------- both, side by side

  lemma StepHolds(p: PollState, e: EpollState, interest: Interest, op: Op)
    requires PollHolds(p, interest) && EpollHolds(e, interest) && OpOk(interest, op)
    ensures PollHolds(PollStep(p, op), AfterOp(interest, op))
    ensures EpollHolds(EpollStep(e, op), AfterOp(interest, op)) && CallAccepted(e, op)
    ensures op.Remove? ==> p.slots[p.index[op.fd]] == PollFd(Ignored(op.fd), 0)
  {
    EpollStepHolds(e, interest, op);
    hide EpollHolds;
    match op
    case Update(fd, events) => PollUpdateHolds(p, interest, fd, events);
    case Remove(fd) => PollRemoveHolds(p, interest, fd);
  }

  /** A run of both pollers, as far as their assertions and epoll_ctl let it go. */
  predicate RunsTo(p: PollState, e: EpollState, ops: seq<Op>, q: PollState, f: EpollState)
    decreases |ops|
  {
    if ops == [] then p == q && e == f
    else
      && Bijection(p)
      && CallAccepted(e, ops[0])
      && (ops[0].Remove? ==> ops[0].fd in p.index && p.slots[p.index[ops[0].fd]] == PollFd(Ignored(ops[0].fd), 0))
      && (ops[0].Remove? ==> ops[0].fd in e.index)
      && RunsTo(PollStep(p, ops[0]), EpollStep(e, ops[0]), ops[1..], q, f)
  }

  lemma {:induction false} RunHolds(p: PollState, e: EpollState, interest: Interest, ops: seq<Op>)
    returns (q: PollState, f: EpollState)
    requires PollHolds(p, interest) && EpollHolds(e, interest) && Legal(interest, ops)
    ensures RunsTo(p, e, ops, q, f)
    ensures PollHolds(q, AfterOps(interest, ops)) && EpollHolds(f, AfterOps(interest, ops))
    decreases |ops|
  {
    if ops == [] {
      q, f := p, e;
    } else {
      StepHolds(p, e, interest, ops[0]);
      hide PollStep, EpollStep, OpOk, AfterOp, CallAccepted;
      q, f := RunHolds(PollStep(p, ops[0]), EpollStep(e, ops[0]), AfterOp(interest, ops[0]), ops[1..]);
    }
  }

  /**
   Every legal run passes the assertions of both pollers and every epoll_ctl call succeeds; in the end both have the
   kernel watch the same non-empty interest, which is what the channels ask for.
   */
  lemma PollersAgree(ops: seq<Op>) returns (q: PollState, f: EpollState)
    requires Legal(map[], ops)
    ensures RunsTo(PollState([], map[]), EpollState(map[], map[]), ops, q, f)
    ensures Watched(q.slots) == NonEmpty(f.kernel) == NonEmpty(AfterOps(map[], ops))
    ensures Bijection(q) && EpollInv(f)
    ensures q.index.Keys == f.index.Keys == AfterOps(map[], ops).Keys
  {
    q, f := RunHolds(PollState([], map[]), EpollState(map[], map[]), map[], ops);
    PollWatches(q, AfterOps(map[], ops));
  }

  /** A channel that is disabled can be removed from a PollPoller exactly if it was registered before that. */
  lemma DisabledIsRemovable(p: PollState, fd: int)
    requires Bijection(p) && fd >= 0
    ensures var q := PollUpdated(p, fd, 0);
            Bijection(q) && fd in q.index && (q.slots[q.index[fd]] == PollFd(Ignored(fd), 0) <==> fd in p.index)
  {
    UpdateKeepsBijection(p, fd, 0);
  }

  // ---------------------------------------------------------------- the classes

  class PollPoller {
    var pollfds: seq<PollFd>
    var channels: map<int, Channel>

    ghost var indices: map<int, int>      // the index that each registered channel holds

    ghost function View(): PollState
      reads this
    {
      PollState(pollfds, indices)
    }

    ghost predicate Keyed()
      reads this, channels.Values
    {
      && indices.Keys == channels.Keys
      && forall fd :: fd in channels ==> channels[fd].fd == fd && channels[fd].index == indices[fd]
    }

    ghost predicate Valid()
      reads this, channels.Values
    {
      Keyed() && Bijection(View())
    }

    constructor ()
      ensures Valid() && channels == map[] && View() == PollState([], map[])
    {
      pollfds, channels, indices := [], map[], map[];
    }

    /** What updateChannel asserts about a channel. */
    predicate MayUpdate(channel: Channel)
      reads this, channel
    {
      if channel.index < 0 then channel.fd !in channels else channel.fd in channels && channels[channel.fd] == channel
    }

    /** A channel that is not registered, removed ones included, passes exactly with a negative index and a free fd. */
    lemma RegistersExactly(channel: Channel)
      requires Valid() && channel !in channels.Values
      ensures MayUpdate(channel) <==> channel.index < 0 && channel.fd !in channels
    {
    }

    method UpdateChannel(channel: Channel)
      requires Valid() && MayUpdate(channel)
      modifies this, channel`index
      ensures Valid() && channels == old(channels)[channel.fd := channel]
      ensures View() == PollUpdated(old(View()), channel.fd, channel.events)
    {
      UpdateKeepsBijection(View(), channel.fd, channel.events);
      hide Bijection, SlotFor;
      if channel.index < 0 {
        pollfds := pollfds + [PollFd(channel.fd, channel.events)];
        Register(channel, |pollfds| - 1);
      } else {
        SetSlot(channel);
        assert channels == channels[channel.fd := channel];
      }
    }

    /** The slot of a registered channel is overwritten. */
    method SetSlot(channel: Channel)
      requires Valid() && channel.fd in channels && channels[channel.fd] == channel
      modifies this`pollfds
      ensures 0 <= channel.index < |old(pollfds)|
      ensures pollfds == old(pollfds)[channel.index := SlotFor(channel.fd, channel.events)]
    {
      var idx := channel.index;
      SlotBelongs(View(), channel.fd);
      pollfds := pollfds[idx := SlotOf(channel)];
    }

    /** The slot of a channel that is registered; it is ignored if it asks for nothing. */
    function SlotOf(channel: Channel): (p: PollFd)
      reads channel
      ensures p == SlotFor(channel.fd, channel.events)
    {
      var fd: int := channel.fd;
      if channel.events == 0 then PollFd(-fd - 1, channel.events) else PollFd(fd, channel.events)
    }

    /** A channel that is not registered gets its index and its place in the map. */
    method Register(channel: Channel, idx: int)
      requires Keyed() && channel.fd !in channels
      modifies this`channels, this`indices, channel`index
      ensures Keyed() && channels == old(channels)[channel.fd := channel]
      ensures indices == old(indices)[channel.fd := idx]
    {
      assert forall f :: f in channels ==> channels[f] != channel;
      channel.index := idx;
      channels := channels[channel.fd := channel];
      indices := indices[channel.fd := idx];
    }

    /**
     Swaps the slot with the last one and drops it; the channel that was last learns its new slot. The removed channel
     keeps its index, so it cannot be registered again.
     */
    method RemoveChannel(channel: Channel)
      requires Valid() && channel.fd in channels && channels[channel.fd] == channel && channel.events == 0
      requires 0 <= channel.index < |pollfds| && pollfds[channel.index] == PollFd(Ignored(channel.fd), 0)
      modifies this, channels.Values`index
      ensures Valid() && channels == old(channels) - {channel.fd}
      ensures View() == PollRemoved(old(View()), channel.fd)
      ensures channel.index == old(channel.index) >= 0 && !MayUpdate(channel)
    {
      var fd: int := channel.fd;
      var idx := channel.index;
      ghost var p := View();
      RemoveKeepsBijection(p, fd);
      LastSlot(p, fd);
      hide Bijection;
      var last := |pollfds| - 1;
      if idx == last {
        channels, indices := channels - {fd}, indices - {fd};
        pollfds := pollfds[..last];
        assert pollfds == SwapRemoved(p.slots, idx);
      } else {
        SwapOut(fd, idx);
      }
    }

    /** The last slot takes the place of the slot of fd. */
    method SwapOut(fd: int, idx: int)
      requires Keyed() && fd in channels && channels[fd].index == idx && 0 <= idx < |pollfds| - 1
      requires Owner(pollfds[|pollfds| - 1].fd) in channels && Owner(pollfds[|pollfds| - 1].fd) != fd
      modifies this, channels.Values`index
      ensures Keyed() && channels == old(channels) - {fd} && old(channels)[fd].index == idx
      ensures pollfds == SwapRemoved(old(pollfds), idx)
      ensures indices == (old(indices) - {fd})[Owner(old(pollfds)[|old(pollfds)| - 1].fd) := idx]
    {
      ghost var s := pollfds;
      var last := |pollfds| - 1;
      var channelAtEnd := pollfds[last].fd;
      pollfds := pollfds[idx := pollfds[last]][last := pollfds[idx]];
      if channelAtEnd < 0 {
        channelAtEnd := -channelAtEnd - 1;
      }
      Reindex(channelAtEnd, idx);
      pollfds := pollfds[..last];
      assert pollfds == SwapRemoved(s, idx);
      channels, indices := channels - {fd}, indices - {fd};
    }

    /** set_index on the channel of fd, which is no other channel. */
    method Reindex(fd: int, idx: int)
      requires Keyed() && fd in channels
      modifies this`indices, channels.Values`index
      ensures Keyed() && indices == old(indices)[fd := idx]
      ensures forall f :: f in channels && f != fd ==> channels[f].index == old(channels[f].index)
    {
      assert forall f :: f in channels && f != fd ==> channels[f] != channels[fd];
      channels[fd].index := idx;
      indices := indices[fd := idx];
    }

    /**
     After poll(2) has filled in `revents`, with nothing reported for a negative fd, collects the channels with events
     in slot order.
     */
    method FillActiveChannels(revents: seq<int>, events: nat) returns (active: seq<Channel>)
      requires Valid() && |revents| == |pollfds|
      requires forall i :: 0 <= i < |revents| && revents[i] > 0 ==> pollfds[i].fd >= 0
      requires events == |ReadyFds(pollfds, revents)|
      modifies channels.Values`revents
      ensures Valid() && View() == old(View())
      ensures |active| == |ReadyFds(pollfds, revents)|
      ensures forall k :: 0 <= k < |active| ==>
                ReadyFds(pollfds, revents)[k] in channels && active[k] == channels[ReadyFds(pollfds, revents)[k]]
      ensures forall i :: 0 <= i < |revents| && revents[i] > 0 ==>
                pollfds[i].fd in channels && channels[pollfds[i].fd].revents == revents[i]
    {
      active := [];
      var numEvents: int := events;
      var i := 0;
      ghost var p := View();
      NoneCollected(revents);
      hide Bijection, Collected, ReadyFds;
      while i < |pollfds| && numEvents > 0
        invariant 0 <= i <= |pollfds| && View() == p && Valid()
        invariant numEvents == events - |active|
        invariant Collected(active, revents, i)
      {
        if revents[i] > 0 {
          numEvents := numEvents - 1;
          var channel := MarkActive(revents, i, active);
          active := active + [channel];
        } else {
          SkipIdle(active, revents, i);
        }
        i := i + 1;
      }
      AllCollected(active, revents, i);
    }

    lemma NoneCollected(revents: seq<int>)
      requires |pollfds| == |revents|
      ensures Collected([], revents, 0)
    {
      assert pollfds[..0] == [] && revents[..0] == [];
    }

    /** Once as many channels are collected as poll(2) has counted, or all slots are seen, all are collected. */
    lemma AllCollected(active: seq<Channel>, revents: seq<int>, i: nat)
      requires i <= |pollfds| == |revents| && Collected(active, revents, i)
      requires i == |pollfds| || |active| >= |ReadyFds(pollfds, revents)|
      ensures |active| == |ReadyFds(pollfds, revents)|
      ensures forall k :: 0 <= k < |active| ==>
                ReadyFds(pollfds, revents)[k] in channels && active[k] == channels[ReadyFds(pollfds, revents)[k]]
      ensures forall i :: 0 <= i < |revents| && revents[i] > 0 ==>
                pollfds[i].fd in channels && channels[pollfds[i].fd].revents == revents[i]
    {
      ReadyIsPrefix(pollfds, revents, i);
      hide ReadyFds;
      assert pollfds[..|pollfds|] == pollfds && revents[..|pollfds|] == revents;
    }

    /** The channels of the first `i` slots with events are collected and told their events. */
    ghost predicate Collected(active: seq<Channel>, revents: seq<int>, i: nat)
      requires i <= |pollfds| == |revents|
      reads this, channels.Values
    {
      var ready := ReadyFds(pollfds[..i], revents[..i]);
      && |active| == |ready|
      && (forall k :: 0 <= k < |ready| ==> ready[k] in channels && active[k] == channels[ready[k]])
      && (forall j :: 0 <= j < i && revents[j] > 0 ==>
            pollfds[j].fd in channels && channels[pollfds[j].fd].revents == revents[j])
    }

    lemma SkipIdle(active: seq<Channel>, revents: seq<int>, i: nat)
      requires i < |pollfds| == |revents| && revents[i] <= 0 && Collected(active, revents, i)
      ensures Collected(active, revents, i + 1)
    {
      assert pollfds[..i + 1][..i] == pollfds[..i] && revents[..i + 1][..i] == revents[..i];
    }

    method MarkActive(revents: seq<int>, i: nat, ghost active: seq<Channel>) returns (channel: Channel)
      requires Valid() && i < |pollfds| == |revents| && revents[i] > 0 && pollfds[i].fd >= 0
      requires forall j :: 0 <= j < |revents| && revents[j] > 0 ==> pollfds[j].fd >= 0
      requires Collected(active, revents, i)
      modifies channels.Values`revents
      ensures Collected(active + [channel], revents, i + 1) && Valid() && View() == old(View())
    {
      assert pollfds[..i + 1][..i] == pollfds[..i] && revents[..i + 1][..i] == revents[..i];
      ghost var p := View();
      assert Owner(p.slots[i].fd) in p.index;
      DistinctOwners(p, i);
      channel := channels[pollfds[i].fd];
      assert channel.fd == pollfds[i].fd;
      channel.revents := revents[i];
      assert View() == p;
      hide Bijection;
      assert forall j :: 0 <= j < i && revents[j] > 0 ==>
               pollfds[j].fd in channels && channels[pollfds[j].fd] != channel;
    }
  }

  lemma SlotBelongs(p: PollState, fd: int)
    requires Bijection(p) && fd in p.index
    ensures 0 <= p.index[fd] < |p.slots| && (p.slots[p.index[fd]].fd == fd || p.slots[p.index[fd]].fd == -fd - 1)
  {
  }

  lemma LastSlot(p: PollState, fd: int)
    requires Bijection(p) && fd in p.index
    ensures p.slots != [] && Owner(p.slots[|p.slots| - 1].fd) in p.index
    ensures Owner(p.slots[|p.slots| - 1].fd) == fd <==> p.index[fd] == |p.slots| - 1
  {
  }

  lemma DistinctOwners(p: PollState, i: nat)
    requires Bijection(p) && i < |p.slots|
    ensures forall j :: 0 <= j < |p.slots| && j != i ==> Owner(p.slots[j].fd) != Owner(p.slots[i].fd)
  {
  }

  /** The fds with events, in slot order. */
  function ReadyFds(slots: seq<PollFd>, revents: seq<int>): seq<int>
    requires |slots| == |revents|
  {
    if slots == [] then []
    else
      var n := |slots| - 1;
      ReadyFds(slots[..n], revents[..n]) + (if revents[n] > 0 then [slots[n].fd] else [])
  }

  /** Once as many channels are found as poll(2) has counted, no later slot has events. */
  lemma {:induction false} ReadyIsPrefix(slots: seq<PollFd>, revents: seq<int>, i: nat)
    requires |slots| == |revents| && i <= |slots|
    ensures ReadyFds(slots[..i], revents[..i]) <= ReadyFds(slots, revents)
    ensures |ReadyFds(slots[..i], revents[..i])| == |ReadyFds(slots, revents)| ==>
              forall j :: i <= j < |slots| ==> revents[j] <= 0
  {
    var n := |slots| - 1;
    if i == |slots| {
      assert slots[..i] == slots && revents[..i] == revents;
    } else {
      ReadyIsPrefix(slots[..n], revents[..n], i);
      assert slots[..n][..i] == slots[..i] && revents[..n][..i] == revents[..i];
    }
  }

  class EPollPoller {
    var channels: map<int, Channel>
    var kernel: Interest

    ghost function View(): EpollState
      reads this, channels.Values
    {
      EpollState(map fd | fd in channels :: channels[fd].index, kernel)
    }

    ghost predicate Valid()
      reads this, channels.Values
    {
      (forall fd :: fd in channels ==> channels[fd].fd == fd) && EpollInv(View())
    }

    constructor ()
      ensures Valid() && channels == map[] && View() == EpollState(map[], map[])
    {
      channels, kernel := map[], map[];
    }

    /** Any other call would make epoll_ctl fail. */
    method CallControl(operation: Control, channel: Channel)
      requires Accepted(kernel, operation, channel.fd)
      modifies this`kernel
      ensures kernel == AfterControl(old(kernel), operation, channel.fd, channel.events)
    {
      if operation == Del {
        kernel := kernel - {channel.fd};
      } else {
        kernel := kernel[channel.fd := channel.events];
      }
    }

    /** What updateChannel asserts about a channel. */
    predicate MayUpdate(channel: Channel)
      reads this, channel
    {
      if channel.index == NEW then channel.fd !in channels
      else channel.fd in channels && channels[channel.fd] == channel
    }

    method UpdateChannel(channel: Channel)
      requires Valid() && MayUpdate(channel)
      modifies this, channel`index
      ensures Valid() && channels == old(channels)[channel.fd := channel]
      ensures View() == EpollUpdated(old(View()), channel.fd, channel.events)
    {
      var fd: int := channel.fd;
      var index := channel.index;
      ghost var e := View();
      assert fd in e.index ==> index == e.index[fd];
      assert forall f :: f in channels && f != fd ==> channels[f] != channel;
      if index == NEW || index == DELETED {
        if index == NEW {
          channels := channels[fd := channel];
        }
        channel.index := ADDED;
        CallControl(Add, channel);
      } else {
        assert index == ADDED;
        if channel.events == 0 {
          CallControl(Del, channel);
          channel.index := DELETED;
        } else {
          CallControl(Mod, channel);
        }
      }
      assert channels == old(channels)[fd := channel];
      assert View().index == EpollUpdated(e, fd, channel.events).index;
    }

    /** Unlike in PollPoller, a removed channel may be registered again. */
    method RemoveChannel(channel: Channel)
      requires Valid() && channel.fd in channels && channels[channel.fd] == channel && channel.events == 0
      modifies this, channel`index
      ensures Valid() && channels == old(channels) - {channel.fd}
      ensures View() == EpollRemoved(old(View()), channel.fd)
      ensures channel.index == NEW && MayUpdate(channel)
    {
      var fd: int := channel.fd;
      var index := channel.index;
      ghost var e := View();
      assert index == e.index[fd];
      assert forall f :: f in channels && f != fd ==> channels[f] != channel;
      channels := channels - {fd};
      if index == ADDED {
        CallControl(Del, channel);
      }
      channel.index := NEW;
      assert View().index == e.index - {fd};
    }
  }

  /** Registers, disables and removes a channel: a PollPoller will not take it again. */
  method ReturnToPoll(fd: nat, events: nat) returns (passes: bool)
    requires events != 0
    ensures !passes
  {
    var poller := new PollPoller();
    var channel := new Channel(fd);
    channel.events := events;
    poller.UpdateChannel(channel);
    channel.events := 0;
    poller.UpdateChannel(channel);
    poller.RemoveChannel(channel);
    passes := poller.MayUpdate(channel);
  }

  /** An EPollPoller will. */
  method ReturnToEpoll(fd: nat, events: nat) returns (passes: bool)
    requires events != 0
    ensures passes
  {
    var poller := new EPollPoller();
    var channel := new Channel(fd);
    channel.events := events;
    poller.UpdateChannel(channel);
    channel.events := 0;
    poller.UpdateChannel(channel);
    poller.RemoveChannel(channel);
    passes := poller.MayUpdate(channel);
  }
}
