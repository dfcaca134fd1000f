/** net/poller/PollPoller.cc and net/poller/EPollPoller.cc as the classes they are:
    the indices and tags live in the channels, which the pollers update in place. */
module PollerClasses {
  import opened Pollers

  class Channel {
    const fd: Fd
    var events: Mask
    var revents: int
    var index: int

    constructor (fd: Fd)
      ensures this.fd == fd && events == 0 && revents == 0 && index == -1
    {
      this.fd := fd;
      events, revents, index := 0, 0, -1;
    }
  }

  /** How many events poll(2) has reported from slot i on. */
  function Reported(revents: seq<int>, i: nat): nat
    requires i <= |revents|
    decreases |revents| - i
  {
    if i == |revents| then 0 else (if revents[i] > 0 then 1 else 0) + Reported(revents, i + 1)
  }

  lemma {:induction false} NoneReported(revents: seq<int>, i: nat)
    requires i <= |revents| && Reported(revents, i) == 0
    ensures forall k :: i <= k < |revents| ==> revents[k] <= 0
    decreases |revents| - i
  {
    if i < |revents| {
      NoneReported(revents, i + 1);
    }
  }

  lemma Newcomer(p: Poll<Channel>, wants: map<Channel, Want>, c: Channel, fd: Fd)
    requires PollInv(p, wants) && IsNew(wants, c, fd)
    ensures fd !in p.channels && c !in p.channels.Values
  {
  }

  lemma OnlyOne(p: Poll<Channel>, wants: map<Channel, Want>, c: Channel)
    requires PollInv(p, wants) && c in wants
    ensures (p.channels - {wants[c].fd}).Values == p.channels.Values - {c}
  {
    assert HasSlot(p, c, wants[c]);
    var rest := p.channels - {wants[c].fd};
    forall d | d in p.channels.Values && d != c ensures d in rest.Values {
      var fd :| fd in p.channels && p.channels[fd] == d;
      assert fd in rest && rest[fd] == d;
    }
  }

  /** The channels of the first n slots with events, in the order of the slots. */
  ghost function ActiveIn(p: Poll<Channel>, revents: seq<int>, n: nat): seq<Channel>
    requires n <= |revents| == |p.pollfds|
  {
    if n == 0 then []
    else ActiveIn(p, revents, n - 1) +
         if revents[n - 1] > 0 && FdAt(p.pollfds[n - 1]) in p.channels then [p.channels[FdAt(p.pollfds[n - 1])]]
         else []
  }

  lemma {:induction false} NoMoreActive(p: Poll<Channel>, revents: seq<int>, i: nat, n: nat)
    requires i <= n <= |revents| == |p.pollfds|
    requires forall k :: i <= k < |revents| ==> revents[k] <= 0
    ensures ActiveIn(p, revents, n) == ActiveIn(p, revents, i)
  {
    if i < n {
      NoMoreActive(p, revents, i, n - 1);
    }
  }

  lemma Grows(m: map<Fd, Channel>, fd: Fd, c: Channel)
    requires fd !in m
    ensures m[fd := c].Values == m.Values + {c}
  {
    var m' := m[fd := c];
    assert fd in m' && m'[fd] == c;
    assert forall k :: k in m ==> k in m' && m'[k] == m[k];
  }

  lemma Stranger(e: Epoll<Channel>, wants: map<Channel, Want>, c: Channel, fd: Fd)
    requires EpollInv(e, wants) && IsNew(wants, c, fd)
    ensures fd !in e.channels && c !in e.channels.Values && fd !in e.kernel
  {
  }

  lemma Shrinks(e: Epoll<Channel>, wants: map<Channel, Want>, c: Channel)
    requires EpollInv(e, wants) && c in wants
    ensures (e.channels - {wants[c].fd}).Values == e.channels.Values - {c}
  {
    assert Mirrored(e, c, wants[c]);
    var rest := e.channels - {wants[c].fd};
    forall d | d in e.channels.Values && d != c ensures d in rest.Values {
      var fd :| fd in e.channels && e.channels[fd] == d;
      assert fd in rest && rest[fd] == d;
    }
  }

  /** The channel of a slot that is known. */
  ghost function ChannelAt(p: Poll<Channel>, i: nat): Channel
    requires i < |p.pollfds| && SlotKnown(p, i)
  {
    p.channels[FdAt(p.pollfds[i])]
  }

  class PollPoller {
    var pollfds: seq<PollFd>
    var channels: map<Fd, Channel>

    ghost function Model(): Poll<Channel>
      reads this`pollfds, this`channels, channels.Values`index
    {
      Poll(pollfds, channels, map c | c in channels.Values :: c.index, false)
    }

    constructor ()
      ensures Model() == Poll([], map[], map[], false)
    {
      pollfds, channels := [], map[];
    }

    method AddSlot(channel: Channel)
      requires channel.fd !in channels && channel !in channels.Values
      modifies this`pollfds, this`channels, channel`index
      ensures Model() == PollUpdate(old(Model()), channel, channel.fd, channel.events)
    {
      ghost var p := Model();
      pollfds := pollfds + [PollFd(channel.fd, channel.events)];
      channel.index := |pollfds| - 1;
      channels := channels[channel.fd := channel];
      Grows(p.channels, channel.fd, channel);
      assert Model().index == p.index[channel := channel.index];
    }

    method ChangeSlot(channel: Channel)
      requires PollHas(Model(), channel, channel.fd) && FdAt(pollfds[channel.index]) == channel.fd
      modifies this`pollfds
      ensures Model() == PollUpdate(old(Model()), channel, channel.fd, channel.events)
    {
      var fd: int := channel.fd;
      var slot := PollFd(fd, channel.events);
      if channel.events == 0 {
        slot := slot.(fd := -fd - 1);
      }
      pollfds := pollfds[channel.index := slot];
    }

    /** wants: what each registered channel asked for when last updated. */
    method UpdateChannel(channel: Channel, ghost wants: map<Channel, Want>)
      requires PollInv(Model(), wants)
      requires if channel in wants then wants[channel].fd == channel.fd
               else IsNew(wants, channel, channel.fd) && channel.index < 0
      modifies this, channel`index
      ensures Model() == PollUpdate(old(Model()), channel, channel.fd, channel.events)
    {
      if channel in wants {
        assert HasSlot(Model(), channel, wants[channel]);
      } else {
        Newcomer(Model(), wants, channel, channel.fd);
      }
      if channel.index < 0 {
        AddSlot(channel);
      } else {
        ChangeSlot(channel);
      }
    }

    /** The last slot takes the place of the one that goes. */
    method MoveLast(idx: nat, end: nat)
      requires |pollfds| == end + 1 && idx < end
      requires FdAt(pollfds[end]) in channels
      modifies this`pollfds, channels.Values`index
      ensures pollfds == old(pollfds)[..end][idx := old(pollfds)[end]]
      ensures channels[FdAt(old(pollfds)[end])].index == idx
      ensures forall c :: c in channels.Values && c != channels[FdAt(old(pollfds)[end])] ==> c.index == old(c.index)
    {
      var channelAtEnd := pollfds[end].fd;
      pollfds := pollfds[idx := pollfds[end]];
      if channelAtEnd < 0 {
        channelAtEnd := -channelAtEnd - 1;
      }
      channels[channelAtEnd].index := idx;
      pollfds := pollfds[..end];
    }

    method DropLast(channel: Channel, end: nat, ghost wants: map<Channel, Want>)
      requires PollInv(Model(), wants) && channel in wants && wants[channel] == Want(channel.fd, 0)
      requires HasSlot(Model(), channel, wants[channel]) && channel.index == end == |pollfds| - 1
      modifies this
      ensures Model() == PollRemove(old(Model()), channel, channel.fd)
    {
      ghost var p := Model();
      OnlyOne(p, wants, channel);
      channels := channels - {channel.fd};
      pollfds := pollfds[..end];
      assert Model().index == p.index - {channel};
    }

    method DropSwapped(channel: Channel, idx: nat, end: nat, ghost wants: map<Channel, Want>, ghost moved: Channel)
      requires PollInv(Model(), wants) && channel in wants && wants[channel] == Want(channel.fd, 0)
      requires HasSlot(Model(), channel, wants[channel]) && channel.index == idx != end == |pollfds| - 1
      requires SlotKnown(Model(), end) && moved == channels[FdAt(pollfds[end])]
      modifies this, channels.Values`index
      ensures Model() == Swapped(old(Model()), channel, channel.fd, moved) && channel.index == idx
    {
      ghost var p := Model();
      OnlyOne(p, wants, channel);
      SlotsDiffer(p, wants, channel, moved);
      channels := channels - {channel.fd};
      MoveLast(idx, end);
      assert Model().index == (p.index - {channel})[moved := idx];
    }

    method RemoveChannel(channel: Channel, ghost wants: map<Channel, Want>)
      requires PollInv(Model(), wants) && channel in wants && wants[channel] == Want(channel.fd, 0)
      modifies this, channels.Values`index
      ensures Model() == PollRemove(old(Model()), channel, channel.fd)
      ensures channel.index == old(channel.index)   // it is left as it was
    {
      assert HasSlot(Model(), channel, wants[channel]);
      var idx, end := channel.index, |pollfds| - 1;
      if idx == end {
        DropLast(channel, end, wants);
      } else {
        assert SlotKnown(Model(), end);
        ghost var moved := channels[FdAt(pollfds[end])];
        RemoveSwaps(Model(), wants, channel, moved);
        DropSwapped(channel, idx, end, wants, moved);
      }
    }

    /** The loop stops after numEvents channels, and these are all that poll(2)
        reported, each told its events; each assert of the source holds. */
    method FillActiveChannels(numEvents: nat, revents: seq<int>) returns (activeChannels: seq<Channel>)
      requires forall i :: 0 <= i < |pollfds| ==> SlotKnown(Model(), i)
      requires |revents| == |pollfds| && forall i :: 0 <= i < |revents| && revents[i] > 0 ==> pollfds[i].fd >= 0
      requires numEvents == Reported(revents, 0)
      modifies channels.Values`revents
      ensures activeChannels == ActiveIn(Model(), revents, |revents|)
      ensures forall i :: 0 <= i < |revents| && revents[i] > 0 ==>
                SlotKnown(Model(), i) && ChannelAt(Model(), i).revents == revents[i]
      ensures forall c :: c in channels.Values && c !in activeChannels ==> c.revents == old(c.revents)
    {
      ghost var p := Model();
      activeChannels := [];
      var left, i := numEvents, 0;
      while i < |pollfds| && left > 0
        invariant 0 <= i <= |pollfds| && left == Reported(revents, i)
        invariant activeChannels == ActiveIn(p, revents, i)
        invariant forall k :: 0 <= k < i && revents[k] > 0 ==> SlotKnown(p, k) && ChannelAt(p, k).revents == revents[k]
        invariant forall c :: c in channels.Values && c !in activeChannels ==> c.revents == old(c.revents)
      {
        if revents[i] > 0 {
          left := left - 1;
          assert SlotKnown(p, i);
          var channel := channels[pollfds[i].fd];
          channel.revents := revents[i];
          activeChannels := activeChannels + [channel];
        }
        i := i + 1;
      }
      NoneReported(revents, i);
      NoMoreActive(p, revents, i, |revents|);
    }
  }

  /** One struct epoll_event that epoll_wait has filled in. */
  datatype Ready = Ready(ptr: Channel, revents: int)

  ghost predicate FromKernel(kernel: map<Fd, Interest<Channel>>, r: Ready) {
    exists fd :: fd in kernel && kernel[fd].ptr == r.ptr
  }

  predicate Registered(channels: map<Fd, Channel>, c: Channel) {
    c.fd in channels && channels[c.fd] == c
  }

  lemma AllRegistered(e: Epoll<Channel>, wants: map<Channel, Want>, events: seq<Ready>)
    requires EpollInv(e, wants) && (forall c :: c in wants ==> wants[c].fd == c.fd)
    requires forall i :: 0 <= i < |events| ==> FromKernel(e.kernel, events[i])
    ensures forall i :: 0 <= i < |events| ==> Registered(e.channels, events[i].ptr)
  {
    forall i | 0 <= i < |events| ensures Registered(e.channels, events[i].ptr) {
      assert FromKernel(e.kernel, events[i]);
      var fd :| fd in e.kernel && e.kernel[fd].ptr == events[i].ptr;
      PointerValid(e, wants, fd);
    }
  }

  const NEW := -1
  const ADDED := 1
  const DELETED := 2

  class EPollPoller {
    var channels: map<Fd, Channel>
    ghost var kernel: map<Fd, Interest<Channel>>

    ghost function Model(): Epoll<Channel>
      reads this, channels.Values`index
    {
      Epoll(channels, map c | c in channels.Values :: if c.index == ADDED then Added else Deleted, kernel, false)
    }

    constructor ()
      ensures Model() == Epoll(map[], map[], map[], false)
    {
      channels, kernel := map[], map[];
    }

    /** Each epoll_ctl is one the kernel accepts: ADD of an absent fd, MOD and DEL of
        a present one. */
    method AddNew(channel: Channel)
      requires channel.fd !in channels && channel !in channels.Values && channel.fd !in kernel
      modifies this, channel`index
      ensures Model() == EpollUpdate(old(Model()), channel, channel.fd, channel.events)
    {
      ghost var e := Model();
      channels := channels[channel.fd := channel];
      Grows(e.channels, channel.fd, channel);
      channel.index := ADDED;
      kernel := kernel[channel.fd := Interest(channel, channel.events)];
      assert Model().tags == e.tags[channel := Added];
    }

    method Change(channel: Channel)
      requires EpollHas(Model(), channel, channel.fd) && (channel.index == ADDED || channel.index == DELETED)
      requires channel.index == ADDED <==> channel.fd in kernel
      modifies this, channel`index
      ensures Model() == EpollUpdate(old(Model()), channel, channel.fd, channel.events)
    {
      ghost var e := Model();
      assert channel in channels.Values;
      if channel.index == DELETED {
        channel.index := ADDED;
        kernel := kernel[channel.fd := Interest(channel, channel.events)];
        assert Model().tags == e.tags[channel := Added];
      } else if channel.events == 0 {
        kernel := kernel - {channel.fd};
        channel.index := DELETED;
        assert Model().tags == e.tags[channel := Deleted];
      } else {
        kernel := kernel[channel.fd := Interest(channel, channel.events)];
        assert Model().tags == e.tags;
      }
    }

    method UpdateChannel(channel: Channel, ghost wants: map<Channel, Want>)
      requires EpollInv(Model(), wants)
      requires if channel in wants
               then wants[channel].fd == channel.fd && (channel.index == ADDED || channel.index == DELETED)
               else IsNew(wants, channel, channel.fd) && channel.index == NEW
      modifies this, channel`index
      ensures Model() == EpollUpdate(old(Model()), channel, channel.fd, channel.events)
    {
      if channel in wants {
        assert Mirrored(Model(), channel, wants[channel]);
        assert channel in channels.Values;
      } else {
        Stranger(Model(), wants, channel, channel.fd);
      }
      if channel.index == NEW {
        AddNew(channel);
      } else {
        Change(channel);
      }
    }

    method RemoveChannel(channel: Channel, ghost wants: map<Channel, Want>)
      requires EpollInv(Model(), wants) && channel in wants && wants[channel] == Want(channel.fd, 0)
      modifies this, channel`index
      ensures Model() == EpollRemove(old(Model()), channel, channel.fd) && channel.index == NEW
    {
      ghost var e := Model();
      assert Mirrored(e, channel, wants[channel]);
      var index := channel.index;
      channels := channels - {channel.fd};
      Shrinks(e, wants, channel);
      if index == ADDED {
        assert channel.fd in kernel;
        kernel := kernel - {channel.fd};
      }
      channel.index := NEW;
      assert Model().tags == EpollRemove(e, channel, channel.fd).tags;
    }

    /** What epoll_wait reports, with the pointers it was given: the channels are
        those registered for their fds, and each is told its events. */
    method FillActiveChannels(events: seq<Ready>, ghost wants: map<Channel, Want>)
      returns (activeChannels: seq<Channel>)
      requires EpollInv(Model(), wants) && (forall c :: c in wants ==> wants[c].fd == c.fd)
      requires forall i :: 0 <= i < |events| ==> FromKernel(kernel, events[i])
      requires forall i, j :: 0 <= i < j < |events| ==> events[i].ptr != events[j].ptr
      modifies channels.Values`revents
      ensures |activeChannels| == |events|
      ensures forall i :: 0 <= i < |events| ==>
                && activeChannels[i] == events[i].ptr && activeChannels[i].revents == events[i].revents
                && Registered(channels, activeChannels[i])
      ensures forall c :: c in channels.Values && c !in activeChannels ==> c.revents == old(c.revents)
    {
      AllRegistered(Model(), wants, events);
      activeChannels := [];
      for i := 0 to |events|
        invariant |activeChannels| == i
        invariant forall k :: 0 <= k < i ==> activeChannels[k] == events[k].ptr
        invariant forall k :: 0 <= k < i ==> events[k].ptr.revents == events[k].revents
        invariant forall c :: c in channels.Values && c !in activeChannels ==> c.revents == old(c.revents)
      {
        var channel := events[i].ptr;
        assert Registered(channels, channel);
        channel.revents := events[i].revents;
        activeChannels := activeChannels + [channel];
      }
    }
  }
}
