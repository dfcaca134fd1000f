/** net/poller/PollPoller.cc and net/poller/EPollPoller.cc: two implementations of
    one interest set, driven side by side.

    PollPoller keeps an array of slots, a map from fd to channel, and in each channel
    the position of its slot; a channel that watches nothing has its fd stored as
    -fd-1. EPollPoller keeps the map and a tag in each channel that mirrors what the
    kernel has. C is the type of channels. */
module Pollers {
  import opened Machines

  type Fd = nat
  type Mask = nat   // events(); 0 is kNoneEvent

  /** What a registered channel asks for. */
  datatype Want = Want(fd: Fd, mask: Mask)

  // ----- PollPoller -----

  datatype PollFd = PollFd(fd: int, events: Mask)

  /** index holds the channels' index_; bad: an assert of the source has failed. */
  datatype Poll<C> = Poll(pollfds: seq<PollFd>, channels: map<Fd, C>, index: map<C, int>, bad: bool)

  function Slot(w: Want): PollFd {
    var fd: int := w.fd;
    PollFd(if w.mask == 0 then -fd - 1 else fd, w.mask)
  }

  function FdAt(p: PollFd): Fd {
    if p.fd < 0 then -p.fd - 1 else p.fd
  }

  predicate PollHas<C(==)>(p: Poll<C>, c: C, fd: Fd) {
    fd in p.channels && p.channels[fd] == c && c in p.index && 0 <= p.index[c] < |p.pollfds|
  }

  function PollUpdate<C(==)>(p: Poll<C>, c: C, fd: Fd, mask: Mask): Poll<C> {
    if c !in p.index then
      if fd in p.channels then p.(bad := true)
      else WithSlot(p, c, fd, mask)
    else if !PollHas(p, c, fd) || FdAt(p.pollfds[p.index[c]]) != fd then p.(bad := true)
    else p.(pollfds := p.pollfds[p.index[c] := Slot(Want(fd, mask))])
  }

  function PollRemove<C(==)>(p: Poll<C>, c: C, fd: Fd): Poll<C> {
    if !PollHas(p, c, fd) || p.pollfds[p.index[c]] != Slot(Want(fd, 0)) then p.(bad := true)
    else
      var idx, end := p.index[c], |p.pollfds| - 1;
      var p1 := p.(channels := p.channels - {fd}, index := p.index - {c}, pollfds := p.pollfds[..end]);
      if idx == end then p1
      else
        var last := FdAt(p.pollfds[end]);
        if last !in p1.channels then p.(bad := true)
        else p1.(pollfds := p1.pollfds[idx := p.pollfds[end]], index := p1.index[p1.channels[last] := idx])
  }

  predicate HasSlot<C(==)>(p: Poll<C>, c: C, w: Want) {
    PollHas(p, c, w.fd) && p.pollfds[p.index[c]] == Slot(w)
  }

  /** The slot belongs to a channel that knows its place. */
  predicate SlotKnown<C>(p: Poll<C>, i: int)
    requires 0 <= i < |p.pollfds|
  {
    var fd := FdAt(p.pollfds[i]);
    fd in p.channels && p.channels[fd] in p.index && p.index[p.channels[fd]] == i
  }

  predicate MapAgrees<C>(channels: map<Fd, C>, wants: map<C, Want>) {
    forall fd :: fd in channels ==> channels[fd] in wants && wants[channels[fd]].fd == fd
  }

  /** Slots, map and indices agree with what is wanted, in both directions. */
  predicate PollInv<C(==)>(p: Poll<C>, wants: map<C, Want>) {
    && !p.bad && p.index.Keys == wants.Keys && MapAgrees(p.channels, wants)
    && (forall c :: c in wants ==> HasSlot(p, c, wants[c]))
    && (forall i :: 0 <= i < |p.pollfds| ==> SlotKnown(p, i))
  }

  /** The channel is new, and no other has its fd. */
  predicate IsNew<C(==)>(wants: map<C, Want>, c: C, fd: Fd) {
    c !in wants && forall d :: d in wants ==> wants[d].fd != fd
  }

  /** A channel may join if it is new and wants something. */
  predicate Joins<C(==)>(wants: map<C, Want>, c: C, w: Want) {
    IsNew(wants, c, w.fd) && w.mask != 0
  }

  function WithSlot<C(==)>(p: Poll<C>, c: C, fd: Fd, mask: Mask): Poll<C> {
    p.(pollfds := p.pollfds + [PollFd(fd, mask)], index := p.index[c := |p.pollfds|], channels := p.channels[fd := c])
  }

  lemma JoinKeepsSlot<C>(p: Poll<C>, c: C, w: Want, d: C, v: Want)
    requires HasSlot(p, d, v) && d != c && w.fd !in p.channels
    ensures HasSlot(WithSlot(p, c, w.fd, w.mask), d, v)
  {
  }

  lemma JoinKeepsKnown<C>(p: Poll<C>, c: C, w: Want, i: nat)
    requires c !in p.index && w.fd !in p.channels && i <= |p.pollfds| && (i < |p.pollfds| ==> SlotKnown(p, i))
    ensures SlotKnown(WithSlot(p, c, w.fd, w.mask), i)
  {
  }

  lemma PollJoin<C>(p: Poll<C>, wants: map<C, Want>, c: C, w: Want)
    requires PollInv(p, wants) && Joins(wants, c, w)
    ensures PollInv(PollUpdate(p, c, w.fd, w.mask), wants[c := w])
  {
    MapJoins(p.channels, wants, c, w);
    var p' := WithSlot(p, c, w.fd, w.mask);
    assert PollUpdate(p, c, w.fd, w.mask) == p';
    forall d | d in wants ensures HasSlot(p', d, wants[d]) {
      JoinKeepsSlot(p, c, w, d, wants[d]);
    }
    forall i | 0 <= i < |p'.pollfds| ensures SlotKnown(p', i) {
      JoinKeepsKnown(p, c, w, i);
    }
  }

  /** No two channels share a slot. */
  lemma SlotsDiffer<C>(p: Poll<C>, wants: map<C, Want>, c: C, d: C)
    requires PollInv(p, wants) && c in wants && d in wants && c != d
    ensures HasSlot(p, c, wants[c]) && HasSlot(p, d, wants[d])
    ensures p.index[c] != p.index[d] && wants[c].fd != wants[d].fd
  {
  }

  lemma PollChange<C>(p: Poll<C>, wants: map<C, Want>, c: C, mask: Mask)
    requires PollInv(p, wants) && c in wants
    ensures PollInv(PollUpdate(p, c, wants[c].fd, mask), wants[c := wants[c].(mask := mask)])
  {
    var p', wants' := PollUpdate(p, c, wants[c].fd, mask), wants[c := wants[c].(mask := mask)];
    assert HasSlot(p, c, wants[c]);
    forall d | d in wants' ensures HasSlot(p', d, wants'[d]) {
      if d != c {
        SlotsDiffer(p, wants, c, d);
      }
    }
    forall i | 0 <= i < |p'.pollfds| ensures SlotKnown(p', i) {
      assert SlotKnown(p, i);
    }
  }

  lemma PollLeave<C>(p: Poll<C>, wants: map<C, Want>, c: C)
    requires PollInv(p, wants) && c in wants && wants[c].mask == 0
    ensures PollInv(PollRemove(p, c, wants[c].fd), wants - {c})
  {
    assert HasSlot(p, c, wants[c]);
    if p.index[c] == |p.pollfds| - 1 {
      LeaveLast(p, wants, c);
    } else {
      LeaveSwapped(p, wants, c);
    }
  }

  lemma LeaveLast<C>(p: Poll<C>, wants: map<C, Want>, c: C)
    requires PollInv(p, wants) && c in wants && wants[c].mask == 0 && HasSlot(p, c, wants[c])
    requires p.index[c] == |p.pollfds| - 1
    ensures PollInv(PollRemove(p, c, wants[c].fd), wants - {c})
  {
    var p' := PollRemove(p, c, wants[c].fd);
    forall d | d in wants && d != c ensures HasSlot(p', d, wants[d]) {
      SlotsDiffer(p, wants, c, d);
    }
    forall i | 0 <= i < |p'.pollfds| ensures SlotKnown(p', i) {
      assert SlotKnown(p, i);
    }
  }

  /** The last slot, that of moved, has taken the place of c's. */
  function Swapped<C(==)>(p: Poll<C>, c: C, fd: Fd, moved: C): Poll<C>
    requires c in p.index && 0 <= p.index[c] < |p.pollfds| - 1
  {
    var end := |p.pollfds| - 1;
    p.(channels := p.channels - {fd}, index := (p.index - {c})[moved := p.index[c]],
       pollfds := p.pollfds[..end][p.index[c] := p.pollfds[end]])
  }

  lemma SwapKeepsSlot<C>(p: Poll<C>, c: C, fd: Fd, moved: C, d: C, v: Want)
    requires c in p.index && 0 <= p.index[c] < |p.pollfds| - 1 && moved in p.index && p.index[moved] == |p.pollfds| - 1
    requires HasSlot(p, d, v) && d != c && v.fd != fd && p.index[d] != p.index[c]
    requires d != moved ==> p.index[d] != |p.pollfds| - 1
    ensures HasSlot(Swapped(p, c, fd, moved), d, v)
  {
  }

  lemma SwapKeepsKnown<C>(p: Poll<C>, c: C, fd: Fd, moved: C, i: nat)
    requires HasSlot(p, c, Want(fd, 0)) && p.index[c] < |p.pollfds| - 1 && i < |p.pollfds| - 1
    requires SlotKnown(p, i) && SlotKnown(p, |p.pollfds| - 1) && moved == p.channels[FdAt(p.pollfds[|p.pollfds| - 1])]
    ensures SlotKnown(Swapped(p, c, fd, moved), i)
  {
  }

  lemma RemoveSwaps<C>(p: Poll<C>, wants: map<C, Want>, c: C, moved: C)
    requires PollInv(p, wants) && c in wants && wants[c].mask == 0 && HasSlot(p, c, wants[c])
    requires p.index[c] != |p.pollfds| - 1 && SlotKnown(p, |p.pollfds| - 1)
    requires moved == p.channels[FdAt(p.pollfds[|p.pollfds| - 1])]
    ensures moved in wants && moved != c && PollRemove(p, c, wants[c].fd) == Swapped(p, c, wants[c].fd, moved)
  {
    SlotsDiffer(p, wants, c, moved);
  }

  /** The last slot moves into the hole, and its channel is told. */
  lemma LeaveSwapped<C>(p: Poll<C>, wants: map<C, Want>, c: C)
    requires PollInv(p, wants) && c in wants && wants[c].mask == 0 && HasSlot(p, c, wants[c])
    requires p.index[c] != |p.pollfds| - 1
    ensures PollInv(PollRemove(p, c, wants[c].fd), wants - {c})
  {
    var end := |p.pollfds| - 1;
    assert SlotKnown(p, end);
    var moved := p.channels[FdAt(p.pollfds[end])];
    RemoveSwaps(p, wants, c, moved);
    SlotsDiffer(p, wants, c, moved);
    var p' := Swapped(p, c, wants[c].fd, moved);
    forall d | d in wants && d != c ensures HasSlot(p', d, wants[d]) {
      SlotsDiffer(p, wants, c, d);
      if d != moved {
        SlotsDiffer(p, wants, moved, d);
      }
      SwapKeepsSlot(p, c, wants[c].fd, moved, d, wants[d]);
    }
    forall i | 0 <= i < end ensures SlotKnown(p', i) {
      assert SlotKnown(p, i);
      SwapKeepsKnown(p, c, wants[c].fd, moved, i);
    }
  }

  /** What the assumption on the first update is for: the slot is written as for a
      watched fd, and agrees with an empty mask only if there is none. */
  lemma FirstUpdateNeedsEvents<C>(p: Poll<C>, wants: map<C, Want>, c: C, fd: Fd, mask: Mask)
    requires PollInv(p, wants) && c !in wants && fd !in p.channels
    ensures PollInv(PollUpdate(p, c, fd, mask), wants[c := Want(fd, mask)]) <==> mask != 0
    ensures mask == 0 ==> PollRemove(PollUpdate(p, c, fd, mask), c, fd).bad
  {
    if mask != 0 {
      forall d | d in wants ensures wants[d].fd != fd {
        assert HasSlot(p, d, wants[d]);
      }
      PollJoin(p, wants, c, Want(fd, mask));
    } else {
      assert !HasSlot(PollUpdate(p, c, fd, mask), c, Want(fd, mask));
      assert wants[c := Want(fd, mask)][c] == Want(fd, mask);
    }
  }

  // ----- EPollPoller -----

  datatype Tag = Added | Deleted   // kNew: the channel is not in tags

  /** struct epoll_event as epoll_ctl is given it: the events, and the pointer that
      epoll_wait gives back. */
  datatype Interest<C> = Interest(ptr: C, mask: Mask)

  /** kernel: what epoll_ctl has been told. */
  datatype Epoll<C> = Epoll(channels: map<Fd, C>, tags: map<C, Tag>, kernel: map<Fd, Interest<C>>, bad: bool)

  function CtlAdd<C>(e: Epoll<C>, c: C, fd: Fd, mask: Mask): Epoll<C> {
    if fd in e.kernel then e.(bad := true) else e.(kernel := e.kernel[fd := Interest(c, mask)])
  }

  function CtlMod<C>(e: Epoll<C>, c: C, fd: Fd, mask: Mask): Epoll<C> {
    if fd !in e.kernel then e.(bad := true) else e.(kernel := e.kernel[fd := Interest(c, mask)])
  }

  function CtlDel<C>(e: Epoll<C>, fd: Fd): Epoll<C> {
    if fd !in e.kernel then e.(bad := true) else e.(kernel := e.kernel - {fd})
  }

  predicate EpollHas<C(==)>(e: Epoll<C>, c: C, fd: Fd) {
    fd in e.channels && e.channels[fd] == c
  }

  function EpollUpdate<C(==)>(e: Epoll<C>, c: C, fd: Fd, mask: Mask): Epoll<C> {
    if c !in e.tags then
      if fd in e.channels then e.(bad := true)
      else CtlAdd(e.(channels := e.channels[fd := c], tags := e.tags[c := Added]), c, fd, mask)
    else if !EpollHas(e, c, fd) then e.(bad := true)
    else if e.tags[c] == Deleted then CtlAdd(e.(tags := e.tags[c := Added]), c, fd, mask)
    else if mask == 0 then CtlDel(e.(tags := e.tags[c := Deleted]), fd)
    else CtlMod(e, c, fd, mask)
  }

  function EpollRemove<C(==)>(e: Epoll<C>, c: C, fd: Fd): Epoll<C> {
    if !EpollHas(e, c, fd) || c !in e.tags then e.(bad := true)
    else
      var e1 := e.(channels := e.channels - {fd}, tags := e.tags - {c});
      if e.tags[c] == Added then CtlDel(e1, fd) else e1
  }

  /** The tag says what the kernel has. */
  predicate Mirrored<C(==)>(e: Epoll<C>, c: C, w: Want) {
    && EpollHas(e, c, w.fd) && c in e.tags
    && (e.tags[c] == Added ==> w.fd in e.kernel && e.kernel[w.fd] == Interest(c, w.mask))
    && (e.tags[c] == Deleted ==> w.fd !in e.kernel && w.mask == 0)
  }

  predicate EpollInv<C(==)>(e: Epoll<C>, wants: map<C, Want>) {
    && !e.bad && e.tags.Keys == wants.Keys && MapAgrees(e.channels, wants)
    && (forall c :: c in wants ==> Mirrored(e, c, wants[c]))
    && (forall fd :: fd in e.kernel ==> fd in e.channels)
  }

  function WithTag<C(==)>(e: Epoll<C>, c: C, fd: Fd, mask: Mask): Epoll<C> {
    e.(channels := e.channels[fd := c], tags := e.tags[c := Added], kernel := e.kernel[fd := Interest(c, mask)])
  }

  lemma JoinKeepsMirror<C>(e: Epoll<C>, c: C, w: Want, d: C, v: Want)
    requires Mirrored(e, d, v) && d != c && v.fd != w.fd
    ensures Mirrored(WithTag(e, c, w.fd, w.mask), d, v)
  {
  }

  lemma MapJoins<C>(channels: map<Fd, C>, wants: map<C, Want>, c: C, w: Want)
    requires MapAgrees(channels, wants) && IsNew(wants, c, w.fd)
    ensures w.fd !in channels && MapAgrees(channels[w.fd := c], wants[c := w])
  {
  }

  lemma EpollJoin<C>(e: Epoll<C>, wants: map<C, Want>, c: C, w: Want)
    requires EpollInv(e, wants) && Joins(wants, c, w)
    ensures EpollInv(EpollUpdate(e, c, w.fd, w.mask), wants[c := w])
  {
    MapJoins(e.channels, wants, c, w);
    var e', wants' := WithTag(e, c, w.fd, w.mask), wants[c := w];
    assert EpollUpdate(e, c, w.fd, w.mask) == e';
    forall d | d in wants' ensures Mirrored(e', d, wants'[d]) {
      if d != c {
        JoinKeepsMirror(e, c, w, d, wants[d]);
      }
    }
  }

  lemma EpollChange<C>(e: Epoll<C>, wants: map<C, Want>, c: C, mask: Mask)
    requires EpollInv(e, wants) && c in wants
    ensures EpollInv(EpollUpdate(e, c, wants[c].fd, mask), wants[c := wants[c].(mask := mask)])
  {
  }

  lemma EpollLeave<C>(e: Epoll<C>, wants: map<C, Want>, c: C)
    requires EpollInv(e, wants) && c in wants && wants[c].mask == 0
    ensures EpollInv(EpollRemove(e, c, wants[c].fd), wants - {c})
  {
  }

  // ----- side by side -----

  type Id = nat

  /** retired: channels that have been removed; they are not used again. */
  datatype Both = Both(wants: map<Id, Want>, retired: set<Id>, poll: Poll<Id>, epoll: Epoll<Id>)

  datatype Event = Update(c: Id, fd: Fd, mask: Mask) | Remove(c: Id)

  predicate Enabled(b: Both, e: Event) {
    match e
    case Update(c, fd, mask) =>
      if c in b.wants then b.wants[c].fd == fd else c !in b.retired && Joins(b.wants, c, Want(fd, mask))
    case Remove(c) => c in b.wants && b.wants[c].mask == 0
  }

  function Apply(b: Both, e: Event): Both {
    match e
    case Update(c, fd, mask) =>
      b.(wants := b.wants[c := Want(fd, mask)],
         poll := PollUpdate(b.poll, c, fd, mask), epoll := EpollUpdate(b.epoll, c, fd, mask))
    case Remove(c) =>
      if c !in b.wants then b
      else b.(wants := b.wants - {c}, retired := b.retired + {c},
              poll := PollRemove(b.poll, c, b.wants[c].fd), epoll := EpollRemove(b.epoll, c, b.wants[c].fd))
  }

  const PAIR: Machine<Both, Event> := Machine(Enabled, Apply)

  const FRESH := Both(map[], {}, Poll([], map[], map[], false), Epoll(map[], map[], map[], false))

  predicate Inv(b: Both) {
    PollInv(b.poll, b.wants) && EpollInv(b.epoll, b.wants)
  }

  lemma StepKeepsInv(b: Both, e: Event)
    requires Inv(b) && Enabled(b, e)
    ensures Inv(Apply(b, e))
  {
    match e
    case Update(c, fd, mask) =>
      if c in b.wants {
        PollChange(b.poll, b.wants, c, mask);
        EpollChange(b.epoll, b.wants, c, mask);
      } else {
        PollJoin(b.poll, b.wants, c, Want(fd, mask));
        EpollJoin(b.epoll, b.wants, c, Want(fd, mask));
      }
    case Remove(c) =>
      PollLeave(b.poll, b.wants, c);
      EpollLeave(b.epoll, b.wants, c);
  }

  /** After any legal sequence of updates and removals: slots and channels are in
      bijection through the indices, no epoll_ctl has failed, no assert has failed. */
  lemma InvAlways(es: seq<Event>)
    requires Legal(PAIR, FRESH, es)
    ensures Inv(Exec(PAIR, FRESH, es))
  {
    forall x, e | Inv(x) && PAIR.enabled(x, e) ensures Inv(PAIR.apply(x, e)) {
      StepKeepsInv(x, e);
    }
    Always(PAIR, Inv, FRESH, es);
  }

  predicate PollWatches(p: Poll<Id>, fd: Fd, mask: Mask) {
    PollFd(fd, mask) in p.pollfds
  }

  predicate EpollWatches(e: Epoll<Id>, fd: Fd, mask: Mask) {
    fd in e.kernel && e.kernel[fd].mask == mask
  }

  predicate Wanted(wants: map<Id, Want>, fd: Fd, mask: Mask) {
    exists c :: c in wants && wants[c] == Want(fd, mask)
  }

  lemma PollInterest(p: Poll<Id>, wants: map<Id, Want>, fd: Fd, mask: Mask)
    requires PollInv(p, wants)
    ensures PollWatches(p, fd, mask) <==> mask != 0 && Wanted(wants, fd, mask)
  {
    if PollWatches(p, fd, mask) {
      var i :| 0 <= i < |p.pollfds| && p.pollfds[i] == PollFd(fd, mask);
      assert SlotKnown(p, i);
      var c := p.channels[fd];
      assert HasSlot(p, c, wants[c]);
    }
    if mask != 0 && Wanted(wants, fd, mask) {
      var c :| c in wants && wants[c] == Want(fd, mask);
      assert HasSlot(p, c, wants[c]);
    }
  }

  lemma EpollInterest(e: Epoll<Id>, wants: map<Id, Want>, fd: Fd, mask: Mask)
    requires EpollInv(e, wants) && mask != 0
    ensures EpollWatches(e, fd, mask) <==> Wanted(wants, fd, mask)
  {
  }

  /** After any such sequence both watch the same fds for the same events: those the
      channels ask for. */
  lemma SameInterest(es: seq<Event>, fd: Fd, mask: Mask)
    requires Legal(PAIR, FRESH, es) && mask != 0
    ensures var b := Exec(PAIR, FRESH, es);
            && (PollWatches(b.poll, fd, mask) <==> Wanted(b.wants, fd, mask))
            && (EpollWatches(b.epoll, fd, mask) <==> Wanted(b.wants, fd, mask))
  {
    InvAlways(es);
    var b := Exec(PAIR, FRESH, es);
    PollInterest(b.poll, b.wants, fd, mask);
    EpollInterest(b.epoll, b.wants, fd, mask);
  }

  lemma NewcomerUnknown(b: Both, c: Id, fd: Fd)
    requires Inv(b) && IsNew(b.wants, c, fd)
    ensures fd !in b.poll.channels && fd !in b.epoll.channels && fd !in b.epoll.kernel
    ensures c !in b.poll.index && c !in b.epoll.tags && PollFd(fd, 0) !in b.poll.pollfds
  {
    forall i | 0 <= i < |b.poll.pollfds| ensures FdAt(b.poll.pollfds[i]) in b.poll.channels {
      assert SlotKnown(b.poll, i);
    }
  }

  /** Where they part: the kernel is told to watch an fd for nothing, and still
      reports HUP and ERR for it, exactly if an update with an empty mask is the first
      of its channel or follows another one, and the kernel did not do so before.
      PollPoller's slot stays negative, but for a first update. */
  lemma WatchedForNothing(b: Both, c: Id, fd: Fd, mask: Mask)
    requires Inv(b)
    requires if c in b.wants then b.wants[c].fd == fd else IsNew(b.wants, c, fd)
    ensures EpollWatches(EpollUpdate(b.epoll, c, fd, mask), fd, 0)
        <==> mask == 0 && (c in b.wants ==> b.wants[c].mask == 0) && !EpollWatches(b.epoll, fd, 0)
    ensures PollWatches(PollUpdate(b.poll, c, fd, mask), fd, 0) <==> mask == 0 && c !in b.wants
  {
    if c in b.wants {
      PollChange(b.poll, b.wants, c, mask);
      PollInterest(PollUpdate(b.poll, c, fd, mask), b.wants[c := b.wants[c].(mask := mask)], fd, 0);
      assert Mirrored(b.epoll, c, b.wants[c]);
    } else {
      NewcomerUnknown(b, c, fd);
    }
  }

  /** After any legal sequence: the pointer the kernel keeps with an fd is the channel
      registered for it, so what epoll_wait gives back can be used. */
  lemma KernelPointers(es: seq<Event>, fd: Fd)
    requires Legal(PAIR, FRESH, es)
    ensures var e := Exec(PAIR, FRESH, es).epoll;
            fd in e.kernel ==> fd in e.channels && e.channels[fd] == e.kernel[fd].ptr
  {
    InvAlways(es);
    var b := Exec(PAIR, FRESH, es);
    PointerValid(b.epoll, b.wants, fd);
  }

  lemma PointerValid<C>(e: Epoll<C>, wants: map<C, Want>, fd: Fd)
    requires EpollInv(e, wants)
    ensures fd in e.kernel ==>
              && fd in e.channels && e.channels[fd] == e.kernel[fd].ptr
              && e.channels[fd] in wants && wants[e.channels[fd]].fd == fd
  {
    if fd in e.kernel {
      assert Mirrored(e, e.channels[fd], wants[e.channels[fd]]);
    }
  }
}
