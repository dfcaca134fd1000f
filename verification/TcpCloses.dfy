/** net/TcpConnection.cc with the poller behind it: one UP, one DOWN, one close, and
    exactly when there is more.

    A close disables the channel. If the channel watched nothing before, EPollPoller
    makes the kernel watch it for nothing, and a hangup that is then reported closes
    the connection a second time. */
module TcpCloses {
  import opened Machines
  import opened Seqs
  import opened TcpConnections
  import Pollers

  /** The callbacks made are a beginning of UP, DOWN, close; the channel is removed
      with an empty mask after DOWN; no assert has failed. */
  predicate Settled(c: Conn) {
    && !c.failed && c.hist.log <= [Up, Down, Closed]
    && (c.removed ==> c.mask == NONE_EVENT && [Up, Down] <= c.hist.log)
  }

  /** A closed connection of which nothing more is to come. */
  predicate Calm(c: Conn) {
    c.phase == Disconnected ==>
      && !c.failed && !c.held && !c.todo.close
      && (c.hist.log == [Up, Down, Closed] || (c.hist.log == [Up, Down] && c.removed))
  }

  lemma CalmIsSettled(c: Conn)
    requires Inv(c) && Calm(c)
    ensures Settled(c)
  {
  }

  // ----- the poller behind it -----

  /** events(): kReadEvent is POLLIN | POLLPRI, kWriteEvent is POLLOUT. */
  function Events(mask: Mask): nat {
    (if mask.read then 3 else 0) + (if mask.write then 4 else 0)
  }

  /** What the connection knows of its channel is what the back end has. */
  predicate Agrees(c: Conn, b: Pollers.Both, id: Pollers.Id, fd: Pollers.Fd) {
    && Pollers.Inv(b) && id in b.wants && b.wants[id] == Pollers.Want(fd, Events(c.mask))
    && (c.held <==> c.setup.epoll && Pollers.EpollWatches(b.epoll, fd, 0))
    && (!c.setup.epoll ==> !Pollers.PollWatches(b.poll, fd, 0))
  }

  /** Watch does what Channel::update does through either of them. */
  lemma WatchIsUpdate(c: Conn, mask: Mask, b: Pollers.Both, id: Pollers.Id, fd: Pollers.Fd)
    requires Agrees(c, b, id, fd)
    ensures Agrees(Watch(c, mask), Pollers.Apply(b, Pollers.Update(id, fd, Events(mask))), id, fd)
  {
    Pollers.StepKeepsInv(b, Pollers.Update(id, fd, Events(mask)));
    Pollers.WatchedForNothing(b, id, fd, Events(mask));
  }

  // ----- the steps that disable a channel that watches nothing -----

  predicate Closes(c: Conn, e: Event) {
    Live(c) && !Live(Apply(c, e)) && !e.Destroyed?
  }

  predicate Redundant(c: Conn, e: Event) {
    c.mask == NONE_EVENT && (Closes(c, e) || (e.StopRead? && c.reading))
  }

  /** A PollPoller minds it only once the channel has been removed. */
  predicate Harmful(c: Conn, e: Event) {
    Redundant(c, e) && (c.setup.epoll || c.removed)
  }

  const CAREFUL: Machine<Conn, Event> := Machine((c: Conn, e: Event) => Enabled(c, e) && !Harmful(c, e), Apply)

  lemma CloseIsCalm(c: Conn)
    requires Inv(c) && Live(c) && !c.todo.close && (c.mask != NONE_EVENT || !c.setup.epoll)
    ensures Calm(HandleClose(c))
  {
  }

  lemma CalmCallback(c: Conn, r: ReadResult, w: WriteResult)
    requires Inv(c) && Calm(c) && Enabled(c, Callbacks(r, w)) && !Harmful(c, Callbacks(r, w))
    ensures Calm(Handle(c, r, w))
  {
    CallbackApplies(c, r, w);
    if c.todo.close {
      CloseIsCalm(c.(todo := c.todo.(close := false)));
    } else if c.todo.error {
    } else if c.todo.read {
      if r == Eof {
        CloseIsCalm(c.(todo := c.todo.(read := false)));
      }
    } else {
      WriteEffect(c.(todo := c.todo.(write := false)), w);
    }
  }

  lemma CalmTask(c: Conn, w: WriteResult)
    requires Inv(c) && Calm(c) && Enabled(c, Task(w)) && !Harmful(c, Task(w))
    ensures Calm(RunTask(c, w))
  {
    var c1 := c.(tasks := c.tasks[1..]);
    match c.tasks[0]
    case SendTask(msg) =>
      if !Dropped(c1, w) {
        SendEffect(c1, msg, w, if Direct(c1) && w.Wrote? then w.n else 0);
      }
    case ForceCloseTask =>
      if Live(c1) {
        assert Apply(c, Task(w)) == HandleClose(c1);
        CloseIsCalm(c1);
      }
    case _ =>
  }

  lemma CalmStep(c: Conn, e: Event)
    requires Inv(c) && Calm(c) && Enabled(c, e) && !Harmful(c, e)
    ensures Calm(Apply(c, e))
  {
    match e
    case Send(msg, w) =>
      if c.phase == Connected && !Dropped(c, w) {
        SendEffect(c, msg, w, if Direct(c) && w.Wrote? then w.n else 0);
      }
    case Callbacks(r, w) => CalmCallback(c, r, w);
    case Task(w) => CalmTask(c, w);
    case _ =>
  }

  lemma {:induction false} CarefulRun(c: Conn, es: seq<Event>)
    requires Inv(c) && Calm(c) && Legal(CAREFUL, c, es)
    ensures Exec(CAREFUL, c, es) == Exec(TCP, c, es) && Legal(TCP, c, es)
    ensures Inv(Exec(TCP, c, es)) && Calm(Exec(TCP, c, es))
    decreases |es|
  {
    if es != [] {
      var init, last := es[..|es| - 1], es[|es| - 1];
      CarefulRun(c, init);
      StepKeepsInv(Exec(TCP, c, init), last);
      CalmStep(Exec(TCP, c, init), last);
    }
  }

  /** After any run in which no channel that watches nothing is disabled: one UP,
      one DOWN, one close at most, and no assert has failed. */
  lemma OneUpOneDown(setup: Setup, es: seq<Event>)
    requires Legal(CAREFUL, Fresh(setup), es)
    ensures Legal(TCP, Fresh(setup), es) && Settled(Exec(TCP, Fresh(setup), es))
  {
    CarefulRun(Fresh(setup), es);
    CalmIsSettled(Exec(TCP, Fresh(setup), es));
  }

  // ----- what goes wrong otherwise -----

  const HANGUP_ONLY := Revents(false, false, false, false, true, false, false)

  predicate NoStopRead(es: seq<Event>) {
    forall e :: e in es ==> !e.StopRead?
  }

  /** A closed connection is not opened again. */
  lemma ClosedStays(c: Conn, e: Event)
    requires Inv(c) && c.phase == Disconnected && Enabled(c, e)
    ensures Apply(c, e).phase == Disconnected && (!e.StopRead? ==> Apply(c, e).reading == c.reading)
  {
    match e
    case Callbacks(r, w) =>
      CallbackApplies(c, r, w);
      if !c.todo.close && !c.todo.error && !c.todo.read {
        WriteEffect(c.(todo := c.todo.(write := false)), w);
      }
    case _ =>
  }

  /** Whatever is not a stopRead is harmless to it. */
  lemma {:induction false} ClosedIsCareful(c: Conn, es: seq<Event>)
    requires Inv(c) && c.phase == Disconnected && Legal(TCP, c, es) && NoStopRead(es)
    ensures Legal(CAREFUL, c, es) && Exec(CAREFUL, c, es) == Exec(TCP, c, es)
    ensures Inv(Exec(TCP, c, es)) && Exec(TCP, c, es).phase == Disconnected && Exec(TCP, c, es).reading == c.reading
    decreases |es|
  {
    if es != [] {
      var init, last := es[..|es| - 1], es[|es| - 1];
      ClosedIsCareful(c, init);
      ClosedStays(Exec(TCP, c, init), last);
      StepKeepsInv(Exec(TCP, c, init), last);
    }
  }

  /** Watched for nothing, a hangup is reported and closes it once more. */
  lemma SecondClose(c: Conn)
    requires c.phase == Disconnected && c.held && c.mask == NONE_EVENT && c.todo == NOTHING
    ensures var es := [Poll(HANGUP_ONLY), Callbacks(ReadError, WouldBlock)];
            && Legal(TCP, c, es) && NoStopRead(es) && Exec(TCP, c, es).failed
            && Exec(TCP, c, es).hist.log == c.hist.log + [Down, Closed]
  {
    var c1 := c.(todo := NOTHING.(close := true));
    assert Apply(c, Poll(HANGUP_ONLY)) == c1;
    CallbackApplies(c1, ReadError, WouldBlock);
    Two(TCP, c, Poll(HANGUP_ONLY), Callbacks(ReadError, WouldBlock));
  }

  lemma WrongLater(c: Conn, fs: seq<Event>, x: Conn, gs: seq<Event>)
    requires Legal(TCP, c, fs) && Exec(TCP, c, fs) == x && Legal(TCP, x, gs) && !Settled(Exec(TCP, x, gs))
    ensures Legal(TCP, c, fs + gs) && !Settled(Exec(TCP, c, fs + gs))
  {
    Compose(TCP, c, fs, gs);
  }

  lemma HeldFails(c: Conn) returns (es: seq<Event>)
    requires Inv(c) && c.phase == Disconnected && c.held && !c.todo.close
    ensures Legal(TCP, c, es) && NoStopRead(es) && !Settled(Exec(TCP, c, es))
  {
    var fs := RoundEnds(c);
    var gs := [Poll(HANGUP_ONLY), Callbacks(ReadError, WouldBlock)];
    SecondClose(c.(todo := NOTHING));
    WrongLater(c, fs, c.(todo := NOTHING), gs);
    es := fs + gs;
  }

  lemma HarmfulHolds(c: Conn, e: Event)
    requires Inv(c) && Calm(c) && Enabled(c, e) && Harmful(c, e)
    ensures var x := Apply(c, e); x.phase == Disconnected && (x.failed || (x.held && !x.todo.close))
  {
    match e
    case Callbacks(r, w) =>
      CallbackApplies(c, r, w);
      if !c.todo.close && !c.todo.error && !c.todo.read {
        WriteEffect(c.(todo := c.todo.(write := false)), w);
      }
    case Send(msg, w) =>
      if c.phase == Connected && !Dropped(c, w) {
        SendEffect(c, msg, w, if Direct(c) && w.Wrote? then w.n else 0);
      }
    case Task(w) =>
      var c1 := c.(tasks := c.tasks[1..]);
      if c.tasks[0].SendTask? && !Dropped(c1, w) {
        SendEffect(c1, c.tasks[0].msg, w, if Direct(c1) && w.Wrote? then w.n else 0);
      }
    case _ =>
  }

  /** A run of careful steps after which the callbacks or an assert are wrong. */
  ghost predicate GoesWrong(c: Conn) {
    exists es :: Legal(CAREFUL, c, es) && !Settled(Exec(TCP, c, es))
  }

  lemma HarmfulGoesWrong(c: Conn, e: Event)
    requires Inv(c) && Calm(c) && Enabled(c, e) && Harmful(c, e)
    ensures GoesWrong(Apply(c, e))
  {
    var x := Apply(c, e);
    StepKeepsInv(c, e);
    HarmfulHolds(c, e);
    if x.failed {
      assert Legal(CAREFUL, x, []) && !Settled(Exec(TCP, x, []));
    } else {
      var es := HeldFails(x);
      ClosedIsCareful(x, es);
    }
  }

  lemma HarmlessGoesRight(c: Conn, e: Event)
    requires Inv(c) && Calm(c) && Enabled(c, e) && !Harmful(c, e)
    ensures !GoesWrong(Apply(c, e))
  {
    StepKeepsInv(c, e);
    CalmStep(c, e);
    forall es | Legal(CAREFUL, Apply(c, e), es) ensures Settled(Exec(TCP, Apply(c, e), es)) {
      CarefulRun(Apply(c, e), es);
      CalmIsSettled(Exec(TCP, Apply(c, e), es));
    }
  }

  /** The condition is exact, step by step: after careful steps, one more step lets
      something go wrong later, all later steps being careful, if and only if it
      disables a channel that watches nothing. */
  lemma HarmExactly(setup: Setup, es: seq<Event>, e: Event)
    requires Legal(CAREFUL, Fresh(setup), es) && Enabled(Exec(TCP, Fresh(setup), es), e)
    ensures GoesWrong(Apply(Exec(TCP, Fresh(setup), es), e)) <==> Harmful(Exec(TCP, Fresh(setup), es), e)
  {
    CarefulRun(Fresh(setup), es);
    var c := Exec(TCP, Fresh(setup), es);
    if Harmful(c, e) {
      HarmfulGoesWrong(c, e);
    } else {
      HarmlessGoesRight(c, e);
    }
  }

  // ----- the same, seen from the close -----

  /** Nothing goes wrong in any run from here; the first without a later stopRead. */
  ghost predicate SafeUnlessStopped(c: Conn) {
    forall es :: Legal(TCP, c, es) && NoStopRead(es) ==> Settled(Exec(TCP, c, es))
  }

  ghost predicate Safe(c: Conn) {
    forall es :: Legal(TCP, c, es) ==> Settled(Exec(TCP, c, es))
  }

  lemma {:induction false} NotReadingIsCareful(c: Conn, es: seq<Event>)
    requires Inv(c) && c.phase == Disconnected && !c.reading && Legal(TCP, c, es)
    ensures Legal(CAREFUL, c, es) && Inv(Exec(TCP, c, es)) && Exec(CAREFUL, c, es) == Exec(TCP, c, es)
    ensures Exec(TCP, c, es).phase == Disconnected && !Exec(TCP, c, es).reading
    decreases |es|
  {
    if es != [] {
      var init, last := es[..|es| - 1], es[|es| - 1];
      NotReadingIsCareful(c, init);
      ClosedStays(Exec(TCP, c, init), last);
      StepKeepsInv(Exec(TCP, c, init), last);
    }
  }

  lemma CalmIsSafe(c: Conn)
    requires Inv(c) && Calm(c) && c.phase == Disconnected
    ensures SafeUnlessStopped(c) && (!c.reading ==> Safe(c))
  {
    forall es | Legal(TCP, c, es) && (NoStopRead(es) || !c.reading) ensures Settled(Exec(TCP, c, es)) {
      if NoStopRead(es) {
        ClosedIsCareful(c, es);
      } else {
        NotReadingIsCareful(c, es);
      }
      CarefulRun(c, es);
      CalmIsSettled(Exec(TCP, c, es));
    }
  }

  /** With EPollPoller a stopRead makes the kernel watch for nothing. */
  lemma StoppedThenHangup(c: Conn) returns (es: seq<Event>)
    requires Inv(c) && c.phase == Disconnected && c.reading && !c.held && c.setup.epoll && c.todo == NOTHING
    ensures Legal(TCP, c, es) && !Settled(Exec(TCP, c, es))
  {
    var x := Apply(c, StopRead);
    StepKeepsInv(c, StopRead);
    assert x == StopReadInLoop(c);
    var fs := HeldFails(x);
    Snoc(TCP, c, [], StopRead);
    WrongLater(c, [] + [StopRead], x, fs);
    es := ([] + [StopRead]) + fs;
  }

  /** With PollPoller it does no harm before the channel is removed, and then at once. */
  lemma DestroyedThenStopped(c: Conn)
    requires Inv(c) && c.phase == Disconnected && c.reading && !c.setup.epoll && c.todo == NOTHING
    requires !c.removed && c.hist.log == [Up, Down, Closed]
    ensures Legal(TCP, c, [Destroyed, StopRead]) && !Settled(Exec(TCP, c, [Destroyed, StopRead]))
  {
    Two(TCP, c, Destroyed, StopRead);
    assert Apply(c, Destroyed) == ConnectDestroyed(c);
    assert Apply(ConnectDestroyed(c), StopRead) == StopReadInLoop(ConnectDestroyed(c));
  }

  lemma StoppedLater(c: Conn)
    requires Inv(c) && Calm(c) && c.phase == Disconnected && c.reading && c.hist.log == [Up, Down, Closed] && !c.removed
    ensures !Safe(c)
  {
    var es := RoundEnds(c);
    var x := c.(todo := NOTHING);
    InvAlways(c, es);
    if c.setup.epoll {
      var fs := StoppedThenHangup(x);
      WrongLater(c, es, x, fs);
    } else {
      DestroyedThenStopped(x);
      WrongLater(c, es, x, [Destroyed, StopRead]);
    }
  }

  /** What is left of a connection that has been closed makes no further callback and
      violates no assert in any run: if it is not stopped from reading later, exactly
      if it watched something at the close, or the poller is a PollPoller; and with a
      later stopRead, exactly if it was also not reading. */
  lemma CloseIsFinal(c: Conn)
    requires Inv(c) && Live(c) && !c.todo.close && !c.todo.read
    ensures SafeUnlessStopped(HandleClose(c)) <==> c.mask != NONE_EVENT || !c.setup.epoll
    ensures Safe(HandleClose(c)) <==> (c.mask != NONE_EVENT || !c.setup.epoll) && !c.reading
  {
    var x := HandleClose(c);
    CloseKeepsInv(c);
    if c.mask != NONE_EVENT || !c.setup.epoll {
      CloseIsCalm(c);
      CalmIsSafe(x);
      if c.reading {
        StoppedLater(x);
      }
    } else {
      var es := HeldFails(x);
      assert Legal(TCP, x, es) && NoStopRead(es) && !Settled(Exec(TCP, x, es));
    }
  }

  /** An input: an idle connection that has stopped reading is closed by force, and
      the peer hangs up before it is destroyed. */
  function IdleForceClose(): seq<Event> {
    [Established, StopRead, ForceCloses, Task(WouldBlock)]
  }

  lemma IdleForceCloseRuns(setup: Setup)
    ensures Legal(TCP, Fresh(setup), IdleForceClose())
    ensures var c := Exec(TCP, Fresh(setup), IdleForceClose());
            && c.phase == Disconnected && c.mask == NONE_EVENT && c.todo == NOTHING && c.held == setup.epoll
            && c.hist.log == [Up, Down, Closed]
  {
    var c := Fresh(setup);
    var c2 := StopReadInLoop(ConnectEstablished(c));
    assert Apply(c, Established) == ConnectEstablished(c) && Apply(ConnectEstablished(c), StopRead) == c2;
    Two(TCP, c, Established, StopRead);
    var c3 := ForceClose(c2);
    assert Apply(c2, ForceCloses) == c3 && Apply(c3, Task(WouldBlock)) == RunTask(c3, WouldBlock);
    Two(TCP, c2, ForceCloses, Task(WouldBlock));
    Compose(TCP, c, [Established, StopRead], [ForceCloses, Task(WouldBlock)]);
    assert IdleForceClose() == [Established, StopRead] + [ForceCloses, Task(WouldBlock)];
  }

  lemma IdleForceCloseFails(setup: Setup)
    requires setup.epoll
    ensures var es := IdleForceClose() + [Poll(HANGUP_ONLY), Callbacks(ReadError, WouldBlock)];
            && Legal(TCP, Fresh(setup), es) && Exec(TCP, Fresh(setup), es).failed
            && Exec(TCP, Fresh(setup), es).hist.log == [Up, Down, Closed, Down, Closed]
  {
    IdleForceCloseRuns(setup);
    SecondClose(Exec(TCP, Fresh(setup), IdleForceClose()));
    Compose(TCP, Fresh(setup), IdleForceClose(), [Poll(HANGUP_ONLY), Callbacks(ReadError, WouldBlock)]);
  }
}
