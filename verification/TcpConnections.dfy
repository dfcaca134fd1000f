/** net/TcpConnection.cc, with the dispatch of net/Channel.cc: the life of one
    connection and its output.

    What the kernel answers (bytes taken, errno, poll results) and when other
    threads call in are the events of a run. state_ changes in single steps. */
module TcpConnections {
  import opened Machines
  import opened Seqs

  datatype Phase = Disconnected | Connecting | Connected | Disconnecting

  /** Channel::events_: kReadEvent and kWriteEvent are only ever set and cleared whole. */
  datatype Mask = Mask(read: bool, write: bool)

  const NONE_EVENT := Mask(false, false)

  /** What write(2) answers; Broken is EPIPE or ECONNRESET. */
  datatype WriteResult = Wrote(n: nat) | WouldBlock | Broken | Failed

  datatype ReadResult = Data | Eof | ReadError

  datatype Revents = Revents(in_: bool, pri: bool, rdhup: bool, out: bool, hup: bool, err: bool, nval: bool)

  /** The callbacks that handleEventWithGuard still has to make, in this order. */
  datatype Todo = Todo(close: bool, error: bool, read: bool, write: bool)

  const NOTHING := Todo(false, false, false, false)

  /** What the connection has put into the loop's queue. */
  datatype Task =
    | SendTask(msg: seq<byte>) | ShutdownTask | ForceCloseTask
    | WriteCompleteTask | HighWaterTask(size: nat)

  datatype Callback = Up | Down | Closed

  /** wire: what the kernel has taken; accepted: the messages sendInLoop did not drop;
      shutdowns: for each shutdown of the write side of a live connection, the bytes
      owed at that moment (once it is closed its bytes are lost with it);
      log: the connection and close callbacks made. */
  datatype History = History(wire: seq<byte>, accepted: seq<seq<byte>>, shutdowns: seq<seq<byte>>, log: seq<Callback>)

  /** Which optional callbacks the user has set, the mark, and whether the loop's
      poller is an EPollPoller, as by default, or a PollPoller. */
  datatype Setup = Setup(onWriteComplete: bool, onHighWater: bool, highWaterMark: nat, epoll: bool)

  datatype Conn = Conn(
    phase: Phase,
    reading: bool,
    mask: Mask,
    held: bool,       // the kernel watches the fd for nothing, and still reports HUP and ERR
    output: seq<byte>,
    setup: Setup,
    tasks: seq<Task>,
    todo: Todo,
    asked: bool,      // shutdown() has taken effect
    removed: bool,    // the channel has left the poller
    failed: bool,     // an assert of the source has been violated
    hist: History)

  predicate Live(c: Conn) {
    c.phase == Connected || c.phase == Disconnecting
  }

  /** Channel::update with this mask. As Pollers.WatchedForNothing says of EPollPoller,
      an empty mask after an empty mask makes the kernel watch for nothing, and
      once more ends that. */
  function Watch(c: Conn, mask: Mask): Conn {
    c.(mask := mask, held := c.setup.epoll && mask == NONE_EVENT && c.mask == NONE_EVENT && !c.held)
  }

  function WatchWrites(c: Conn, write: bool): Conn {
    Watch(c, c.mask.(write := write))
  }

  // ----- sending -----

  function QueuedMessages(tasks: seq<Task>): seq<seq<byte>> {
    if tasks == [] then []
    else QueuedMessages(tasks[..|tasks| - 1]) +
         (if tasks[|tasks| - 1].SendTask? then [tasks[|tasks| - 1].msg] else [])
  }

  /** What send() took and the kernel has not: the buffer, and what waits in the loop's queue. */
  function Owed(c: Conn): seq<byte> {
    c.output + Flatten(QueuedMessages(c.tasks))
  }

  function Accept(c: Conn, msg: seq<byte>, sent: nat): Conn
    requires sent <= |msg|
  {
    c.(hist := c.hist.(wire := c.hist.wire + msg[..sent], accepted := c.hist.accepted + [msg]))
  }

  /** The tasks after n bytes have been added to the buffer. */
  function HighWater(c: Conn, n: nat): seq<Task> {
    c.tasks + if c.setup.onHighWater && |c.output| + n >= c.setup.highWaterMark > |c.output|
              then [HighWaterTask(|c.output| + n)] else []
  }

  function Buffered(c: Conn, rest: seq<byte>): Conn {
    if rest == [] then c
    else WatchWrites(c, true).(output := c.output + rest, tasks := HighWater(c, |rest|))
  }

  function Complete(c: Conn): Conn {
    if c.setup.onWriteComplete then c.(tasks := c.tasks + [WriteCompleteTask]) else c
  }

  /** The fast path: write(2) at once, when nothing is waiting. */
  predicate Direct(c: Conn) {
    !c.mask.write && c.output == []
  }

  predicate Fits(msg: seq<byte>, w: WriteResult) {
    w.Wrote? ==> w.n <= |msg|
  }

  predicate Dropped(c: Conn, w: WriteResult) {
    c.phase == Disconnected || (Direct(c) && w == Broken)
  }

  function SendInLoop(c: Conn, msg: seq<byte>, w: WriteResult): Conn
    requires Fits(msg, w)
  {
    if Dropped(c, w) then c
    else
      var nwrote := if Direct(c) && w.Wrote? then w.n else 0;
      var c1 := Accept(c, msg, nwrote);
      if Direct(c) && w.Wrote? && nwrote == |msg| then Complete(c1) else Buffered(c1, msg[nwrote..])
  }

  // ----- closing -----

  function ShutdownInLoop(c: Conn): Conn {
    if c.mask.write || !Live(c) then c else c.(hist := c.hist.(shutdowns := c.hist.shutdowns + [Owed(c)]))
  }

  function Shutdown(c: Conn): Conn {
    if c.phase == Connected then ShutdownInLoop(c.(phase := Disconnecting, asked := true)) else c
  }

  /** A failed assert is recorded, and the rest done as without asserts. */
  function HandleClose(c: Conn): Conn {
    Watch(c, NONE_EVENT).(
      phase := Disconnected, failed := c.failed || !Live(c), hist := c.hist.(log := c.hist.log + [Down, Closed]))
  }

  function ForceClose(c: Conn): Conn {
    if Live(c) then c.(phase := Disconnecting, tasks := c.tasks + [ForceCloseTask]) else c
  }

  predicate Writes(c: Conn, w: WriteResult) {
    c.mask.write && w.Wrote? && w.n > 0
  }

  function Taken(c: Conn, n: nat): Conn
    requires n <= |c.output|
  {
    c.(hist := c.hist.(wire := c.hist.wire + c.output[..n]), output := c.output[n..])
  }

  function Drained(c: Conn): Conn {
    var c1 := Complete(WatchWrites(c, false));
    if c.phase == Disconnecting then ShutdownInLoop(c1) else c1
  }

  function HandleWrite(c: Conn, w: WriteResult): Conn
    requires Fits(c.output, w)
  {
    if !Writes(c, w) then c
    else if w.n < |c.output| then Taken(c, w.n)
    else Drained(Taken(c, w.n))
  }

  function HandleRead(c: Conn, r: ReadResult): Conn {
    if r == Eof then HandleClose(c) else c
  }

  function ConnectEstablished(c: Conn): Conn {
    if c.phase != Connecting then c.(failed := true)
    else Watch(c, c.mask.(read := true)).(phase := Connected, hist := c.hist.(log := c.hist.log + [Up]))
  }

  function ConnectDestroyed(c: Conn): Conn {
    var c1 := if c.phase == Connected
              then c.(phase := Disconnected, mask := NONE_EVENT, hist := c.hist.(log := c.hist.log + [Down]))
              else c;
    c1.(removed := true, held := false, failed := c.failed || c1.mask != NONE_EVENT)
  }

  function StartReadInLoop(c: Conn): Conn {
    if !c.reading || !c.mask.read then Watch(c, c.mask.(read := true)).(reading := true) else c
  }

  /** Of a removed channel a PollPoller knows no slot any more, which is an assert of
      its updateChannel; an EPollPoller takes it for a new one. */
  function StopReadInLoop(c: Conn): Conn {
    if c.reading || c.mask.read
    then Watch(c, c.mask.(read := false)).(reading := false, failed := c.failed || (c.removed && !c.setup.epoll))
    else c
  }

  // ----- dispatch -----

  function Dispatch(rev: Revents): Todo {
    Todo(rev.hup && !rev.in_, rev.err || rev.nval, rev.in_ || rev.pri || rev.rdhup, rev.out)
  }

  /** The next callback of handleEventWithGuard. */
  function Handle(c: Conn, r: ReadResult, w: WriteResult): Conn
    requires Fits(c.output, w)
  {
    if c.todo.close then HandleClose(c.(todo := c.todo.(close := false)))
    else if c.todo.error then c.(todo := c.todo.(error := false))
    else if c.todo.read then HandleRead(c.(todo := c.todo.(read := false)), r)
    else HandleWrite(c.(todo := c.todo.(write := false)), w)
  }

  function RunTask(c: Conn, w: WriteResult): Conn
    requires c.tasks != [] && (c.tasks[0].SendTask? ==> Fits(c.tasks[0].msg, w))
  {
    var c1 := c.(tasks := c.tasks[1..]);
    match c.tasks[0]
    case SendTask(msg) => SendInLoop(c1, msg, w)
    case ShutdownTask => ShutdownInLoop(c1)
    case ForceCloseTask => if Live(c1) then HandleClose(c1) else c1
    case _ => c1
  }

  datatype Event =
    | Established
    | Destroyed
    | Send(msg: seq<byte>, w: WriteResult)   // in the loop thread
    | SendElsewhere(msg: seq<byte>)
    | ShutdownHere
    | ShutdownElsewhere
    | ForceCloses
    | StartRead
    | StopRead
    | Poll(rev: Revents)
    | Callbacks(r: ReadResult, w: WriteResult)
    | Task(w: WriteResult)

  /** The calls and kernel answers the source counts on: established once;
      destroyed once, while connected or after the close callback; startRead not
      after the end; poll reports what is watched, and not PRI or RDHUP beside a
      HUP without IN, and of a channel watched for nothing HUP, ERR and NVAL alone;
      the loop's queue is run between events. */
  predicate Enabled(c: Conn, e: Event) {
    match e
    case Established => c.phase == Connecting
    case Destroyed => !c.removed && c.todo == NOTHING && (c.phase == Connected || Closed in c.hist.log)
    case Send(msg, w) => Fits(msg, w)
    case SendElsewhere(_) => true
    case ShutdownHere => true
    case ShutdownElsewhere => true
    case ForceCloses => true
    case StartRead => Live(c)
    case StopRead => c.phase != Connecting
    case Poll(rev) =>
      && c.todo == NOTHING && (c.mask != NONE_EVENT || c.held)
      && (rev.in_ || rev.pri ==> c.mask.read) && (rev.out ==> c.mask.write)
      && (rev.rdhup ==> c.mask != NONE_EVENT) && !(rev.hup && !rev.in_ && (rev.pri || rev.rdhup))
    case Callbacks(_, w) => c.todo != NOTHING && Fits(c.output, w)
    case Task(w) => c.todo == NOTHING && c.tasks != [] && (c.tasks[0].SendTask? ==> Fits(c.tasks[0].msg, w))
  }

  function Apply(c: Conn, e: Event): Conn {
    if !Enabled(c, e) then c else
    match e
    case Established => ConnectEstablished(c)
    case Destroyed => ConnectDestroyed(c)
    case Send(msg, w) => if c.phase == Connected then SendInLoop(c, msg, w) else c
    case SendElsewhere(msg) => if c.phase == Connected then c.(tasks := c.tasks + [SendTask(msg)]) else c
    case ShutdownHere => Shutdown(c)
    case ShutdownElsewhere =>
      if c.phase == Connected then c.(phase := Disconnecting, asked := true, tasks := c.tasks + [ShutdownTask]) else c
    case ForceCloses => ForceClose(c)
    case StartRead => StartReadInLoop(c)
    case StopRead => StopReadInLoop(c)
    case Poll(rev) => c.(todo := Dispatch(rev))
    case Callbacks(r, w) => Handle(c, r, w)
    case Task(w) => RunTask(c, w)
  }

  const TCP: Machine<Conn, Event> := Machine(Enabled, Apply)

  function Fresh(setup: Setup): Conn {
    Conn(Connecting, true, NONE_EVENT, false, [], setup, [], NOTHING, false, false, false, History([], [], [], []))
  }

  // ----- bytes are neither lost nor reordered -----

  /** Everything accepted is on the wire or in the buffer, in order; and while the
      connection is up the channel asks for POLLOUT exactly if the buffer is non-empty. */
  predicate Conserved(c: Conn) {
    && Flatten(c.hist.accepted) == c.hist.wire + c.output
    && (Live(c) ==> (c.mask.write <==> c.output != []))
  }

  /** A message is taken or dropped whole; dropped, only once the connection is
      gone or the kernel says so at the first byte. Its bytes go behind all others. */
  lemma WholeMessages(c: Conn, msg: seq<byte>, w: WriteResult)
    requires Fits(msg, w)
    ensures Dropped(c, w) ==> SendInLoop(c, msg, w) == c
    ensures !Dropped(c, w) ==> SendInLoop(c, msg, w).hist.accepted == c.hist.accepted + [msg]
    ensures !Dropped(c, w) ==>
              SendInLoop(c, msg, w).hist.wire + SendInLoop(c, msg, w).output == c.hist.wire + c.output + msg
  {
    if !Dropped(c, w) {
      var n := if Direct(c) && w.Wrote? then w.n else 0;
      SendEffect(c, msg, w, n);
      if n > 0 {
        Move(c.hist.wire, msg, n);
      }
    }
  }

  /** What sending and writing leave alone. */
  predicate SameLife(c: Conn, c': Conn) {
    && c'.phase == c.phase && c'.todo == c.todo && c'.removed == c.removed && c'.failed == c.failed
    && c'.hist.log == c.hist.log && c'.setup == c.setup && c'.reading == c.reading && c'.asked == c.asked
  }

  lemma CompleteEffect(c: Conn)
    ensures Complete(c) == c.(tasks := Complete(c).tasks)
  {
  }

  lemma BufferedEffect(c: Conn, rest: seq<byte>)
    ensures Buffered(c, rest) == c.(output := c.output + rest, mask := c.mask.(write := c.mask.write || rest != []),
                                    held := c.held && rest == [],
                                    tasks := if rest == [] then c.tasks else HighWater(c, |rest|))
  {
    if rest == [] {
      assert c.output + rest == c.output;
    }
  }

  lemma SendEffect(c: Conn, msg: seq<byte>, w: WriteResult, n: nat)
    requires Fits(msg, w) && !Dropped(c, w)
    requires n == if Direct(c) && w.Wrote? then w.n else 0
    ensures var c' := SendInLoop(c, msg, w);
            && c'.hist == c.hist.(wire := c.hist.wire + msg[..n], accepted := c.hist.accepted + [msg])
            && c'.output == c.output + msg[n..]
            && c'.mask == c.mask.(write := c.mask.write || n < |msg|) && c'.held == (c.held && n == |msg|)
            && SameLife(c, c')
  {
    CompleteEffect(Accept(c, msg, n));
    BufferedEffect(Accept(c, msg, n), msg[n..]);
  }

  lemma SendConserves(c: Conn, msg: seq<byte>, w: WriteResult)
    requires Conserved(c) && Fits(msg, w)
    ensures Conserved(SendInLoop(c, msg, w))
  {
    WholeMessages(c, msg, w);
    if !Dropped(c, w) {
      FlattenSnoc(c.hist.accepted, msg);
      SendEffect(c, msg, w, if Direct(c) && w.Wrote? then w.n else 0);
    }
  }

  lemma ShutdownEffect(c: Conn)
    ensures ShutdownInLoop(c) ==
            c.(hist := c.hist.(shutdowns := c.hist.shutdowns + if c.mask.write || !Live(c) then [] else [Owed(c)]))
  {
  }

  function Completed(c: Conn): seq<Task> {
    c.tasks + if c.setup.onWriteComplete then [WriteCompleteTask] else []
  }

  lemma DrainedEffect(c: Conn)
    ensures var c' := Drained(c);
            && c'.hist == c.hist.(shutdowns := c'.hist.shutdowns)
            && c'.output == c.output && c'.mask == c.mask.(write := false) && c'.held == WatchWrites(c, false).held
            && SameLife(c, c')
  {
    CompleteEffect(WatchWrites(c, false));
    ShutdownEffect(Complete(WatchWrites(c, false)));
  }

  lemma DrainedTasks(c: Conn)
    ensures Drained(c).tasks == Completed(c)
    ensures Drained(c).hist.shutdowns == c.hist.shutdowns +
              if c.phase == Disconnecting then [c.output + Flatten(QueuedMessages(Completed(c)))] else []
  {
    var c1 := Complete(WatchWrites(c, false));
    CompleteEffect(WatchWrites(c, false));
    assert c1.tasks == Completed(c);
    ShutdownEffect(c1);
  }

  lemma WriteEffect(c: Conn, w: WriteResult)
    requires Fits(c.output, w)
    ensures !Writes(c, w) ==> HandleWrite(c, w) == c
    ensures Writes(c, w) ==>
              var c' := HandleWrite(c, w);
              && c'.hist == c.hist.(wire := c.hist.wire + c.output[..w.n], shutdowns := c'.hist.shutdowns)
              && c'.output == c.output[w.n..]
              && c'.mask == c.mask.(write := w.n < |c.output|) && c'.held == (c.held && w.n < |c.output|)
              && SameLife(c, c')
  {
    if Writes(c, w) {
      DrainedEffect(Taken(c, w.n));
    }
  }

  lemma WriteConserves(c: Conn, w: WriteResult)
    requires Conserved(c) && Fits(c.output, w)
    ensures Conserved(HandleWrite(c, w))
  {
    WriteEffect(c, w);
    if Writes(c, w) {
      Move(c.hist.wire, c.output, w.n);
    }
  }

  // ----- one connection, one UP, one DOWN -----

  /** How far the callbacks have come, phase by phase; of a closed connection, only
      what holds whatever happens to it afterwards. */
  predicate Lifecycle(c: Conn) {
    && (c.phase == Connecting ==>
         c.hist.log == [] && c.mask == NONE_EVENT && c.output == [] && c.tasks == [] && c.todo == NOTHING)
    && (Live(c) ==> c.hist.log == [Up] && (c.reading <==> c.mask.read))
    && (c.phase != Disconnected ==> !c.removed && !c.held && !c.failed && (c.phase == Connecting ==> c.reading))
    && (c.phase == Disconnected ==> c.mask == NONE_EVENT && [Up, Down] <= c.hist.log)
    && (c.todo.read ==> Live(c)) && !(c.todo.close && c.todo.read)
  }

  predicate Inv(c: Conn) {
    Conserved(c) && Lifecycle(c)
  }

  lemma SendKeepsInv(c: Conn, msg: seq<byte>, w: WriteResult)
    requires Inv(c) && Fits(msg, w) && c.phase != Connecting
    ensures Inv(SendInLoop(c, msg, w))
  {
    SendConserves(c, msg, w);
    if !Dropped(c, w) {
      SendEffect(c, msg, w, if Direct(c) && w.Wrote? then w.n else 0);
    }
  }

  lemma TaskKeepsInv(c: Conn, w: WriteResult)
    requires Inv(c) && Enabled(c, Task(w))
    ensures Inv(RunTask(c, w))
  {
    var c1 := c.(tasks := c.tasks[1..]);
    assert Inv(c1);
    match c.tasks[0]
    case SendTask(msg) => SendKeepsInv(c1, msg, w);
    case _ =>
  }

  lemma CloseKeepsInv(c: Conn)
    requires Inv(c) && c.phase != Connecting && !c.todo.read
    ensures Inv(HandleClose(c))
  {
  }

  lemma WriteKeepsInv(c: Conn, w: WriteResult)
    requires Inv(c) && Fits(c.output, w)
    ensures Inv(HandleWrite(c, w))
  {
    WriteConserves(c, w);
    WriteEffect(c, w);
  }

  lemma CallbackKeepsInv(c: Conn, r: ReadResult, w: WriteResult)
    requires Inv(c) && Enabled(c, Callbacks(r, w))
    ensures Inv(Handle(c, r, w))
  {
    if c.todo.close {
      CloseKeepsInv(c.(todo := c.todo.(close := false)));
    } else if c.todo.error {
    } else if c.todo.read {
      if r == Eof {
        CloseKeepsInv(c.(todo := c.todo.(read := false)));
      }
    } else {
      WriteKeepsInv(c.(todo := c.todo.(write := false)), w);
    }
  }

  /** A connection that is only asked for something: to send later, or to close. */
  lemma AskedKeepsInv(c: Conn, c': Conn)
    requires Inv(c) && c.phase != Connecting && c'.output == c.output && c'.mask == c.mask && c'.todo == c.todo
    requires c'.hist == c.hist.(shutdowns := c'.hist.shutdowns) && c'.removed == c.removed && c'.failed == c.failed
    requires c'.held == c.held && c'.reading == c.reading
    requires c'.phase == c.phase || (c.phase == Connected && c'.phase == Disconnecting)
    ensures Inv(c')
  {
  }

  lemma ShutdownKeepsInv(c: Conn)
    requires Inv(c)
    ensures Inv(Shutdown(c)) && Inv(ForceClose(c))
  {
    if c.phase == Connected {
      ShutdownEffect(c.(phase := Disconnecting, asked := true));
      AskedKeepsInv(c, Shutdown(c));
    }
    if Live(c) {
      AskedKeepsInv(c, ForceClose(c));
    }
  }

  lemma QueuedKeepsInv(c: Conn, e: Event)
    requires Inv(c) && (e.SendElsewhere? || e.ShutdownElsewhere?)
    ensures Inv(Apply(c, e))
  {
    if c.phase == Connected {
      AskedKeepsInv(c, Apply(c, e));
    }
  }

  lemma LifeKeepsInv(c: Conn, e: Event)
    requires Inv(c) && Enabled(c, e) && (e.Established? || e.Destroyed? || e.StartRead? || e.StopRead? || e.Poll?)
    ensures Inv(Apply(c, e))
  {
  }

  lemma StepKeepsInv(c: Conn, e: Event)
    requires Inv(c) && Enabled(c, e)
    ensures Inv(Apply(c, e))
  {
    match e
    case Send(msg, w) => if c.phase == Connected { SendKeepsInv(c, msg, w); }
    case SendElsewhere(_) => QueuedKeepsInv(c, e);
    case ShutdownElsewhere => QueuedKeepsInv(c, e);
    case ShutdownHere => ShutdownKeepsInv(c);
    case ForceCloses => ShutdownKeepsInv(c);
    case Callbacks(r, w) => CallbackKeepsInv(c, r, w);
    case Task(w) => TaskKeepsInv(c, w);
    case _ => LifeKeepsInv(c, e);
  }

  lemma InvAlways(c: Conn, es: seq<Event>)
    requires Inv(c) && Legal(TCP, c, es)
    ensures Inv(Exec(TCP, c, es))
  {
    forall x, e | Inv(x) && TCP.enabled(x, e) ensures Inv(TCP.apply(x, e)) {
      StepKeepsInv(x, e);
    }
    Always(TCP, Inv, c, es);
  }

  /** After any run: the bytes on the wire followed by those in the buffer are the
      accepted messages laid end to end, whatever path each byte took. */
  lemma NoByteLost(setup: Setup, es: seq<Event>)
    requires Legal(TCP, Fresh(setup), es)
    ensures var c := Exec(TCP, Fresh(setup), es);
            && c.hist.wire + c.output == Flatten(c.hist.accepted)
            && (Live(c) ==> (c.mask.write <==> c.output != []))
  {
    InvAlways(Fresh(setup), es);
  }

  /** handleEventWithGuard in one go. */
  function HandleEvent(c: Conn, rev: Revents, r: ReadResult, w: WriteResult): Conn
    requires Fits(c.output, w)
  {
    var c1 := BeforeWrite(c, Dispatch(rev), r);
    if Dispatch(rev).write then HandleWrite(c1, w) else c1
  }

  /** The callbacks that come before the one for POLLOUT. */
  function BeforeWrite(c: Conn, t: Todo, r: ReadResult): (c': Conn)
    ensures c'.output == c.output && c'.todo == c.todo
  {
    var c1 := if t.close then HandleClose(c) else c;
    if t.read then HandleRead(c1, r) else c1
  }

  lemma ShutdownApart(c: Conn, t: Todo)
    ensures ShutdownInLoop(c.(todo := t)) == ShutdownInLoop(c).(todo := t)
  {
    ShutdownEffect(c);
    ShutdownEffect(c.(todo := t));
    assert Owed(c.(todo := t)) == Owed(c);
  }

  lemma CompleteApart(c: Conn, t: Todo)
    ensures Complete(WatchWrites(c.(todo := t), false)) == Complete(WatchWrites(c, false)).(todo := t)
  {
  }

  lemma DrainedApart(c: Conn, t: Todo)
    ensures Drained(c.(todo := t)) == Drained(c).(todo := t)
  {
    CompleteApart(c, t);
    var c1 := Complete(WatchWrites(c, false));
    ShutdownApart(c1, t);
    if c.phase == Disconnecting {
      assert Drained(c) == ShutdownInLoop(c1);
      assert Drained(c.(todo := t)) == ShutdownInLoop(c1.(todo := t));
    }
  }

  lemma WriteApart(c: Conn, t: Todo, w: WriteResult)
    requires Fits(c.output, w)
    ensures HandleWrite(c.(todo := t), w) == HandleWrite(c, w).(todo := t)
  {
    if Writes(c, w) {
      var c1 := Taken(c, w.n);
      assert Taken(c.(todo := t), w.n) == c1.(todo := t);
      DrainedApart(c1, t);
    }
  }

  lemma CloseApart(c: Conn, t: Todo, r: ReadResult)
    ensures HandleClose(c.(todo := t)) == HandleClose(c).(todo := t)
    ensures HandleRead(c.(todo := t), r) == HandleRead(c, r).(todo := t)
  {
  }

  lemma CallbackApplies(c: Conn, r: ReadResult, w: WriteResult)
    requires Fits(c.output, w) && c.todo != NOTHING
    ensures Enabled(c, Callbacks(r, w)) && Apply(c, Callbacks(r, w)) == Handle(c, r, w)
  {
  }

  /** The callbacks that are still to be made and the rest of the connection do not
      interfere. */
  lemma NextCallback(c: Conn, t: Todo, r: ReadResult, w: WriteResult)
    requires Fits(c.output, w) && t != NOTHING
    ensures Handle(c.(todo := t), r, w) ==
            if t.close then HandleClose(c).(todo := t.(close := false))
            else if t.error then c.(todo := t.(error := false))
            else if t.read then HandleRead(c, r).(todo := t.(read := false))
            else HandleWrite(c, w).(todo := t.(write := false))
  {
    if t.close {
      CloseApart(c, t.(close := false), r);
    } else if t.error {
    } else if t.read {
      CloseApart(c, t.(read := false), r);
    } else {
      WriteApart(c, t.(write := false), w);
    }
  }

  predicate OnlyCallbacks(es: seq<Event>) {
    forall e :: e in es ==> e.Callbacks?
  }

  lemma CallbackIsStep(c: Conn, es: seq<Event>, x: Conn, r: ReadResult, w: WriteResult) returns (es': seq<Event>)
    requires Legal(TCP, c, es) && Exec(TCP, c, es) == x && x.todo != NOTHING && Fits(x.output, w)
    ensures Legal(TCP, c, es') && Exec(TCP, c, es') == Handle(x, r, w) && es' == es + [Callbacks(r, w)]
  {
    Snoc(TCP, c, es, Callbacks(r, w));
    CallbackApplies(x, r, w);
    es' := es + [Callbacks(r, w)];
  }

  lemma CloseCallback(c: Conn, es: seq<Event>, x: Conn, t: Todo, r: ReadResult, w: WriteResult)
    returns (es': seq<Event>)
    requires Fits(x.output, w) && Legal(TCP, c, es) && Exec(TCP, c, es) == x.(todo := t)
    ensures Legal(TCP, c, es')
    ensures Exec(TCP, c, es') == (if t.close then HandleClose(x) else x).(todo := t.(close := false))
  {
    es' := es;
    if t.close {
      NextCallback(x, t, r, w);
      es' := CallbackIsStep(c, es, x.(todo := t), r, w);
    }
  }

  lemma ErrorCallback(c: Conn, es: seq<Event>, x: Conn, t: Todo, r: ReadResult, w: WriteResult)
    returns (es': seq<Event>)
    requires Fits(x.output, w) && Legal(TCP, c, es) && Exec(TCP, c, es) == x.(todo := t) && !t.close
    ensures Legal(TCP, c, es') && Exec(TCP, c, es') == x.(todo := t.(error := false))
    ensures OnlyCallbacks(es) ==> OnlyCallbacks(es')
  {
    es' := es;
    if t.error {
      NextCallback(x, t, r, w);
      es' := CallbackIsStep(c, es, x.(todo := t), r, w);
    }
  }

  lemma ReadCallback(c: Conn, es: seq<Event>, x: Conn, t: Todo, r: ReadResult, w: WriteResult) returns (es': seq<Event>)
    requires Fits(x.output, w) && Legal(TCP, c, es) && Exec(TCP, c, es) == x.(todo := t) && !t.close && !t.error
    ensures Legal(TCP, c, es')
    ensures Exec(TCP, c, es') == (if t.read then HandleRead(x, r) else x).(todo := t.(read := false))
    ensures OnlyCallbacks(es) ==> OnlyCallbacks(es')
  {
    es' := es;
    if t.read {
      NextCallback(x, t, r, w);
      es' := CallbackIsStep(c, es, x.(todo := t), r, w);
    }
  }

  lemma WriteCallback(c: Conn, es: seq<Event>, x: Conn, t: Todo, r: ReadResult, w: WriteResult)
    returns (es': seq<Event>)
    requires Fits(x.output, w) && Legal(TCP, c, es) && Exec(TCP, c, es) == x.(todo := t)
    requires !t.close && !t.error && !t.read
    requires x.todo == NOTHING
    ensures Legal(TCP, c, es') && Exec(TCP, c, es') == if t.write then HandleWrite(x, w) else x
    ensures OnlyCallbacks(es) ==> OnlyCallbacks(es')
  {
    es' := es;
    if t.write {
      NextCallback(x, t, r, w);
      es' := CallbackIsStep(c, es, x.(todo := t), r, w);
      WriteEffect(x, w);
      assert HandleWrite(x, w).(todo := NOTHING) == HandleWrite(x, w);
    }
  }

  /** It is a run: the report of poll and the callbacks it calls for, in their order. */
  lemma HandleEventIsRun(c: Conn, rev: Revents, r: ReadResult, w: WriteResult) returns (es: seq<Event>)
    requires Enabled(c, Poll(rev)) && Fits(c.output, w)
    ensures Legal(TCP, c, es) && Exec(TCP, c, es) == HandleEvent(c, rev, r, w)
  {
    var t := Dispatch(rev);
    es := FirstCallbacks(c, rev, r, w);
    es := WriteCallback(c, es, BeforeWrite(c, t, r), NOTHING.(write := t.write), r, w);
  }

  lemma FirstCallbacks(c: Conn, rev: Revents, r: ReadResult, w: WriteResult) returns (es: seq<Event>)
    requires Enabled(c, Poll(rev)) && Fits(c.output, w)
    ensures Legal(TCP, c, es)
    ensures Exec(TCP, c, es) == BeforeWrite(c, Dispatch(rev), r).(todo := NOTHING.(write := rev.out))
  {
    var t := Dispatch(rev);
    Snoc(TCP, c, [], Poll(rev));
    es := [] + [Poll(rev)];
    es := CloseCallback(c, es, c, t, r, w);
    var c1 := if t.close then HandleClose(c) else c;
    t := t.(close := false);
    es := ErrorCallback(c, es, c1, t, r, w);
    t := t.(error := false);
    es := ReadCallback(c, es, c1, t, r, w);
  }

  /** Whether the reports call for the close callback, and for the read callback. */
  predicate HangsUp(rev: Revents) {
    rev.hup && !rev.in_
  }

  predicate Readable(rev: Revents) {
    rev.in_ || rev.pri || rev.rdhup
  }

  lemma EventFails(c: Conn, rev: Revents, r: ReadResult, w: WriteResult)
    requires !c.failed && Fits(c.output, w)
    ensures HandleEvent(c, rev, r, w).failed
        <==> if Live(c) then HangsUp(rev) && Readable(rev) && r == Eof else HangsUp(rev) || (Readable(rev) && r == Eof)
  {
    var c1 := if HangsUp(rev) then HandleClose(c) else c;
    var c2 := if Readable(rev) then HandleRead(c1, r) else c1;
    WriteEffect(c2, w);
  }

  /** What the assumptions on poll are for: over one round of callbacks the assert of
      handleClose holds whatever read(2) answers, exactly if HUP without IN comes
      without PRI and RDHUP to a live connection, and neither comes to a closed one. */
  lemma HangupDispatch(c: Conn, rev: Revents, w: WriteResult)
    requires !c.failed && Fits(c.output, w)
    ensures (forall r :: !HandleEvent(c, rev, r, w).failed)
        <==> if Live(c) then !(HangsUp(rev) && Readable(rev)) else !HangsUp(rev) && !Readable(rev)
  {
    EventFails(c, rev, Eof, w);
    EventFails(c, rev, Data, w);
    EventFails(c, rev, ReadError, w);
  }

  /** What the assumption on connectDestroyed is for: called while the connection is
      shutting down, it violates the assert of Channel::remove exactly if the
      channel still watches something. */
  lemma DestroyedWhileDisconnecting(c: Conn)
    requires Inv(c) && c.phase == Disconnecting
    ensures ConnectDestroyed(c).failed <==> c.mask.read || c.output != []
  {
  }

  // ----- graceful shutdown -----

  predicate InLoopThread(e: Event) {
    !e.SendElsewhere? && !e.ShutdownElsewhere?
  }

  predicate NoTransfers(tasks: seq<Task>) {
    forall t :: t in tasks ==> !t.SendTask? && !t.ShutdownTask?
  }

  /** The write side is closed at most once, with nothing owed, and at once when
      the last byte leaves a connection that was asked to. */
  predicate Graceful(c: Conn) {
    && NoTransfers(c.tasks)
    && (c.hist.shutdowns == [] || c.hist.shutdowns == [[]])
    && (c.hist.shutdowns != [] ==> c.output == [] && !c.mask.write && c.phase != Connected && c.phase != Connecting)
    && (c.asked && c.phase == Disconnecting && c.output == [] ==> c.hist.shutdowns == [[]])
    && (c.asked ==> c.phase != Connected && c.phase != Connecting)
  }

  lemma {:induction false} NothingQueued(tasks: seq<Task>)
    requires NoTransfers(tasks)
    ensures QueuedMessages(tasks) == []
  {
    if tasks != [] {
      NothingQueued(tasks[..|tasks| - 1]);
    }
  }

  lemma SendGraceful(c: Conn, msg: seq<byte>, w: WriteResult)
    requires Inv(c) && Graceful(c) && Fits(msg, w) && c.phase == Connected
    ensures Graceful(SendInLoop(c, msg, w))
  {
    var n := if Direct(c) && w.Wrote? then w.n else 0;
    SendTasks(c, msg, w, n);
    assert NoTransfers(SendInLoop(c, msg, w).tasks);
    if !Dropped(c, w) {
      SendEffect(c, msg, w, n);
    }
  }

  lemma DrainGraceful(c: Conn)
    requires NoTransfers(c.tasks) && c.hist.shutdowns == [] && c.output == []
    requires Live(c) && (c.asked ==> c.phase == Disconnecting)
    ensures Graceful(Drained(c))
  {
    DrainedEffect(c);
    DrainedTasks(c);
    assert NoTransfers(Completed(c));
    NothingQueued(Completed(c));
  }

  lemma CallbackGraceful(c: Conn, r: ReadResult, w: WriteResult)
    requires Inv(c) && Graceful(c) && Enabled(c, Callbacks(r, w))
    ensures Graceful(Handle(c, r, w))
  {
    if !c.todo.close && !c.todo.error && !c.todo.read {
      var c1 := c.(todo := c.todo.(write := false));
      if Writes(c1, w) && w.n == |c1.output| {
        DrainGraceful(Taken(c1, w.n));
      }
    }
  }

  lemma ShutdownGraceful(c: Conn)
    requires Inv(c) && Graceful(c)
    ensures Graceful(Shutdown(c))
  {
    NothingQueued(c.tasks);
    assert c.output == [] ==> Owed(c.(phase := Disconnecting, asked := true)) == [];
  }

  lemma TaskGraceful(c: Conn, w: WriteResult)
    requires Inv(c) && Graceful(c) && Enabled(c, Task(w))
    ensures Graceful(RunTask(c, w))
  {
    assert c.tasks[0] in c.tasks;
    assert NoTransfers(c.tasks[1..]);
  }

  lemma StepGraceful(c: Conn, e: Event)
    requires Inv(c) && Graceful(c) && Enabled(c, e) && InLoopThread(e)
    ensures Graceful(Apply(c, e))
  {
    match e
    case Send(msg, w) => if c.phase == Connected { SendGraceful(c, msg, w); }
    case ShutdownHere => ShutdownGraceful(c);
    case Callbacks(r, w) => CallbackGraceful(c, r, w);
    case Task(w) => TaskGraceful(c, w);
    case _ =>
  }

  /** With send and shutdown called in the loop thread: the write side is closed at
      most once, only when every accepted byte is on the wire, and no later than
      the step that drains the buffer. */
  lemma {:induction false} GracefulShutdown(setup: Setup, es: seq<Event>)
    requires Legal(TCP, Fresh(setup), es)
    requires forall e :: e in es ==> InLoopThread(e)
    ensures Graceful(Exec(TCP, Fresh(setup), es))
    ensures var c := Exec(TCP, Fresh(setup), es);
            c.hist.shutdowns != [] ==> c.hist.wire == Flatten(c.hist.accepted)
    decreases |es|
  {
    InvAlways(Fresh(setup), es);
    if es != [] {
      var init := es[..|es| - 1];
      GracefulShutdown(setup, init);
      InvAlways(Fresh(setup), init);
      StepGraceful(Exec(TCP, Fresh(setup), init), es[|es| - 1]);
    }
  }

  // ----- messages still in the loop's queue when shutdown() is called -----

  predicate HasBytes(t: Task) {
    t.SendTask? && t.msg != []
  }

  predicate NoBytesQueued(tasks: seq<Task>) {
    forall t :: t in tasks ==> !HasBytes(t)
  }

  lemma {:induction false} QueuedBytes(tasks: seq<Task>)
    ensures Flatten(QueuedMessages(tasks)) == [] <==> NoBytesQueued(tasks)
  {
    if tasks != [] {
      var init, last := tasks[..|tasks| - 1], tasks[|tasks| - 1];
      QueuedBytes(init);
      assert forall t :: t in tasks <==> t in init || t == last;
      assert NoBytesQueued(tasks) <==> NoBytesQueued(init) && !HasBytes(last);
      if last.SendTask? {
        FlattenSnoc(QueuedMessages(init), last.msg);
      } else {
        assert QueuedMessages(tasks) == QueuedMessages(init);
      }
    }
  }

  /** From the k-th on, the write side was closed with nothing owed. */
  predicate CleanFrom(c: Conn, k: nat) {
    k <= |c.hist.shutdowns| && forall i :: k <= i < |c.hist.shutdowns| ==> c.hist.shutdowns[i] == []
  }

  /** In every run from here on. */
  ghost predicate CleanRuns(c: Conn, k: nat) {
    forall es :: Legal(TCP, c, es) ==> CleanFrom(Exec(TCP, c, es), k)
  }

  predicate NoClosing(tasks: seq<Task>) {
    forall t :: t in tasks ==> !t.ShutdownTask? && !t.ForceCloseTask?
  }

  /** Nobody has asked a connected connection to close. */
  predicate Unasked(c: Conn) {
    !Asked(c) ==> NoClosing(c.tasks)
  }

  lemma SendTasks(c: Conn, msg: seq<byte>, w: WriteResult, n: nat)
    requires Fits(msg, w) && n == if Direct(c) && w.Wrote? then w.n else 0
    ensures var tasks := SendInLoop(c, msg, w).tasks;
            || tasks == c.tasks || tasks == c.tasks + [WriteCompleteTask]
            || tasks == c.tasks + [HighWaterTask(|c.output| + |msg[n..]|)]
  {
    var c1 := Accept(c, msg, n);
    assert c1.tasks == c.tasks && c1.output == c.output;
    BufferedEffect(c1, msg[n..]);
  }

  lemma WriteTasks(c: Conn, w: WriteResult)
    requires Fits(c.output, w)
    ensures HandleWrite(c, w).tasks == c.tasks || HandleWrite(c, w).tasks == Completed(c)
  {
    if Writes(c, w) {
      DrainedTasks(Taken(c, w.n));
    }
  }

  lemma SendUnasked(c: Conn, msg: seq<byte>, w: WriteResult)
    requires NoClosing(c.tasks) && Fits(msg, w)
    ensures NoClosing(SendInLoop(c, msg, w).tasks)
  {
    SendTasks(c, msg, w, if Direct(c) && w.Wrote? then w.n else 0);
  }

  lemma CallbackUnasked(c: Conn, r: ReadResult, w: WriteResult)
    requires NoClosing(c.tasks) && Enabled(c, Callbacks(r, w))
    ensures NoClosing(Handle(c, r, w).tasks)
  {
    if !c.todo.close && !c.todo.error && !c.todo.read {
      WriteTasks(c.(todo := c.todo.(write := false)), w);
    }
  }

  lemma TaskUnasked(c: Conn, w: WriteResult)
    requires NoClosing(c.tasks) && Enabled(c, Task(w))
    ensures NoClosing(RunTask(c, w).tasks)
  {
    if c.tasks[0].SendTask? {
      SendUnasked(c.(tasks := c.tasks[1..]), c.tasks[0].msg, w);
    }
  }

  predicate Asked(c: Conn) {
    c.phase == Disconnecting || c.phase == Disconnected
  }

  lemma TaskAsked(c: Conn, w: WriteResult)
    requires Enabled(c, Task(w)) && Asked(c)
    ensures Asked(RunTask(c, w))
  {
    var c1 := c.(tasks := c.tasks[1..]);
    if c.tasks[0].SendTask? && !Dropped(c1, w) {
      SendEffect(c1, c.tasks[0].msg, w, if Direct(c1) && w.Wrote? then w.n else 0);
    }
  }

  lemma CallbackAsked(c: Conn, r: ReadResult, w: WriteResult)
    requires Enabled(c, Callbacks(r, w)) && Asked(c)
    ensures Asked(Handle(c, r, w))
  {
    if !c.todo.close && !c.todo.error && !c.todo.read {
      WriteEffect(c.(todo := c.todo.(write := false)), w);
    }
  }

  /** Once asked, a connection is not connected again. */
  lemma AskedStep(c: Conn, e: Event)
    requires Enabled(c, e) && Asked(c)
    ensures Asked(Apply(c, e))
  {
    match e
    case Callbacks(r, w) => CallbackAsked(c, r, w);
    case Task(w) => TaskAsked(c, w);
    case _ =>
  }

  /** A step of a connected connection queues no task that closes it. */
  lemma UnaskedStep(c: Conn, e: Event)
    requires Unasked(c) && Enabled(c, e)
    ensures Unasked(Apply(c, e))
  {
    if !Asked(c) {
      match e
      case Send(msg, w) => SendUnasked(c, msg, w);
      case Callbacks(r, w) => CallbackUnasked(c, r, w);
      case Task(w) => TaskUnasked(c, w);
      case _ =>
    } else {
      AskedStep(c, e);
    }
  }

  /** So it holds in every run, and is no restriction below. */
  lemma {:induction false} UnaskedAlways(setup: Setup, es: seq<Event>)
    requires Legal(TCP, Fresh(setup), es)
    ensures Inv(Exec(TCP, Fresh(setup), es)) && Unasked(Exec(TCP, Fresh(setup), es))
    decreases |es|
  {
    InvAlways(Fresh(setup), es);
    if es != [] {
      UnaskedAlways(setup, es[..|es| - 1]);
      UnaskedStep(Exec(TCP, Fresh(setup), es[..|es| - 1]), es[|es| - 1]);
    }
  }

  /** No bytes stand behind other bytes in the queue, nor behind a shutdown. */
  predicate NoneBehind(tasks: seq<Task>) {
    forall i, j :: 0 <= i < j < |tasks| && (HasBytes(tasks[i]) || tasks[i].ShutdownTask?) ==> !HasBytes(tasks[j])
  }

  /** All that is owed is in one piece: the buffer, or one queued message. */
  predicate OnePiece(c: Conn) {
    NoneBehind(c.tasks) && (c.output != [] ==> NoBytesQueued(c.tasks))
  }

  /** A connection asked to shut down, that will not close its write side too early:
      it is closed, or about to be, or owes one piece at most. */
  predicate Winding(c: Conn, k: nat) {
    && CleanFrom(c, k)
    && (c.phase == Disconnected || (c.phase == Disconnecting && (c.todo.close || OnePiece(c))))
  }

  lemma QuietTail(tasks: seq<Task>, t: Task)
    requires !HasBytes(t)
    ensures NoneBehind(tasks) ==> NoneBehind(tasks + [t])
    ensures NoBytesQueued(tasks) ==> NoBytesQueued(tasks + [t])
  {
  }

  lemma PoppedTasks(tasks: seq<Task>)
    requires tasks != []
    ensures NoneBehind(tasks) ==> NoneBehind(tasks[1..])
    ensures NoneBehind(tasks) && (HasBytes(tasks[0]) || tasks[0].ShutdownTask?) ==> NoBytesQueued(tasks[1..])
    ensures NoBytesQueued(tasks) ==> NoBytesQueued(tasks[1..])
  {
    forall t | t in tasks[1..] && NoneBehind(tasks) && (HasBytes(tasks[0]) || tasks[0].ShutdownTask?)
      ensures !HasBytes(t)
    {
      var j :| 0 <= j < |tasks[1..]| && tasks[1..][j] == t;
      assert tasks[j + 1] == t;
    }
  }

  lemma ShutdownClean(c: Conn, k: nat)
    requires CleanFrom(c, k) && NoBytesQueued(c.tasks) && (c.mask.write || c.output == [])
    ensures CleanFrom(ShutdownInLoop(c), k)
  {
    QueuedBytes(c.tasks);
  }

  lemma DrainedWinding(c: Conn, k: nat)
    requires CleanFrom(c, k) && c.phase == Disconnecting && c.output == []
    requires NoBytesQueued(c.tasks) && NoneBehind(c.tasks)
    ensures Winding(Drained(c), k)
  {
    DrainedEffect(c);
    DrainedTasks(c);
    QuietTail(c.tasks, WriteCompleteTask);
    assert Completed(c) == c.tasks || Completed(c) == c.tasks + [WriteCompleteTask];
    QueuedBytes(Completed(c));
  }

  lemma CallbackWinding(c: Conn, k: nat, r: ReadResult, w: WriteResult)
    requires Inv(c) && Winding(c, k) && Enabled(c, Callbacks(r, w))
    ensures Winding(Handle(c, r, w), k)
  {
    if !c.todo.close && !c.todo.error && !c.todo.read {
      var c1 := c.(todo := c.todo.(write := false));
      WriteEffect(c1, w);
      if Writes(c1, w) && w.n == |c1.output| {
        DrainedWinding(Taken(c1, w.n), k);
      }
    }
  }

  lemma SendWinding(c: Conn, msg: seq<byte>, w: WriteResult, k: nat)
    requires CleanFrom(c, k) && c.phase == Disconnecting && Fits(msg, w) && NoneBehind(c.tasks)
    requires if msg == [] then OnePiece(c) else NoBytesQueued(c.tasks)
    ensures Winding(SendInLoop(c, msg, w), k)
  {
    if !Dropped(c, w) {
      var n := if Direct(c) && w.Wrote? then w.n else 0;
      SendEffect(c, msg, w, n);
      SendTasks(c, msg, w, n);
      QuietTail(c.tasks, WriteCompleteTask);
      QuietTail(c.tasks, HighWaterTask(|c.output| + |msg[n..]|));
    }
  }

  lemma TaskWinding(c: Conn, k: nat, w: WriteResult)
    requires Inv(c) && Winding(c, k) && Enabled(c, Task(w))
    ensures Winding(RunTask(c, w), k)
  {
    if c.phase == Disconnecting {
      PoppedTasks(c.tasks);
      var c1 := c.(tasks := c.tasks[1..]);
      match c.tasks[0]
      case SendTask(msg) => SendWinding(c1, msg, w, k);
      case ShutdownTask => ShutdownClean(c1, k);
      case _ =>
    }
  }

  lemma WindingStep(c: Conn, k: nat, e: Event)
    requires Inv(c) && Winding(c, k) && Enabled(c, e)
    ensures Winding(Apply(c, e), k)
  {
    match e
    case Callbacks(r, w) => CallbackWinding(c, k, r, w);
    case Task(w) => TaskWinding(c, k, w);
    case ForceCloses => QuietTail(c.tasks, ForceCloseTask);
    case _ =>
  }

  lemma {:induction false} WindingAlways(c: Conn, k: nat, es: seq<Event>)
    requires Inv(c) && Winding(c, k) && Legal(TCP, c, es)
    ensures Winding(Exec(TCP, c, es), k)
    decreases |es|
  {
    if es != [] {
      WindingAlways(c, k, es[..|es| - 1]);
      InvAlways(c, es[..|es| - 1]);
      WindingStep(Exec(TCP, c, es[..|es| - 1]), k, es[|es| - 1]);
    }
  }

  lemma WindingIsClean(c: Conn, k: nat)
    requires Inv(c) && Winding(c, k)
    ensures CleanRuns(c, k)
  {
    forall es | Legal(TCP, c, es) ensures CleanFrom(Exec(TCP, c, es), k) {
      WindingAlways(c, k, es);
    }
  }

  // ----- the runs that close too early -----

  lemma NothingNew(c: Conn)
    ensures HandleRead(c, Data) == c && HandleWrite(c, WouldBlock) == c
  {
  }

  /** The callbacks of the round under way, when the kernel has nothing new to say. */
  lemma RoundEnds(c: Conn) returns (es: seq<Event>)
    requires !c.todo.close
    ensures Legal(TCP, c, es) && Exec(TCP, c, es) == c.(todo := NOTHING)
    ensures OnlyCallbacks(es)
  {
    var x, t := c.(todo := NOTHING), c.todo;
    NothingNew(x);
    assert x.(todo := t) == c;
    es := ErrorCallback(c, [], x, t, Data, WouldBlock);
    t := t.(error := false);
    es := ReadCallback(c, es, x, t, Data, WouldBlock);
    t := t.(read := false);
    es := WriteCallback(c, es, x, t, Data, WouldBlock);
  }

  /** Then the buffer drains. */
  function Drain(c: Conn): seq<Event> {
    [Poll(Revents(false, false, false, true, false, false, false)), Callbacks(Data, Wrote(|c.output|))]
  }

  lemma DrainRun(c: Conn)
    requires Inv(c) && c.phase == Disconnecting && c.todo == NOTHING && c.mask.write
    ensures Legal(TCP, c, Drain(c))
    ensures Exec(TCP, c, Drain(c)) == Drained(Taken(c, |c.output|))
  {
    var poll, callbacks := Drain(c)[0], Drain(c)[1];
    var c1 := c.(todo := Todo(false, false, false, true));
    assert Enabled(c, poll) && Apply(c, poll) == c1;
    assert Enabled(c1, callbacks) && Apply(c1, callbacks) == Handle(c1, Data, Wrote(|c.output|));
    DrainCallback(c);
    Two(TCP, c, poll, callbacks);
  }

  lemma DrainCallback(c: Conn)
    requires c.todo == NOTHING && c.mask.write && c.output != []
    ensures Handle(c.(todo := Todo(false, false, false, true)), Data, Wrote(|c.output|)) ==
            Drained(Taken(c, |c.output|))
  {
  }

  lemma DirtyDrain(c: Conn, k: nat)
    requires c.phase == Disconnecting && !NoBytesQueued(c.tasks) && k <= |c.hist.shutdowns|
    ensures !CleanFrom(Drained(Taken(c, |c.output|)), k)
  {
    var c1 := Taken(c, |c.output|);
    DrainedTasks(c1);
    assert forall t :: t in c.tasks ==> t in Completed(c1);
    QueuedBytes(Completed(c1));
    assert Drained(c1).hist.shutdowns[|c.hist.shutdowns|] != [];
  }

  /** With bytes in the buffer and more in the queue, a drained buffer is enough. */
  lemma EarlyDrain(c: Conn, k: nat)
    requires Inv(c) && c.phase == Disconnecting && !c.todo.close && c.output != []
    requires !NoBytesQueued(c.tasks) && k <= |c.hist.shutdowns|
    ensures !CleanRuns(c, k)
  {
    var x := c.(todo := NOTHING);
    var es := RoundEnds(c);
    DrainRun(x);
    DirtyDrain(x, k);
    Compose(TCP, c, es, Drain(x));
    assert !CleanFrom(Exec(TCP, c, es + Drain(x)), k);
  }

  lemma IdleTask(c: Conn)
    requires Direct(c) && c.tasks != [] && !HasBytes(c.tasks[0])
    requires !c.tasks[0].ShutdownTask? && !c.tasks[0].ForceCloseTask?
    ensures var x := RunTask(c, WouldBlock);
            && x.tasks == c.tasks[1..] && x.output == [] && x.phase == c.phase && x.todo == c.todo
            && x.hist.shutdowns == c.hist.shutdowns
  {
  }

  lemma BytesBuffered(c: Conn, j: nat)
    requires Live(c) && Direct(c) && 0 < j < |c.tasks| && HasBytes(c.tasks[0]) && HasBytes(c.tasks[j])
    ensures var x := RunTask(c, WouldBlock);
            && c.tasks[j] in x.tasks && x.output != [] && x.phase == c.phase && x.todo == c.todo
            && x.hist.shutdowns == c.hist.shutdowns
  {
    var c1, msg := c.(tasks := c.tasks[1..]), c.tasks[0].msg;
    SendTasks(c1, msg, WouldBlock, 0);
    SendEffect(c1, msg, WouldBlock, 0);
    assert c.tasks[j] == c.tasks[1..][j - 1];
  }

  /** With an empty buffer and two messages queued, the tasks run until the first of
      them is in the buffer, because the kernel would not take it. */
  lemma {:induction false} FirstBuffered(c: Conn, i: nat, j: nat) returns (es: seq<Event>)
    requires Inv(c) && c.phase == Disconnecting && c.todo == NOTHING && c.output == []
    requires i < j < |c.tasks| && HasBytes(c.tasks[i]) && HasBytes(c.tasks[j]) && NoClosing(c.tasks[..j])
    ensures Legal(TCP, c, es)
    ensures var x := Exec(TCP, c, es);
            && Inv(x) && x.phase == Disconnecting && x.todo == NOTHING && x.output != []
            && !NoBytesQueued(x.tasks) && x.hist.shutdowns == c.hist.shutdowns
    decreases i
  {
    var x := RunTask(c, WouldBlock);
    StepKeepsInv(c, Task(WouldBlock));
    Snoc(TCP, c, [], Task(WouldBlock));
    es := [] + [Task(WouldBlock)];
    if HasBytes(c.tasks[0]) {
      BytesBuffered(c, j);
    } else {
      assert c.tasks[0] in c.tasks[..j];
      IdleTask(c);
      assert x.tasks[..j - 1] == c.tasks[..j][1..];
      var fs := FirstBuffered(x, i - 1, j - 1);
      Compose(TCP, c, es, fs);
      es := es + fs;
    }
  }

  lemma CleanLater(c: Conn, k: nat, es: seq<Event>)
    requires CleanRuns(c, k) && Legal(TCP, c, es)
    ensures CleanRuns(Exec(TCP, c, es), k)
  {
    forall fs | Legal(TCP, Exec(TCP, c, es), fs) ensures CleanFrom(Exec(TCP, Exec(TCP, c, es), fs), k) {
      Compose(TCP, c, es, fs);
    }
  }

  lemma TwoPiecesQueued(c: Conn, k: nat, i: nat, j: nat)
    requires Inv(c) && c.phase == Disconnecting && !c.todo.close && c.output == [] && k <= |c.hist.shutdowns|
    requires i < j < |c.tasks| && HasBytes(c.tasks[i]) && HasBytes(c.tasks[j]) && NoClosing(c.tasks[..j])
    ensures !CleanRuns(c, k)
  {
    var es := RoundEnds(c);
    var x := c.(todo := NOTHING);
    InvAlways(c, es);
    var fs := FirstBuffered(x, i, j);
    EarlyDrain(Exec(TCP, x, fs), k);
    Compose(TCP, c, es, fs);
    if CleanRuns(c, k) {
      CleanLater(c, k, es + fs);
    }
  }

  /** shutdown() in the loop thread leaves nothing behind in any run, exactly if no
      other thread's bytes are still in the loop's queue when it is called, or the
      connection, still writing, is about to be closed. */
  lemma CleanShutdown(c: Conn)
    requires Inv(c) && c.phase == Connected
    ensures CleanRuns(Shutdown(c), |c.hist.shutdowns|)
        <==> NoBytesQueued(c.tasks) || (c.output != [] && c.todo.close)
  {
    var c1, k := Shutdown(c), |c.hist.shutdowns|;
    StepKeepsInv(c, ShutdownHere);
    QueuedBytes(c.tasks);
    if NoBytesQueued(c.tasks) || (c.output != [] && c.todo.close) {
      WindingIsClean(c1, k);
    } else if c.output != [] {
      EarlyDrain(c1, k);
    } else {
      assert c1.hist.shutdowns[k] == Owed(c.(phase := Disconnecting, asked := true)) != [];
      assert !CleanFrom(Exec(TCP, c1, []), k);
    }
  }

  /** shutdown() in another thread leaves nothing behind in any run, exactly if all
      that is owed when it is called is in one piece, the buffer or one queued
      message, or the connection is about to be closed. */
  lemma CleanForeignShutdown(c: Conn)
    requires Inv(c) && Unasked(c) && c.phase == Connected
    ensures CleanRuns(Apply(c, ShutdownElsewhere), |c.hist.shutdowns|) <==> OnePiece(c) || c.todo.close
  {
    var c1, k := Apply(c, ShutdownElsewhere), |c.hist.shutdowns|;
    StepKeepsInv(c, ShutdownElsewhere);
    QuietTail(c.tasks, ShutdownTask);
    if OnePiece(c) || c.todo.close {
      WindingIsClean(c1, k);
    } else if c.output != [] {
      var t :| t in c.tasks && HasBytes(t);
      assert t in c1.tasks;
      EarlyDrain(c1, k);
    } else {
      var i, j :| 0 <= i < j < |c.tasks| && (HasBytes(c.tasks[i]) || c.tasks[i].ShutdownTask?) && HasBytes(c.tasks[j]);
      assert c1.tasks[..j] == c.tasks[..j];
      TwoPiecesQueued(c1, k, i, j);
    }
  }

  /** Called one after the other in another thread, send() and shutdown() leave
      nothing behind in any run, exactly if nothing was owed before. */
  lemma SendThenShutdown(c: Conn, msg: seq<byte>)
    requires Inv(c) && Unasked(c) && c.phase == Connected && msg != []
    ensures CleanRuns(Apply(Apply(c, SendElsewhere(msg)), ShutdownElsewhere), |c.hist.shutdowns|)
        <==> (c.output == [] && NoBytesQueued(c.tasks)) || c.todo.close
  {
    var c1 := Apply(c, SendElsewhere(msg));
    StepKeepsInv(c, SendElsewhere(msg));
    UnaskedStep(c, SendElsewhere(msg));
    CleanForeignShutdown(c1);
    LastPiece(c, msg);
  }

  lemma LastPiece(c: Conn, msg: seq<byte>)
    requires msg != []
    ensures OnePiece(c.(tasks := c.tasks + [SendTask(msg)])) ==> c.output == [] && NoBytesQueued(c.tasks)
    ensures c.output == [] && NoBytesQueued(c.tasks) && NoClosing(c.tasks)
            ==> OnePiece(c.(tasks := c.tasks + [SendTask(msg)]))
  {
    var tasks := c.tasks + [SendTask(msg)];
    assert tasks[|c.tasks|] == SendTask(msg) && HasBytes(SendTask(msg));
    forall t | t in c.tasks && HasBytes(t) ensures !NoneBehind(tasks) {
      var i :| 0 <= i < |c.tasks| && c.tasks[i] == t;
      assert tasks[i] == t;
    }
  }
}
