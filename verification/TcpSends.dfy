/** net/TcpConnection.cc: exactly what sending and writing do, which tasks they queue,
    and the order in which messages from all threads go out. */
module TcpSends {
  import opened Machines
  import opened Seqs
  import opened TcpConnections
  import TcpCloses

  // ----- one step -----

  /** A message is dropped exactly if the connection is closed, or nothing waits before
      it and the kernel says that the connection is broken. Otherwise it is accepted:
      the part the kernel takes at once goes out, if nothing waits before it, and the
      rest goes behind the buffer. */
  lemma SendExactly(c: Conn, msg: seq<byte>, w: WriteResult)
    requires Fits(msg, w)
    ensures var c' := SendInLoop(c, msg, w);
            var atOnce := !c.mask.write && c.output == [];
            var n := if atOnce && w.Wrote? then w.n else 0;
            if c.phase == Disconnected || (atOnce && w == Broken) then c' == c
            else
              && c'.hist.accepted == c.hist.accepted + [msg] && c'.hist.wire == c.hist.wire + msg[..n]
              && c'.output == c.output + msg[n..] && c'.phase == c.phase && c'.hist.shutdowns == c.hist.shutdowns
  {
    if !Dropped(c, w) {
      SendEffect(c, msg, w, if Direct(c) && w.Wrote? then w.n else 0);
    }
  }

  /** The callback for a buffer that has grown from one length to another. */
  function Crossing(setup: Setup, before: nat, after: nat): seq<Task> {
    if setup.onHighWater && before < setup.highWaterMark <= after then [HighWaterTask(after)] else []
  }

  function Completion(setup: Setup, done: bool): seq<Task> {
    if done && setup.onWriteComplete then [WriteCompleteTask] else []
  }

  lemma BufferedQueues(c: Conn, rest: seq<byte>)
    ensures Buffered(c, rest).tasks == c.tasks + Crossing(c.setup, |c.output|, |c.output + rest|)
  {
  }

  lemma CompleteQueues(c: Conn)
    ensures Complete(c).tasks == c.tasks + Completion(c.setup, true)
  {
  }

  lemma AcceptedQueues(c: Conn, msg: seq<byte>, w: WriteResult, n: nat)
    requires Fits(msg, w) && !Dropped(c, w) && n == if Direct(c) && w.Wrote? then w.n else 0
    ensures SendInLoop(c, msg, w).tasks == c.tasks +
            if Direct(c) && w == Wrote(|msg|) then Completion(c.setup, true)
            else Crossing(c.setup, |c.output|, |c.output + msg[n..]|)
  {
    var c1 := Accept(c, msg, n);
    CompleteQueues(c1);
    BufferedQueues(c1, msg[n..]);
  }

  /** The completion callback is queued exactly if all of the message went out at once,
      and the high-water callback exactly if the buffer crossed the mark from below,
      with the length it now has. */
  lemma SendQueues(c: Conn, msg: seq<byte>, w: WriteResult)
    requires Fits(msg, w)
    ensures var after := |SendInLoop(c, msg, w).output|;
            var done := c.phase != Disconnected && !c.mask.write && c.output == [] && w == Wrote(|msg|);
            SendInLoop(c, msg, w).tasks == c.tasks + Completion(c.setup, done) + Crossing(c.setup, |c.output|, after)
  {
    if !Dropped(c, w) {
      var n := if Direct(c) && w.Wrote? then w.n else 0;
      SendEffect(c, msg, w, n);
      AcceptedQueues(c, msg, w, n);
    }
  }

  /** As much as the kernel takes moves from the front of the buffer to the wire. When
      that empties the buffer, the channel stops writing, the completion callback is
      queued, and a connection that is shutting down closes its write side. */
  lemma WriteExactly(c: Conn, w: WriteResult)
    requires Fits(c.output, w)
    ensures var c' := HandleWrite(c, w);
            if c.mask.write && w.Wrote? && w.n > 0 then
              && c'.hist.wire == c.hist.wire + c.output[..w.n] && c'.output == c.output[w.n..]
              && c'.mask == c.mask.(write := c'.output != []) && c'.phase == c.phase
              && c'.tasks == c.tasks + Completion(c.setup, c'.output == [])
              && |c'.hist.shutdowns| ==
                 |c.hist.shutdowns| + (if c'.output == [] && c.phase == Disconnecting then 1 else 0)
            else c' == c
  {
    WriteEffect(c, w);
    if Writes(c, w) && w.n == |c.output| {
      DrainedTasks(Taken(c, w.n));
    }
  }

  lemma ClosedWrites(c: Conn, w: WriteResult)
    requires Fits(c.output, w)
    ensures HandleWrite(HandleClose(c), w) == HandleClose(c)
  {
  }

  /** One round of callbacks: a HUP without IN closes, and so does an end of file that
      IN, PRI or RDHUP lead to; otherwise OUT leads to a write, and nothing else
      changes the connection. */
  lemma EventExactly(c: Conn, rev: Revents, r: ReadResult, w: WriteResult)
    requires Fits(c.output, w)
    ensures var hup, eof := rev.hup && !rev.in_, (rev.in_ || rev.pri || rev.rdhup) && r == Eof;
            HandleEvent(c, rev, r, w) ==
            if hup && eof then HandleClose(HandleClose(c))
            else if hup || eof then HandleClose(c)
            else if rev.out then HandleWrite(c, w) else c
  {
    ClosedWrites(c, w);
    ClosedWrites(HandleClose(c), w);
  }

  // ----- the queue -----

  lemma {:induction false} QueuedAppend(a: seq<Task>, b: seq<Task>)
    ensures QueuedMessages(a + b) == QueuedMessages(a) + QueuedMessages(b)
    decreases |b|
  {
    if b == [] {
      assert a + b == a;
    } else {
      QueuedAppend(a, b[..|b| - 1]);
      assert (a + b)[..|a + b| - 1] == a + b[..|b| - 1];
    }
  }

  function MessageOf(t: Task): seq<seq<byte>> {
    if t.SendTask? then [t.msg] else []
  }

  lemma QueuedFirst(tasks: seq<Task>)
    requires tasks != []
    ensures QueuedMessages(tasks) == MessageOf(tasks[0]) + QueuedMessages(tasks[1..])
  {
    QueuedAppend([tasks[0]], tasks[1..]);
    assert tasks == [tasks[0]] + tasks[1..];
    assert [tasks[0]][..0] == [];
  }

  lemma NoMessage(t: Task)
    requires !t.SendTask?
    ensures QueuedMessages([t]) == [] && QueuedMessages([]) == []
  {
    assert [t][..0] == [];
  }

  lemma OneMessage(msg: seq<byte>)
    ensures QueuedMessages([SendTask(msg)]) == [msg]
  {
    assert [SendTask(msg)][..0] == [];
  }

  /** The message the step hands to the loop's queue. */
  function HandedBy(c: Conn, e: Event): seq<seq<byte>> {
    if e.SendElsewhere? && c.phase == Connected then [e.msg] else []
  }

  /** Added tasks that carry no message. */
  lemma SendAdds(c: Conn, msg: seq<byte>, w: WriteResult) returns (added: seq<Task>)
    requires Fits(msg, w)
    ensures SendInLoop(c, msg, w).tasks == c.tasks + added && QueuedMessages(added) == []
  {
    SendTasks(c, msg, w, if Direct(c) && w.Wrote? then w.n else 0);
    var tasks := SendInLoop(c, msg, w).tasks;
    added := tasks[|c.tasks|..];
    assert |added| <= 1;
    if added == [] {
      NoMessage(WriteCompleteTask);
    } else {
      NoMessage(added[0]);
      assert added == [added[0]];
    }
  }

  lemma WriteAdds(c: Conn, w: WriteResult) returns (added: seq<Task>)
    requires Fits(c.output, w)
    ensures HandleWrite(c, w).tasks == c.tasks + added && QueuedMessages(added) == []
  {
    NoMessage(WriteCompleteTask);
    WriteExactly(c, w);
    added := if Writes(c, w) then Completion(c.setup, HandleWrite(c, w).output == []) else [];
  }

  lemma CallbackAdds(c: Conn, r: ReadResult, w: WriteResult) returns (added: seq<Task>)
    requires Enabled(c, Callbacks(r, w))
    ensures Handle(c, r, w).tasks == c.tasks + added && QueuedMessages(added) == []
  {
    if c.todo.close || c.todo.error || c.todo.read {
      NoMessage(WriteCompleteTask);
      added := [];
    } else {
      added := WriteAdds(c.(todo := c.todo.(write := false)), w);
    }
  }

  lemma TaskAdds(c: Conn, w: WriteResult) returns (added: seq<Task>)
    requires Enabled(c, Task(w))
    ensures RunTask(c, w).tasks == c.tasks[1..] + added && QueuedMessages(added) == []
  {
    var c1 := c.(tasks := c.tasks[1..]);
    added := [];
    match c.tasks[0]
    case SendTask(msg) => added := SendAdds(c1, msg, w);
    case ShutdownTask => ShutdownEffect(c1);
    case _ =>
  }

  lemma AskAdds(c: Conn, e: Event) returns (added: seq<Task>)
    requires !e.Send? && !e.Callbacks? && !e.Task? && Enabled(c, e)
    ensures Apply(c, e).tasks == c.tasks + added && QueuedMessages(added) == HandedBy(c, e)
  {
    NoMessage(ShutdownTask);
    NoMessage(ForceCloseTask);
    added := [];
    match e
    case SendElsewhere(msg) =>
      OneMessage(msg);
      if c.phase == Connected {
        added := [SendTask(msg)];
      }
    case ShutdownElsewhere =>
      if c.phase == Connected {
        added := [ShutdownTask];
      }
    case ForceCloses =>
      if Live(c) {
        added := [ForceCloseTask];
      }
    case ShutdownHere =>
      if c.phase == Connected {
        ShutdownEffect(c.(phase := Disconnecting, asked := true));
      }
    case _ =>
  }

  /** Whatever a step queues goes behind what waits; only running a task takes one off,
      and it takes the first. */
  lemma StepQueues(c: Conn, e: Event) returns (added: seq<Task>)
    requires Enabled(c, e)
    ensures Apply(c, e).tasks == (if e.Task? then c.tasks[1..] else c.tasks) + added
    ensures QueuedMessages(added) == HandedBy(c, e)
  {
    match e
    case Send(msg, w) =>
      if c.phase == Connected {
        added := SendAdds(c, msg, w);
      } else {
        added := [];
      }
    case Callbacks(r, w) => added := CallbackAdds(c, r, w);
    case Task(w) => added := TaskAdds(c, w);
    case _ => added := AskAdds(c, e);
  }

  // ----- over whole runs -----

  /** The messages other threads gave to send() while the connection was connected. */
  ghost function Handed(c: Conn, es: seq<Event>): seq<seq<byte>> {
    if es == [] then []
    else Handed(c, es[..|es| - 1]) + HandedBy(Exec(TCP, c, es[..|es| - 1]), es[|es| - 1])
  }

  /** The message whose turn it is in this step. */
  function RunBy(c: Conn, e: Event): seq<seq<byte>> {
    if e.Task? && c.tasks != [] then MessageOf(c.tasks[0]) else []
  }

  ghost function Run(c: Conn, es: seq<Event>): seq<seq<byte>> {
    if es == [] then [] else Run(c, es[..|es| - 1]) + RunBy(Exec(TCP, c, es[..|es| - 1]), es[|es| - 1])
  }

  lemma QueueStep(c: Conn, e: Event)
    requires Enabled(c, e)
    ensures QueuedMessages(c.tasks) + HandedBy(c, e) == RunBy(c, e) + QueuedMessages(Apply(c, e).tasks)
  {
    var added := StepQueues(c, e);
    if e.Task? {
      QueuedFirst(c.tasks);
      QueuedAppend(c.tasks[1..], added);
      assert QueuedMessages(added) == [];
    } else {
      QueuedAppend(c.tasks, added);
    }
  }

  lemma Regroup<T>(run: seq<T>, queued: seq<T>, handed: seq<T>, all: seq<T>, run': seq<T>, queued': seq<T>)
    requires all == run + queued && queued + handed == run' + queued'
    ensures all + handed == (run + run') + queued'
  {
    assert all + handed == run + (queued + handed);
    assert run + (run' + queued') == (run + run') + queued';
  }

  lemma {:induction false} QueueOrder(c: Conn, es: seq<Event>)
    requires Legal(TCP, c, es) && c.tasks == []
    ensures Handed(c, es) == Run(c, es) + QueuedMessages(Exec(TCP, c, es).tasks)
    decreases |es|
  {
    if es != [] {
      var init, last := es[..|es| - 1], es[|es| - 1];
      var x := Exec(TCP, c, init);
      QueueOrder(c, init);
      QueueStep(x, last);
      Regroup(Run(c, init), QueuedMessages(x.tasks), HandedBy(x, last), Handed(c, init), RunBy(x, last),
              QueuedMessages(Apply(x, last).tasks));
    }
  }

  /** Messages sent from other threads come to their turn in the order of the calls:
      those that have, followed by those that wait, are all that were handed in. */
  lemma ForeignOrder(setup: Setup, es: seq<Event>)
    requires Legal(TCP, Fresh(setup), es)
    ensures Handed(Fresh(setup), es) ==
            Run(Fresh(setup), es) + QueuedMessages(Exec(TCP, Fresh(setup), es).tasks)
  {
    QueueOrder(Fresh(setup), es);
  }

  /** What the kernel is no longer told: the connection is closed, or found broken. */
  predicate Lost(c: Conn, w: WriteResult) {
    c.phase == Disconnected || (!c.mask.write && c.output == [] && w == Broken)
  }

  /** The message the step accepts: one sent in the loop thread, or one whose turn it is. */
  function AcceptedBy(c: Conn, e: Event): seq<seq<byte>> {
    match e
    case Send(msg, w) => if c.phase == Connected && !Lost(c, w) then [msg] else []
    case Task(w) => if Lost(c, w) then [] else RunBy(c, e)
    case _ => []
  }

  ghost function Accepted(c: Conn, es: seq<Event>): seq<seq<byte>> {
    if es == [] then [] else Accepted(c, es[..|es| - 1]) + AcceptedBy(Exec(TCP, c, es[..|es| - 1]), es[|es| - 1])
  }

  lemma TaskAccepts(c: Conn, w: WriteResult)
    requires Enabled(c, Task(w))
    ensures RunTask(c, w).hist.accepted == c.hist.accepted + AcceptedBy(c, Task(w))
  {
    var c1 := c.(tasks := c.tasks[1..]);
    match c.tasks[0]
    case SendTask(msg) => SendExactly(c1, msg, w);
    case ShutdownTask => ShutdownEffect(c1);
    case _ =>
  }

  lemma CallbackAccepts(c: Conn, r: ReadResult, w: WriteResult)
    requires Enabled(c, Callbacks(r, w))
    ensures Handle(c, r, w).hist.accepted == c.hist.accepted
  {
    if !c.todo.close && !c.todo.error && !c.todo.read {
      WriteEffect(c.(todo := c.todo.(write := false)), w);
    }
  }

  lemma SendAccepts(c: Conn, msg: seq<byte>, w: WriteResult)
    requires Fits(msg, w)
    ensures Apply(c, Send(msg, w)).hist.accepted == c.hist.accepted + AcceptedBy(c, Send(msg, w))
  {
    if c.phase == Connected {
      SendExactly(c, msg, w);
    }
  }

  lemma AskAccepts(c: Conn, e: Event)
    requires !e.Send? && !e.Callbacks? && !e.Task? && Enabled(c, e)
    ensures Apply(c, e).hist.accepted == c.hist.accepted
  {
    if e.ShutdownHere? && c.phase == Connected {
      ShutdownEffect(c.(phase := Disconnecting, asked := true));
    }
  }

  lemma StepAccepts(c: Conn, e: Event)
    requires Enabled(c, e)
    ensures Apply(c, e).hist.accepted == c.hist.accepted + AcceptedBy(c, e)
  {
    match e
    case Send(msg, w) => SendAccepts(c, msg, w);
    case Callbacks(r, w) => CallbackAccepts(c, r, w);
    case Task(w) => TaskAccepts(c, w);
    case _ => AskAccepts(c, e);
  }

  lemma {:induction false} RunAccepts(c: Conn, es: seq<Event>)
    requires Legal(TCP, c, es)
    ensures Exec(TCP, c, es).hist.accepted == c.hist.accepted + Accepted(c, es)
    decreases |es|
  {
    if es != [] {
      var init, last := es[..|es| - 1], es[|es| - 1];
      RunAccepts(c, init);
      StepAccepts(Exec(TCP, c, init), last);
      Assoc(c.hist.accepted, Accepted(c, init), AcceptedBy(Exec(TCP, c, init), last));
    }
  }

  /** The bytes of a connection, on the wire and in the buffer, are the messages laid end
      to end in the order of their turn: those sent in the loop thread while connected,
      and those of other threads when the loop comes to them, but for what is sent once
      the connection is closed or found broken. */
  lemma SentInOrder(setup: Setup, es: seq<Event>)
    requires Legal(TCP, Fresh(setup), es)
    ensures var c := Exec(TCP, Fresh(setup), es);
            c.hist.wire + c.output == Flatten(Accepted(Fresh(setup), es))
  {
    NoByteLost(setup, es);
    RunAccepts(Fresh(setup), es);
    assert [] + Accepted(Fresh(setup), es) == Accepted(Fresh(setup), es);
  }

  // ----- what is asked for is done -----

  /** The connection has been asked to shut down; once nothing is buffered and no
      shutdown waits in the queue, its write side has been closed since. */
  predicate Shuts(c: Conn, k: nat) {
    && Asked(c) && k <= |c.hist.shutdowns|
    && (Live(c) && c.output == [] && ShutdownTask !in c.tasks ==> k < |c.hist.shutdowns|)
  }

  lemma CallbackShuts(c: Conn, k: nat, r: ReadResult, w: WriteResult)
    requires Inv(c) && Shuts(c, k) && Enabled(c, Callbacks(r, w)) && c.phase == Disconnecting
    ensures Shuts(Handle(c, r, w), k)
  {
    if !c.todo.close && !c.todo.error && !c.todo.read {
      WriteExactly(c.(todo := c.todo.(write := false)), w);
    }
  }

  lemma TaskShuts(c: Conn, k: nat, w: WriteResult)
    requires Inv(c) && Shuts(c, k) && Enabled(c, Task(w)) && c.phase == Disconnecting
    ensures Shuts(RunTask(c, w), k)
  {
    var c1 := c.(tasks := c.tasks[1..]);
    assert c.tasks == [c.tasks[0]] + c.tasks[1..];
    match c.tasks[0]
    case SendTask(msg) =>
      SendExactly(c1, msg, w);
      var added := SendAdds(c1, msg, w);
    case ShutdownTask => ShutdownEffect(c1);
    case _ =>
  }

  lemma ShutsStep(c: Conn, k: nat, e: Event)
    requires Inv(c) && Shuts(c, k) && Enabled(c, e)
    ensures Shuts(Apply(c, e), k)
  {
    if c.phase == Disconnected {
      TcpCloses.ClosedStays(c, e);
      ShutdownsStay(c, e);
    } else {
      match e
      case Callbacks(r, w) => CallbackShuts(c, k, r, w);
      case Task(w) => TaskShuts(c, k, w);
      case _ =>
    }
  }

  lemma ClosedCallback(c: Conn, r: ReadResult, w: WriteResult)
    requires Inv(c) && Enabled(c, Callbacks(r, w)) && c.phase == Disconnected
    ensures Handle(c, r, w).hist.shutdowns == c.hist.shutdowns
  {
    WriteEffect(c.(todo := c.todo.(write := false)), w);
  }

  lemma ClosedTask(c: Conn, w: WriteResult)
    requires Enabled(c, Task(w)) && c.phase == Disconnected
    ensures RunTask(c, w).hist.shutdowns == c.hist.shutdowns
  {
  }

  lemma ShutdownsStay(c: Conn, e: Event)
    requires Inv(c) && Enabled(c, e) && c.phase == Disconnected
    ensures Apply(c, e).hist.shutdowns == c.hist.shutdowns
  {
    match e
    case Callbacks(r, w) => ClosedCallback(c, r, w);
    case Task(w) => ClosedTask(c, w);
    case _ =>
  }

  lemma {:induction false} ShutsAlways(c: Conn, k: nat, es: seq<Event>)
    requires Inv(c) && Shuts(c, k) && Legal(TCP, c, es)
    ensures Inv(Exec(TCP, c, es)) && Shuts(Exec(TCP, c, es), k)
    decreases |es|
  {
    if es != [] {
      var init, last := es[..|es| - 1], es[|es| - 1];
      ShutsAlways(c, k, init);
      ShutsStep(Exec(TCP, c, init), k, last);
      StepKeepsInv(Exec(TCP, c, init), last);
    }
  }

  /** shutdown(), in whatever thread, closes the write side: in every later run, once
      nothing is buffered and the loop has come to what shutdown() has queued, it has
      been closed, unless the connection was. */
  lemma ShutdownHappens(c: Conn, e: Event, es: seq<Event>, x: Conn)
    requires Inv(c) && c.phase == Connected && (e == ShutdownHere || e == ShutdownElsewhere)
    requires Legal(TCP, Apply(c, e), es) && x == Exec(TCP, Apply(c, e), es)
    requires Live(x) && x.output == [] && ShutdownTask !in x.tasks
    ensures |x.hist.shutdowns| > |c.hist.shutdowns|
  {
    StepKeepsInv(c, e);
    if e == ShutdownHere {
      ShutdownEffect(c.(phase := Disconnecting, asked := true));
    }
    ShutsAlways(Apply(c, e), |c.hist.shutdowns|, es);
  }

  predicate Closing(c: Conn) {
    Asked(c) && (Live(c) ==> ForceCloseTask in c.tasks)
  }

  lemma ClosingStep(c: Conn, e: Event)
    requires Inv(c) && Closing(c) && Enabled(c, e)
    ensures Closing(Apply(c, e))
  {
    if c.phase == Disconnected {
      TcpCloses.ClosedStays(c, e);
    } else {
      AskedStep(c, e);
      var added := StepQueues(c, e);
      if e.Task? {
        assert c.tasks == [c.tasks[0]] + c.tasks[1..];
      }
    }
  }

  lemma {:induction false} ClosingAlways(c: Conn, es: seq<Event>)
    requires Inv(c) && Closing(c) && Legal(TCP, c, es)
    ensures Inv(Exec(TCP, c, es)) && Closing(Exec(TCP, c, es))
    decreases |es|
  {
    if es != [] {
      var init, last := es[..|es| - 1], es[|es| - 1];
      ClosingAlways(c, init);
      ClosingStep(Exec(TCP, c, init), last);
      StepKeepsInv(Exec(TCP, c, init), last);
    }
  }

  /** forceClose() closes: in every later run, once the loop has come to what it has
      queued, the connection is closed. */
  lemma ForceCloseHappens(c: Conn, es: seq<Event>, x: Conn)
    requires Inv(c) && Live(c) && Legal(TCP, Apply(c, ForceCloses), es) && x == Exec(TCP, Apply(c, ForceCloses), es)
    requires ForceCloseTask !in x.tasks
    ensures x.phase == Disconnected
  {
    StepKeepsInv(c, ForceCloses);
    ClosingAlways(Apply(c, ForceCloses), es);
  }

  /** While the connection is up it watches for reading exactly as startRead() and
      stopRead() last asked. */
  lemma ReadingAsAsked(c: Conn)
    requires Inv(c) && Live(c)
    ensures var x := Apply(c, StartRead); x.reading && x.mask == c.mask.(read := true) && x.output == c.output
    ensures var x := Apply(c, StopRead); !x.reading && x.mask == c.mask.(read := false) && x.output == c.output
  {
  }
}
