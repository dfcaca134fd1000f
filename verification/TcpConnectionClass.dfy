/** net/TcpConnection.cc as the class it is. Each method does what the function of
    TcpConnections does over whose runs the properties are stated, keeps the
    invariant, and says what its caller can count on. */
module TcpConnectionClass {
  import opened Machines
  import opened Seqs
  import opened TcpConnections
  import Spec = TcpConnections

  /** The methods of the source, updating its fields; the answers of the kernel are
      arguments. queue stands for what the connection puts into its loop. */
  class TcpConnection {
    const setup: Setup
    var phase: Phase
    var reading: bool
    var events: Mask
    var inputBuffer: seq<byte>
    var outputBuffer: seq<byte>
    var queue: seq<Task>
    ghost var received: seq<byte>   // what was read from the socket
    ghost var handed: seq<byte>     // what the message callback took out of the input buffer
    ghost var held: bool
    ghost var asked: bool
    ghost var removed: bool
    ghost var failed: bool
    ghost var hist: History

    ghost function Model(): Conn
      reads this
    {
      Conn(phase, reading, events, held, outputBuffer, setup, queue, NOTHING, asked, removed, failed, hist)
    }

    /** What was accepted, on the wire or not. */
    ghost function Sent(): seq<byte>
      reads this
    {
      hist.wire + outputBuffer
    }

    constructor (setup: Setup)
      ensures Model() == Fresh(setup) && Inv(Model()) && received == handed + inputBuffer
    {
      this.setup := setup;
      phase, reading, events, outputBuffer, queue := Connecting, true, NONE_EVENT, [], [];
      inputBuffer, received, handed := [], [], [];
      held, asked, removed, failed, hist := false, false, false, false, History([], [], [], []);
    }

    /** Channel::update, through the loop's poller. */
    method Update(mask: Mask)
      modifies this`events, this`held
      ensures Model() == Watch(old(Model()), mask)
    {
      held := setup.epoll && mask == NONE_EVENT && events == NONE_EVENT && !held;
      events := mask;
    }

    method EnableWriting()
      requires !(held && events.write)
      modifies this`events, this`held
      ensures Model() == WatchWrites(old(Model()), true)
    {
      if !events.write {
        Update(events.(write := true));
      }
    }

    method QueueHighWater(n: nat)
      modifies this`queue
      ensures queue == HighWater(old(Model()), n)
    {
      var oldLen := |outputBuffer|;
      if oldLen + n >= setup.highWaterMark && oldLen < setup.highWaterMark && setup.onHighWater {
        queue := queue + [HighWaterTask(oldLen + n)];
      }
    }

    /** The second half of sendInLoop: what the kernel did not take. */
    method BufferRest(rest: seq<byte>)
      requires rest != [] && !(held && events.write)
      modifies this
      ensures Model() == Buffered(old(Model()), rest)
      ensures Sent() == old(Sent()) + rest && events.write
    {
      Assoc(hist.wire, outputBuffer, rest);
      QueueHighWater(|rest|);
      outputBuffer := outputBuffer + rest;
      EnableWriting();
    }

    /** The attempt to write at once: how much went out, and whether the connection
        turned out to be broken. */
    method WriteDirect(message: seq<byte>, w: WriteResult) returns (nwrote: nat, faultError: bool)
      requires Fits(message, w)
      modifies this`queue
      ensures nwrote == (if Direct(Model()) && w.Wrote? then w.n else 0) && nwrote <= |message|
      ensures faultError <==> Direct(Model()) && w == Broken
      ensures Model() ==
              if Direct(Model()) && w.Wrote? && w.n == |message| then Complete(old(Model())) else old(Model())
    {
      nwrote, faultError := 0, false;
      if !events.write && |outputBuffer| == 0 {
        if w.Wrote? {
          nwrote := w.n;
          if |message| - nwrote == 0 && setup.onWriteComplete {
            queue := queue + [WriteCompleteTask];
          }
        } else if w == Broken {
          faultError := true;
        }
      }
    }

    /** The message has been accepted; what did not go out is buffered. */
    method AcceptMessage(message: seq<byte>, nwrote: nat)
      requires nwrote <= |message| && !(held && events.write)
      modifies this
      ensures Model() == Buffered(Accept(old(Model()), message, nwrote), message[nwrote..])
    {
      hist := hist.(wire := hist.wire + message[..nwrote], accepted := hist.accepted + [message]);
      if nwrote < |message| {
        BufferRest(message[nwrote..]);
      }
    }

    /** The message is accepted whole, behind all others, or nothing changes. */
    method SendInLoop(message: seq<byte>, w: WriteResult)
      requires Inv(Model()) && Fits(message, w)
      modifies this
      ensures Model() == Spec.SendInLoop(old(Model()), message, w)
      ensures old(phase) != Connecting ==> Inv(Model())
      ensures if Dropped(old(Model()), w) then Model() == old(Model())
              else Sent() == old(Sent()) + message && hist.accepted == old(hist.accepted) + [message]
    {
      ghost var c := Model();
      if phase != Disconnected {
        var nwrote, faultError := WriteDirect(message, w);
        if !faultError {
          AcceptMessage(message, nwrote);
        }
      }
      SendPromises(c, message, w, Model());
    }

    /** Run at once in the loop thread, queued from any other; only while connected. */
    method Send(message: seq<byte>, inLoopThread: bool, w: WriteResult)
      requires Inv(Model()) && Fits(message, w)
      modifies this
      ensures Model() == Apply(old(Model()), if inLoopThread then Event.Send(message, w) else SendElsewhere(message))
      ensures Inv(Model())
    {
      ghost var e := if inLoopThread then Event.Send(message, w) else SendElsewhere(message);
      StepKeepsInv(Model(), e);
      if phase == Connected {
        if inLoopThread {
          SendInLoop(message, w);
        } else {
          queue := queue + [SendTask(message)];
        }
      }
    }

    /** At most one more shutdown, recorded with what is owed. */
    method ShutdownInLoop()
      modifies this`hist
      ensures Model() == Spec.ShutdownInLoop(old(Model())) && (old(Inv(Model())) ==> Inv(Model()))
      ensures hist == old(hist).(shutdowns := hist.shutdowns)
      ensures hist.shutdowns == old(hist.shutdowns)
              + if Live(Model()) && !events.write then [Owed(old(Model()))] else []
    {
      if !events.write {
        if Live(Model()) {
          hist := hist.(shutdowns := hist.shutdowns + [Owed(Model())]);
        }
      }
    }

    method Shutdown(inLoopThread: bool)
      requires Inv(Model())
      modifies this
      ensures Model() == Apply(old(Model()), if inLoopThread then ShutdownHere else ShutdownElsewhere)
      ensures Inv(Model()) && phase != Connected && Sent() == old(Sent())
    {
      StepKeepsInv(Model(), if inLoopThread then ShutdownHere else ShutdownElsewhere);
      if phase == Connected {
        phase, asked := Disconnecting, true;
        if inLoopThread {
          ShutdownInLoop();
        } else {
          queue := queue + [ShutdownTask];
        }
      }
    }

    method ForceClose()
      requires Inv(Model())
      modifies this
      ensures Model() == Apply(old(Model()), ForceCloses)
      ensures Inv(Model()) && phase != Connected && (Live(Model()) ==> ForceCloseTask in queue)
    {
      StepKeepsInv(Model(), ForceCloses);
      if phase == Connected || phase == Disconnecting {
        phase := Disconnecting;
        queue := queue + [ForceCloseTask];
      }
    }

    /** The end: DOWN and then the close callback, each for the first time. */
    method HandleClose()
      requires Inv(Model()) && Live(Model())
      modifies this`phase, this`events, this`held, this`hist
      ensures Model() == Spec.HandleClose(old(Model()))
      ensures Inv(Model()) && hist.log == [Up, Down, Closed] && events == NONE_EVENT && Sent() == old(Sent())
    {
      phase := Disconnected;
      Update(NONE_EVENT);
      hist := hist.(log := hist.log + [Down, Closed]);
    }

    /** Afterwards the connection is closed, whether it was before or not. */
    method ForceCloseInLoop()
      requires Inv(Model())
      modifies this
      ensures Model() == if Live(old(Model())) then Spec.HandleClose(old(Model())) else old(Model())
      ensures Inv(Model()) && !Live(Model())
    {
      if phase == Connected || phase == Disconnecting {
        HandleClose();
      }
    }

    /** The bytes read go behind the input, and the message callback takes some off
        its front: nothing that came in is lost or reordered. */
    method HandleRead(r: ReadResult, data: seq<byte>, taken: nat)
      requires Inv(Model()) && (r == Eof ==> Live(Model()))
      requires if r == Data then taken <= |inputBuffer| + |data| else data == [] && taken == 0
      modifies this
      ensures Model() == Spec.HandleRead(old(Model()), r)
      ensures Inv(Model()) && (r == Eof <==> Model() != old(Model()))
      ensures received == old(received) + data
      ensures handed == old(handed) + old(inputBuffer + data)[..taken]
      ensures old(received == handed + inputBuffer) ==> received == handed + inputBuffer
    {
      received := received + data;
      if r == Data {
        inputBuffer := inputBuffer + data;
        handed := handed + inputBuffer[..taken];
        inputBuffer := inputBuffer[taken..];
      } else if r == Eof {
        HandleClose();
      }
    }

    /** Bytes move from the buffer to the wire. The step that empties the buffer of a
        connection asked to shut down closes its write side. */
    method HandleWrite(w: WriteResult)
      requires Inv(Model()) && Fits(outputBuffer, w)
      modifies this
      ensures Model() == Spec.HandleWrite(old(Model()), w)
      ensures Inv(Model()) && phase == old(phase) && Sent() == old(Sent()) && old(hist.wire) <= hist.wire
      ensures |hist.shutdowns| == old(|hist.shutdowns|)
              + if old(outputBuffer) != [] && outputBuffer == [] && phase == Disconnecting then 1 else 0
    {
      ghost var c := Model();
      WriteConserves(c, w);
      WriteEffect(c, w);
      if events.write {
        if w.Wrote? && w.n > 0 {
          hist := hist.(wire := hist.wire + outputBuffer[..w.n]);
          outputBuffer := outputBuffer[w.n..];
          assert Model() == Taken(c, w.n);
          if |outputBuffer| == 0 {
            FinishWriting();
          }
        }
      }
    }

    /** The buffer is empty again. */
    method FinishWriting()
      requires Live(Model()) && outputBuffer == []
      modifies this
      ensures Model() == Drained(old(Model()))
      ensures |hist.shutdowns| == old(|hist.shutdowns|) + if phase == Disconnecting then 1 else 0
    {
      Update(events.(write := false));
      if setup.onWriteComplete {
        queue := queue + [WriteCompleteTask];
      }
      if phase == Disconnecting {
        ShutdownInLoop();
      }
    }

    /** The callbacks for a hangup and for reading. */
    method HandleClosing(hangup: bool, readable: bool, r: ReadResult, data: seq<byte>, taken: nat)
      requires Inv(Model())
      requires !(if Live(Model()) then hangup && readable && r == Eof else hangup || (readable && r == Eof))
      requires if r == Data then taken <= |inputBuffer| + |data| else data == [] && taken == 0
      modifies this
      ensures Model() == BeforeWrite(old(Model()), Todo(hangup, false, readable, false), r)
      ensures Inv(Model()) && hist.wire == old(hist.wire) && outputBuffer == old(outputBuffer)
      ensures Live(Model()) <==> old(Live(Model())) && !hangup && !(readable && r == Eof)
    {
      if hangup {
        HandleClose();
      }
      if readable {
        HandleRead(r, data, taken);
      }
    }

    /** Channel::handleEventWithGuard with the connection's handlers. */
    method HandleEvent(rev: Revents, r: ReadResult, data: seq<byte>, taken: nat, w: WriteResult)
      requires Inv(Model()) && Fits(outputBuffer, w)
      requires !(if Live(Model()) then HangsUp(rev) && Readable(rev) && r == Eof
                 else HangsUp(rev) || (Readable(rev) && r == Eof))
      requires if r == Data then taken <= |inputBuffer| + |data| else data == [] && taken == 0
      modifies this
      ensures Model() == Spec.HandleEvent(old(Model()), rev, r, w)
      ensures Inv(Model()) && Sent() == old(Sent()) && old(hist.wire) <= hist.wire
      ensures Live(Model()) <==> old(Live(Model())) && !HangsUp(rev) && !(Readable(rev) && r == Eof)
    {
      ghost var c := Model();
      HandleClosing(rev.hup && !rev.in_, rev.in_ || rev.pri || rev.rdhup, r, data, taken);
      assert Model() == BeforeWrite(c, Dispatch(rev), r);
      if rev.out {
        HandleWrite(w);
      }
    }

    method ConnectEstablished()
      requires Inv(Model()) && phase == Connecting
      modifies this
      ensures Model() == Apply(old(Model()), Established)
      ensures Inv(Model()) && hist.log == [Up]
    {
      StepKeepsInv(Model(), Established);
      phase := Connected;
      Update(events.(read := true));
      hist := hist.(log := hist.log + [Up]);
    }

    /** DOWN, if it has not been made. The precondition is the assert of
        Channel::remove. */
    method ConnectDestroyed()
      requires Inv(Model()) && (phase == Connected || events == NONE_EVENT)
      modifies this
      ensures Model() == Spec.ConnectDestroyed(old(Model())) && removed && !held && failed == old(failed)
      ensures old(phase) == Connected || old(phase) == Disconnected ==> Inv(Model()) && [Up, Down] <= hist.log
    {
      if phase == Connected {
        phase := Disconnected;
        Update(NONE_EVENT);
        hist := hist.(log := hist.log + [Down]);
      }
      removed, held := true, false;
    }

    method StartReadInLoop()
      requires Inv(Model())
      modifies this
      ensures Model() == Spec.StartReadInLoop(old(Model())) && reading && events.read && Sent() == old(Sent())
      ensures Live(Model()) ==> Inv(Model())
    {
      if !reading || !events.read {
        Update(events.(read := true));
        reading := true;
      }
    }

    /** Also after the close: the poller is told again to watch nothing. */
    method StopReadInLoop()
      requires Inv(Model()) && !(removed && reading && !setup.epoll)
      modifies this
      ensures Model() == Spec.StopReadInLoop(old(Model())) && (old(phase) != Connecting ==> Inv(Model()))
      ensures !reading && !events.read && failed == old(failed) && Sent() == old(Sent())
    {
      if phase != Connecting {
        StepKeepsInv(Model(), StopRead);
      }
      if reading || events.read {
        Update(events.(read := false));
        reading := false;
      }
    }

    // ----- the connection's part of the loop's queue -----

    method DoTask(task: Task, w: WriteResult)
      requires Inv(Model()) && phase != Connecting && (task.SendTask? ==> Fits(task.msg, w))
      modifies this
      ensures Model() == Spec.RunTask(old(Model()).(tasks := [task] + old(queue)), w)
    {
      assert ([task] + queue)[1..] == queue;
      match task
      case SendTask(msg) => SendInLoop(msg, w);
      case ShutdownTask => ShutdownInLoop();
      case ForceCloseTask => ForceCloseInLoop();
      case _ =>
    }

    /** The first task that waits. */
    method RunTask(w: WriteResult)
      requires Inv(Model()) && Enabled(Model(), Event.Task(w))
      modifies this
      ensures Model() == Spec.RunTask(old(Model()), w) && Inv(Model())
      ensures old(queue)[1..] <= queue
    {
      ghost var c := Model();
      TaskKeepsInv(c, w);
      QueueGrows(c, w);
      var task := queue[0];
      queue := queue[1..];
      assert c.tasks == [task] + queue && Inv(Model());
      DoTask(task, w);
    }

    method RunNext(w: WriteResult, ghost s: Conn, ghost es: seq<Event>)
      requires Inv(Model()) && Enabled(Model(), Event.Task(w)) && TasksRun(s, es, Model())
      modifies this
      ensures Inv(Model()) && TasksRun(s, es + [Event.Task(w)], Model()) && old(queue)[1..] <= queue
    {
      Snoc(TCP, s, es, Event.Task(w));
      RunTask(w);
    }

    /** All that wait, with the kernel's answer for each; what they queue waits for
        the next time. It is a run of the connection. */
    method RunQueue(answers: seq<WriteResult>) returns (ghost es: seq<Event>)
      requires Inv(Model()) && |answers| == |queue|
      requires forall i :: 0 <= i < |queue| && queue[i].SendTask? ==> Fits(queue[i].msg, answers[i])
      modifies this
      ensures Inv(Model()) && TasksRun(old(Model()), es, Model()) && |es| == old(|queue|)
    {
      var n := |queue|;
      ghost var s, tasks := Model(), queue;
      es := [];
      for i := 0 to n
        invariant |es| == i && TasksRun(s, es, Model()) && Inv(Model()) && tasks[i..] <= queue
      {
        assert queue[0] == tasks[i];
        RunNext(answers[i], s, es);
        es := es + [Event.Task(answers[i])];
      }
    }
  }

  /** The tasks of the connection that have been run lead from s to c. */
  ghost predicate TasksRun(s: Conn, es: seq<Event>, c: Conn) {
    Legal(TCP, s, es) && c == Exec(TCP, s, es) && forall e :: e in es ==> e.Task?
  }

  lemma SendPromises(c: Conn, msg: seq<byte>, w: WriteResult, c': Conn)
    requires Inv(c) && Fits(msg, w) && c' == Spec.SendInLoop(c, msg, w)
    ensures c.phase != Connecting ==> Inv(c')
    ensures Dropped(c, w) ==> c' == c
    ensures !Dropped(c, w) ==>
              c'.hist.wire + c'.output == c.hist.wire + c.output + msg && c'.hist.accepted == c.hist.accepted + [msg]
  {
    WholeMessages(c, msg, w);
    if c.phase != Connecting {
      SendKeepsInv(c, msg, w);
    }
  }

  lemma QueueGrows(c: Conn, w: WriteResult)
    requires Enabled(c, Event.Task(w))
    ensures c.tasks[1..] <= Spec.RunTask(c, w).tasks
  {
    var c1 := c.(tasks := c.tasks[1..]);
    match c.tasks[0]
    case SendTask(msg) =>
      SendTasks(c1, msg, w, if Direct(c1) && w.Wrote? then w.n else 0);
      assert Spec.RunTask(c, w).tasks == Spec.SendInLoop(c1, msg, w).tasks;
    case ShutdownTask => ShutdownEffect(c1);
    case _ =>
  }
}
