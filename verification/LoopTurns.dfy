/** net/EventLoop.cc: what a turn of the loop leaves in the eventfd, which tasks have
    been queued, and when the loop ends. */
module LoopTurns {
  import opened Machines
  import opened Seqs
  import opened EventLoops

  // ----- what has been queued -----

  function PushedBy(e: Event): seq<Functor> {
    match e
    case Push(_, f) => [f]
    case LoopPush(f) => [f]
    case _ => []
  }

  function Pushed(es: seq<Event>): seq<Functor> {
    if es == [] then [] else Pushed(es[..|es| - 1]) + PushedBy(es[|es| - 1])
  }

  lemma StepPushes(s: State, e: Event)
    ensures Apply(s, e).queued == s.queued + PushedBy(e)
  {
  }

  lemma {:induction false} RunQueues(s: State, es: seq<Event>)
    ensures Exec(LOOP, s, es).queued == s.queued + Pushed(es)
    decreases |es|
  {
    if es != [] {
      RunQueues(s, es[..|es| - 1]);
      StepPushes(Exec(LOOP, s, es[..|es| - 1]), es[|es| - 1]);
      Assoc(s.queued, Pushed(es[..|es| - 1]), PushedBy(es[|es| - 1]));
    }
  }

  /** Over any run: the tasks that have run, that are being run and that wait are those
      pushed, by whatever thread, in the order of their critical sections. */
  lemma RunInPushOrder(s: State, es: seq<Event>)
    requires Consistent(s) && Legal(LOOP, s, es)
    ensures var s' := Exec(LOOP, s, es);
            s'.ran + s'.batch + s'.pending == s.ran + s.batch + s.pending + Pushed(es)
  {
    RunInOrder(s, es);
    RunQueues(s, es);
  }

  // ----- the eventfd -----

  function FromElsewhere(ps: seq<Post>): seq<Functor> {
    if ps == [] then []
    else FromElsewhere(ps[..|ps| - 1]) + if ps[|ps| - 1].elsewhere then [ps[|ps| - 1].task] else []
  }

  /** Outside of doPendingFunctors a wakeup is written for other threads' tasks alone,
      and inside for every task. */
  lemma {:induction false} QueueManyWrites(s: State, ps: seq<Post>)
    ensures QueueMany(s, ps).eventfd == s.eventfd + if s.calling then |ps| else |FromElsewhere(ps)|
  {
    if ps != [] {
      QueueManyWrites(s, ps[..|ps| - 1]);
      QueueManyEffect(s, ps[..|ps| - 1]);
    }
  }

  lemma {:induction false} TasksCount(ps: seq<Post>)
    ensures |Tasks(ps)| == |ps|
  {
    if ps != [] {
      TasksCount(ps[..|ps| - 1]);
    }
  }

  lemma {:induction false} RunManyWrites(s: State, fs: seq<Functor>, later: seq<Functor>)
    requires s.batch == fs + later && s.calling
    ensures RunMany(s, fs).eventfd == s.eventfd + |QueuedBy(fs)|
    decreases |fs|
  {
    if fs != [] {
      var init, last := fs[..|fs| - 1], fs[|fs| - 1];
      assert fs + later == init + ([last] + later);
      RunManyWrites(s, init, [last] + later);
      RunManyEffect(s, init, [last] + later);
      QueueManyWrites(RunFirst(RunMany(s, init)), last.queues);
      TasksCount(last.queues);
    }
  }

  lemma PendingWrites(s: State)
    ensures RunPending(s).eventfd == s.eventfd + |QueuedBy(s.pending)|
  {
    assert s.pending + [] == s.pending;
    RunManyWrites(Take(s), s.pending, []);
  }

  lemma EventsWrite(s: State, turn: Turn)
    requires s.pc == AtTest && !s.calling
    ensures var read := turn.reported && s.eventfd > 0;
            EventsHandled(s, turn).eventfd ==
            (if read then 0 else s.eventfd + |FromElsewhere(Flatten(turn.before))|)
            + |FromElsewhere(Flatten(turn.after))| + (if turn.quits == QuitsElsewhere then 1 else 0)
  {
    var s1 := Polled(s, turn.reported && s.eventfd > 0);
    var s2 := QueueMany(s1, Flatten(turn.before));
    QueueManyWrites(s1, Flatten(turn.before));
    QueueManyEffect(s1, Flatten(turn.before));
    QueueManyWrites(WakeupHandled(s2), Flatten(turn.after));
  }

  lemma EventsQueue(s: State, turn: Turn)
    ensures EventsHandled(s, turn).pending ==
            s.pending + Tasks(Flatten(turn.before)) + Tasks(Flatten(turn.after))
  {
    var s1 := Polled(s, turn.reported && s.eventfd > 0);
    QueueManyEffect(s1, Flatten(turn.before));
    QueueManyEffect(WakeupHandled(QueueMany(s1, Flatten(turn.before))), Flatten(turn.after));
  }

  /** What a turn leaves in the eventfd: if it handled the wakeup channel, exactly what
      has been written since, for tasks of other threads, for their quit, and for each
      task queued while tasks were run; otherwise what was there on top of that. */
  lemma EventfdAfterTurn(s: State, turn: Turn)
    requires s.pc == AtTest && !s.calling
    ensures var ran := s.pending + Tasks(Flatten(turn.before)) + Tasks(Flatten(turn.after));
            RunPending(EventsHandled(s, turn)).eventfd ==
            (if turn.reported && s.eventfd > 0 then 0 else s.eventfd + |FromElsewhere(Flatten(turn.before))|)
            + |FromElsewhere(Flatten(turn.after))| + (if turn.quits == QuitsElsewhere then 1 else 0)
            + |QueuedBy(ran)|
  {
    EventsWrite(s, turn);
    EventsQueue(s, turn);
    PendingWrites(EventsHandled(s, turn));
  }

  // ----- the end of the loop -----

  lemma TurnQuits(s: State, turn: Turn)
    requires s.pc == AtTest && !s.quit && !s.loopOwes
    ensures var s' := RunPending(EventsHandled(s, turn));
            s'.pc == AtTest && !s'.loopOwes && (s'.quit <==> turn.quits != Stays) && s'.batches == s.batches + 1
  {
    var t := SomeoneFree(s);
    var es := EventsAreRun(s, turn, t);
    es := ChannelsAreRun(Polled(s, turn.reported && s.eventfd > 0), turn, t);
    RunPendingEffect(EventsHandled(s, turn));
  }

  /** The loop ends exactly if somebody quits in one of the turns, or had before; it
      finishes that turn, tasks included, and begins no other. */
  lemma {:induction false} QuitEndsLoop(s: State, turns: seq<Turn>, n: nat)
    requires s.pc == AtTest && !s.quit && !s.loopOwes && n <= |turns|
    requires forall i :: 0 <= i < n ==> turns[i].quits == Stays
    requires n < |turns| ==> turns[n].quits != Stays
    ensures var s' := Turns(s, turns);
            && (s'.pc == Exited <==> n < |turns|)
            && s'.batches == s.batches + n + (if n < |turns| then 1 else 0)
    decreases |turns|
  {
    if turns != [] {
      var s1 := RunPending(EventsHandled(s, turns[0]));
      TurnQuits(s, turns[0]);
      if n == 0 {
        TurnsOver(s1, turns[1..]);
      } else {
        QuitEndsLoop(s1, turns[1..], n - 1);
      }
    }
  }
}
