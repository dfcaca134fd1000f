/** net/EventLoop.cc: the task queue and its eventfd.

    The loop thread and any number of other threads take steps in any order. A step
    is what a thread does between two points where another thread can see it: one
    critical section, one write to or read of the eventfd, one assignment of a flag. */
module EventLoops {
  import opened Machines
  import opened Seqs

  type Thread = nat

  /** A queued task, with what is queued while it runs. */
  datatype Functor = Functor(id: nat, queues: seq<Post>)

  /** A task as it is queued, by the loop thread or elsewhere. */
  datatype Post = Post(task: Functor, elsewhere: bool)

  /** Where the loop thread is. */
  datatype Pc =
    | AtTest       // while (!quit_)
    | InPoll       // about to block, or blocked, in poll
    | InEvents     // handling the active channels
    | BeforeSwap   // callingPendingFunctors_ is set, the queue not yet taken
    | InBatch      // running what was taken
    | Exited

  /** pushers and quitters are the other threads that have pushed a task, or set
      quit_, and have not yet written to the eventfd. queued, queuedIn, ran and ranIn
      are the history: every task ever queued or run, and the number of batches
      taken by then. */
  datatype State = State(
    pc: Pc,
    quit: bool,
    calling: bool,          // callingPendingFunctors_
    pending: seq<Functor>,  // pendingFunctors_
    batch: seq<Functor>,    // what is left of the vector swapped out
    eventfd: nat,
    toRead: bool,           // the wakeup channel is active and not yet handled
    loopOwes: bool,         // the loop thread is inside queueInLoop, past its push
    pushers: set<Thread>,
    quitters: set<Thread>,
    batches: nat,
    queued: seq<Functor>,
    queuedIn: seq<nat>,
    ran: seq<Functor>,
    ranIn: seq<nat>)

  datatype Event =
    | Push(t: Thread, f: Functor)   // queueInLoop elsewhere, its critical section
    | Quit(t: Thread)               // quit elsewhere, its assignment
    | Wakeup(t: Thread)             // the eventfd write that follows
    | LoopPush(f: Functor)          // queueInLoop in the loop thread
    | LoopWakeup                    // its test, and the write if the test holds
    | LoopQuit                      // quit in the loop thread
    | Test
    | PollReturns(readable: bool)   // events, timeout or a signal
    | HandleRead
    | EventsDone
    | Swap
    | RunNext
    | BatchDone

  predicate UserCode(s: State) {
    (s.pc == InEvents || s.pc == InBatch) && !s.loopOwes
  }

  predicate Enabled(s: State, e: Event) {
    match e
    case Push(t, _) => t !in s.pushers && t !in s.quitters
    case Quit(t) => t !in s.pushers && t !in s.quitters
    case Wakeup(t) => t in s.pushers || t in s.quitters
    case LoopPush(_) => UserCode(s)
    case LoopWakeup => s.loopOwes
    case LoopQuit => UserCode(s)
    case Test => s.pc == AtTest
    case PollReturns(readable) => s.pc == InPoll && (readable ==> s.eventfd > 0)
    case HandleRead => s.pc == InEvents && s.toRead && !s.loopOwes
    case EventsDone => s.pc == InEvents && !s.toRead && !s.loopOwes
    case Swap => s.pc == BeforeSwap
    case RunNext => s.pc == InBatch && s.batch != [] && !s.loopOwes
    case BatchDone => s.pc == InBatch && s.batch == [] && !s.loopOwes
  }

  function Enqueue(s: State, f: Functor): State {
    s.(pending := s.pending + [f], queued := s.queued + [f], queuedIn := s.queuedIn + [s.batches])
  }

  function RunFirst(s: State): State {
    if s.batch == [] then s
    else s.(batch := s.batch[1..], ran := s.ran + [s.batch[0]], ranIn := s.ranIn + [s.batches])
  }

  function Apply(s: State, e: Event): State {
    match e
    case Push(t, f) => Enqueue(s, f).(pushers := s.pushers + {t})
    case Quit(t) => s.(quit := true, quitters := s.quitters + {t})
    case Wakeup(t) => s.(eventfd := s.eventfd + 1, pushers := s.pushers - {t}, quitters := s.quitters - {t})
    case LoopPush(f) => Enqueue(s, f).(loopOwes := true)
    case LoopWakeup => s.(eventfd := s.eventfd + (if s.calling then 1 else 0), loopOwes := false)
    case LoopQuit => s.(quit := true)
    case Test => s.(pc := if s.quit then Exited else InPoll)
    case PollReturns(readable) => s.(pc := InEvents, toRead := readable)
    case HandleRead => s.(eventfd := 0, toRead := false)
    case EventsDone => s.(pc := BeforeSwap, calling := true)
    case Swap => s.(pc := InBatch, batch := s.pending, pending := [], batches := s.batches + 1)
    case RunNext => RunFirst(s)
    case BatchDone => s.(pc := AtTest, calling := false)
  }

  const LOOP: Machine<State, Event> := Machine(Enabled, Apply)

  // ----- the invariant -----

  /** Some wakeup is written or owed for the tasks that wait. */
  predicate Woken(s: State) {
    s.pending == [] || s.eventfd > 0 || s.pushers != {} || (s.loopOwes && s.pc == InBatch)
  }

  predicate Flags(s: State) {
    && (s.calling <==> s.pc == BeforeSwap || s.pc == InBatch)
    && (s.loopOwes ==> s.pc == InEvents || s.pc == InBatch) && (s.toRead ==> s.pc == InEvents)
    && (s.batch != [] ==> s.pc == InBatch)
  }

  /** What has run, what is being run and what waits are all that was queued. */
  predicate Accounted(s: State) {
    s.queued == s.ran + s.batch + s.pending && |s.queuedIn| == |s.queued| && |s.ranIn| == |s.ran|
  }

  /** What is being run was queued before its batch was taken. */
  predicate Numbered(s: State)
    requires Accounted(s)
  {
    && (forall k :: 0 <= k < |s.queued| ==> s.queuedIn[k] <= s.batches)
    && (forall k :: 0 <= k < |s.ran| + |s.batch| ==> s.queuedIn[k] < s.batches)
    && (forall k :: 0 <= k < |s.ran| ==> s.queuedIn[k] < s.ranIn[k] <= s.batches)
  }

  /** What makes sense of the flags, and the history. */
  predicate Consistent(s: State) {
    Flags(s) && Accounted(s) && Numbered(s)
  }

  predicate Inv(s: State) {
    && Consistent(s)
    && (s.pc == AtTest || s.pc == InPoll || s.pc == InBatch ==> Woken(s))
    && (s.pc == InPoll && s.quit ==> s.eventfd > 0 || s.quitters != {})
  }

  lemma EnqueueHistory(s: State, f: Functor)
    requires Accounted(s) && Numbered(s)
    ensures Accounted(Enqueue(s, f)) && Numbered(Enqueue(s, f))
  {
    var s' := Enqueue(s, f);
    assert s'.queued == s'.ran + s'.batch + s'.pending;
  }

  lemma SwapHistory(s: State)
    requires Accounted(s) && Numbered(s) && s.batch == []
    ensures Accounted(Apply(s, Swap)) && Numbered(Apply(s, Swap))
  {
    var s' := Apply(s, Swap);
    assert s'.queued == s'.ran + s'.batch + s'.pending;
  }

  lemma RunHistory(s: State)
    requires Accounted(s) && Numbered(s)
    ensures Accounted(RunFirst(s)) && Numbered(RunFirst(s))
  {
    if s.batch != [] {
      var s' := RunFirst(s);
      assert s'.ran + s'.batch == s.ran + s.batch;
    }
  }

  lemma HistoryStep(s: State, e: Event)
    requires Consistent(s) && Enabled(s, e)
    ensures Consistent(Apply(s, e))
  {
    match e
    case Push(_, f) => EnqueueHistory(s, f);
    case LoopPush(f) => EnqueueHistory(s, f);
    case Swap => SwapHistory(s);
    case RunNext => RunHistory(s);
    case _ =>
  }

  lemma StepKeepsInv(s: State, e: Event)
    requires Inv(s) && Enabled(s, e)
    ensures Inv(Apply(s, e))
  {
    HistoryStep(s, e);
  }

  /** loop() as it begins: the flags are down, the histories agree. Anyone may have
      queued tasks before. */
  predicate Entering(s: State) {
    Consistent(s) && s.pc == AtTest && !s.quit
  }

  lemma InvAlways(s: State, es: seq<Event>)
    requires Inv(s) && Legal(LOOP, s, es)
    ensures Inv(Exec(LOOP, s, es))
  {
    forall x, e | Inv(x) && LOOP.enabled(x, e) ensures Inv(LOOP.apply(x, e)) {
      StepKeepsInv(x, e);
    }
    Always(LOOP, Inv, s, es);
  }

  /** The loop sits in poll with tasks waiting and nothing that will wake it. */
  predicate Stalled(s: State) {
    s.pc == InPoll && s.pending != [] && s.eventfd == 0 && s.pushers == {}
  }

  predicate QuitIgnored(s: State) {
    s.pc == InPoll && s.quit && s.eventfd == 0 && s.quitters == {}
  }

  /** No run loses a wakeup, exactly if loop() is entered with no task queued or
      with a wakeup written or owed. */
  lemma NoLostWakeup(s: State)
    requires Entering(s)
    ensures (forall es :: Legal(LOOP, s, es) ==> !Stalled(Exec(LOOP, s, es))) <==> Woken(s)
    ensures Woken(s) ==> forall es :: Legal(LOOP, s, es) ==> !QuitIgnored(Exec(LOOP, s, es))
  {
    if Woken(s) {
      forall es | Legal(LOOP, s, es) ensures !Stalled(Exec(LOOP, s, es)) && !QuitIgnored(Exec(LOOP, s, es)) {
        InvAlways(s, es);
      }
    } else {
      Snoc(LOOP, s, [], Test);
      assert Stalled(Exec(LOOP, s, [] + [Test]));
    }
  }

  /** What breaks it: a task the loop thread itself queues before loop(), for which
      queueInLoop writes nothing. Then loop() sleeps on it, exactly if nobody else
      has written, or owes, a wakeup. */
  lemma QueuedBeforeLoop(s: State, f: Functor)
    requires Entering(s)
    ensures Entering(QueueOne(s, Post(f, false)))
    ensures Woken(QueueOne(s, Post(f, false))) <==> s.eventfd > 0 || s.pushers != {}
  {
    EnqueueHistory(s, f);
  }

  lemma ConsistentAlways(s: State, es: seq<Event>)
    requires Consistent(s) && Legal(LOOP, s, es)
    ensures Consistent(Exec(LOOP, s, es))
  {
    forall x, e | Consistent(x) && LOOP.enabled(x, e) ensures Consistent(LOOP.apply(x, e)) {
      HistoryStep(x, e);
    }
    Always(LOOP, Consistent, s, es);
  }

  /** Tasks run at most once each and in the order they were queued, each in a
      batch taken after it was queued. */
  lemma RunInOrder(s: State, es: seq<Event>)
    requires Consistent(s) && Legal(LOOP, s, es)
    ensures var s' := Exec(LOOP, s, es);
            && s'.ran <= s'.queued && |s'.queuedIn| == |s'.queued| && |s'.ranIn| == |s'.ran|
            && s'.queued == s'.ran + s'.batch + s'.pending
            && forall k :: 0 <= k < |s'.ran| ==> s'.queuedIn[k] < s'.ranIn[k]
  {
    ConsistentAlways(s, es);
  }

  lemma TakesStep(s: State, x: State, e: Event)
    requires Consistent(x) && Takes(s, x) && Enabled(x, e)
    ensures Takes(s, Apply(x, e))
  {
  }

  /** Whoever waits, waits for one batch: when a further batch has been taken and
      is over, every task queued before it has run. */
  lemma NextBatchTakesAll(s: State, es: seq<Event>)
    requires Consistent(s) && Legal(LOOP, s, es)
    ensures var s' := Exec(LOOP, s, es);
            s.queued <= s'.queued && (s'.batches > s.batches && s'.pc != InBatch ==> |s'.ran| >= |s.queued|)
  {
    var inv := (x: State) => Consistent(x) && Takes(s, x);
    forall x, e | inv(x) && LOOP.enabled(x, e) ensures inv(LOOP.apply(x, e)) {
      HistoryStep(x, e);
      TakesStep(s, x, e);
    }
    Always(LOOP, inv, s, es);
  }

  predicate Takes(s: State, s': State) {
    && s.queued <= s'.queued && s.batches <= s'.batches
    && (s'.batches > s.batches ==> |s'.ran| + |s'.batch| >= |s.queued|)
  }

  // ----- the methods, each as the steps it is made of -----

  /** queueInLoop: the wakeup is written from elsewhere, and while tasks are run. */
  function QueueOne(s: State, p: Post): State {
    Enqueue(s, p.task).(eventfd := s.eventfd + (if s.calling || p.elsewhere then 1 else 0))
  }

  /** Several tasks queued in turn. */
  function QueueMany(s: State, ps: seq<Post>): State {
    if ps == [] then s else QueueOne(QueueMany(s, ps[..|ps| - 1]), ps[|ps| - 1])
  }

  /** Running several tasks in turn. */
  function RunMany(s: State, fs: seq<Functor>): State {
    if fs == [] then s else QueueMany(RunFirst(RunMany(s, fs[..|fs| - 1])), fs[|fs| - 1].queues)
  }

  function Take(s: State): State {
    s.(pc := InBatch, calling := true, batch := s.pending, pending := [], batches := s.batches + 1)
  }

  function RunPending(s: State): State {
    RunMany(Take(s), s.pending).(pc := AtTest, calling := false)
  }

  /** The steps of a post; t is a thread that has nothing else to do. */
  function PostEvents(t: Thread, p: Post): seq<Event> {
    if p.elsewhere then [Push(t, p.task), Wakeup(t)] else [LoopPush(p.task), LoopWakeup]
  }

  function QueueEvents(t: Thread, ps: seq<Post>): seq<Event> {
    if ps == [] then [] else QueueEvents(t, ps[..|ps| - 1]) + PostEvents(t, ps[|ps| - 1])
  }

  function BatchEvents(t: Thread, fs: seq<Functor>): seq<Event> {
    if fs == [] then [] else BatchEvents(t, fs[..|fs| - 1]) + ([RunNext] + QueueEvents(t, fs[|fs| - 1].queues))
  }

  function Tasks(ps: seq<Post>): seq<Functor> {
    if ps == [] then [] else Tasks(ps[..|ps| - 1]) + [ps[|ps| - 1].task]
  }

  /** The tasks that are queued while the tasks of a batch run. */
  function QueuedBy(fs: seq<Functor>): seq<Functor> {
    if fs == [] then [] else QueuedBy(fs[..|fs| - 1]) + Tasks(fs[|fs| - 1].queues)
  }

  predicate Free(s: State, t: Thread) {
    t !in s.pushers && t !in s.quitters
  }

  /** What queueing and running tasks leaves alone. */
  predicate SameElse(s: State, s': State) {
    && s'.pc == s.pc && s'.quit == s.quit && s'.calling == s.calling && s'.toRead == s.toRead
    && s'.loopOwes == s.loopOwes && s'.pushers == s.pushers && s'.quitters == s.quitters && s'.batches == s.batches
  }

  lemma {:induction false} QueueManyEffect(s: State, ps: seq<Post>)
    ensures var s' := QueueMany(s, ps);
            SameElse(s, s') && s'.pending == s.pending + Tasks(ps) && s'.batch == s.batch && s'.ran == s.ran
  {
    if ps != [] {
      QueueManyEffect(s, ps[..|ps| - 1]);
      Assoc(s.pending, Tasks(ps[..|ps| - 1]), [ps[|ps| - 1].task]);
    }
  }

  lemma {:induction false} RunManyEffect(s: State, fs: seq<Functor>, later: seq<Functor>)
    requires s.batch == fs + later
    ensures var s' := RunMany(s, fs);
            SameElse(s, s') && s'.pending == s.pending + QueuedBy(fs) && s'.batch == later && s'.ran == s.ran + fs
    decreases |fs|
  {
    if fs != [] {
      var init, last := fs[..|fs| - 1], fs[|fs| - 1];
      assert fs + later == init + ([last] + later) && init + [last] == fs;
      RunManyEffect(s, init, [last] + later);
      QueueManyEffect(RunFirst(RunMany(s, init)), last.queues);
      Assoc(s.pending, QueuedBy(init), Tasks(last.queues));
      Assoc(s.ran, init, [last]);
    }
  }

  lemma {:induction false} QueueManyAppend(s: State, ps: seq<Post>, qs: seq<Post>)
    ensures QueueMany(s, ps + qs) == QueueMany(QueueMany(s, ps), qs)
    decreases |qs|
  {
    if qs == [] {
      assert ps + qs == ps;
    } else {
      QueueManyAppend(s, ps, qs[..|qs| - 1]);
      assert (ps + qs)[..|ps + qs| - 1] == ps + qs[..|qs| - 1];
    }
  }

  lemma QueueManyNext(s: State, ps: seq<Post>, i: nat)
    requires i < |ps|
    ensures QueueMany(s, ps[..i + 1]) == QueueOne(QueueMany(s, ps[..i]), ps[i])
  {
    assert ps[..i + 1][..i] == ps[..i];
  }

  /** The next task of a batch is there to be run, and this is what running it does. */
  lemma RunManyNext(s: State, fs: seq<Functor>, i: nat)
    requires s.pc == InBatch && !s.loopOwes && s.batch == fs && i < |fs|
    ensures Enabled(RunMany(s, fs[..i]), RunNext)
    ensures RunMany(s, fs[..i + 1]) == QueueMany(RunFirst(RunMany(s, fs[..i])), fs[i].queues)
  {
    assert fs == fs[..i] + fs[i..];
    RunManyEffect(s, fs[..i], fs[i..]);
    assert fs[..i + 1][..i] == fs[..i];
  }

  lemma PostIsRun(s: State, p: Post, t: Thread)
    requires UserCode(s) && Free(s, t)
    ensures Legal(LOOP, s, PostEvents(t, p)) && QueueOne(s, p) == Exec(LOOP, s, PostEvents(t, p))
  {
    if p.elsewhere {
      Two(LOOP, s, Push(t, p.task), Wakeup(t));
      assert s.pushers + {t} - {t} == s.pushers && s.quitters - {t} == s.quitters;
    } else {
      Two(LOOP, s, LoopPush(p.task), LoopWakeup);
    }
  }

  lemma {:induction false} QueueManyIsRun(s: State, ps: seq<Post>, t: Thread)
    requires UserCode(s) && Free(s, t)
    ensures Legal(LOOP, s, QueueEvents(t, ps)) && QueueMany(s, ps) == Exec(LOOP, s, QueueEvents(t, ps))
    decreases |ps|
  {
    if ps != [] {
      var init, last := ps[..|ps| - 1], ps[|ps| - 1];
      QueueManyIsRun(s, init, t);
      QueueManyEffect(s, init);
      Compose(LOOP, s, QueueEvents(t, init), PostEvents(t, last));
      PostIsRun(QueueMany(s, init), last, t);
    }
  }

  lemma RunOneIsRun(s: State, f: Functor, t: Thread)
    requires Enabled(s, RunNext) && Free(s, t)
    ensures var es := [RunNext] + QueueEvents(t, f.queues);
            Legal(LOOP, s, es) && QueueMany(RunFirst(s), f.queues) == Exec(LOOP, s, es)
  {
    QueueManyIsRun(RunFirst(s), f.queues, t);
    Snoc(LOOP, s, [], RunNext);
    assert [] + [RunNext] == [RunNext];
    Compose(LOOP, s, [RunNext], QueueEvents(t, f.queues));
  }

  lemma {:induction false} RunManyIsRun(s: State, fs: seq<Functor>, later: seq<Functor>, t: Thread)
    requires s.pc == InBatch && !s.loopOwes && s.batch == fs + later && Free(s, t)
    ensures Legal(LOOP, s, BatchEvents(t, fs)) && RunMany(s, fs) == Exec(LOOP, s, BatchEvents(t, fs))
    decreases |fs|
  {
    if fs != [] {
      var init, last := fs[..|fs| - 1], fs[|fs| - 1];
      assert fs + later == init + ([last] + later);
      RunManyIsRun(s, init, [last] + later, t);
      RunManyEffect(s, init, [last] + later);
      Compose(LOOP, s, BatchEvents(t, init), [RunNext] + QueueEvents(t, last.queues));
      RunOneIsRun(RunMany(s, init), last, t);
    }
  }

  lemma TakeIsRun(s: State)
    requires Enabled(s, EventsDone)
    ensures Legal(LOOP, s, [EventsDone, Swap]) && Exec(LOOP, s, [EventsDone, Swap]) == Take(s)
  {
    Two(LOOP, s, EventsDone, Swap);
  }

  function PendingEvents(t: Thread, fs: seq<Functor>): seq<Event> {
    [EventsDone, Swap] + BatchEvents(t, fs) + [BatchDone]
  }

  lemma RunPendingIsRun(s: State, t: Thread)
    requires Enabled(s, EventsDone) && Free(s, t)
    ensures Legal(LOOP, s, PendingEvents(t, s.pending)) && RunPending(s) == Exec(LOOP, s, PendingEvents(t, s.pending))
  {
    TakeIsRun(s);
    assert s.pending + [] == s.pending;
    RunManyEffect(Take(s), s.pending, []);
    RunManyIsRun(Take(s), s.pending, [], t);
    Compose(LOOP, s, [EventsDone, Swap], BatchEvents(t, s.pending));
    Snoc(LOOP, s, [EventsDone, Swap] + BatchEvents(t, s.pending), BatchDone);
  }

  /** doPendingFunctors: every task that waited runs, and what waits afterwards is
      what was queued meanwhile, in order. */
  lemma RunPendingEffect(s: State)
    ensures var s' := RunPending(s);
            && s'.ran == s.ran + s.pending && s'.pending == QueuedBy(s.pending) && s'.batch == []
            && s'.pc == AtTest && s'.quit == s.quit && s'.loopOwes == s.loopOwes && s'.batches == s.batches + 1
            && s'.pushers == s.pushers && s'.quitters == s.quitters
  {
    assert s.pending + [] == s.pending;
    RunManyEffect(Take(s), s.pending, []);
  }

  // ----- loop() -----

  datatype Quits = Stays | QuitsHere | QuitsElsewhere

  /** What one turn of the loop meets. poll reports the wakeup channel or not (if its
      eventfd is readable), and other channels before and behind it; for each of these,
      in their order, what is queued while its handler runs. And who quits. */
  datatype Turn = Turn(before: seq<seq<Post>>, reported: bool, after: seq<seq<Post>>, quits: Quits)

  function Polled(s: State, reported: bool): State {
    s.(pc := InEvents, toRead := reported)
  }

  /** The wakeup channel's turn, if it was reported. */
  function WakeupHandled(s: State): State {
    if s.toRead then s.(eventfd := 0, toRead := false) else s
  }

  function AfterQuit(s: State, q: Quits): State {
    s.(quit := s.quit || q != Stays, eventfd := s.eventfd + (if q == QuitsElsewhere then 1 else 0))
  }

  function ChannelsHandled(s: State, turn: Turn): State {
    QueueMany(WakeupHandled(QueueMany(s, Flatten(turn.before))), Flatten(turn.after))
  }

  function EventsHandled(s: State, turn: Turn): State {
    AfterQuit(ChannelsHandled(Polled(s, turn.reported && s.eventfd > 0), turn), turn.quits)
  }

  /** The loop, through these turns or until quit_ is seen. */
  function Turns(s: State, turns: seq<Turn>): State
    decreases |turns|
  {
    if s.quit then s.(pc := Exited)
    else if turns == [] then s
    else Turns(RunPending(EventsHandled(s, turns[0])), turns[1..])
  }

  lemma TurnsNext(s: State, turns: seq<Turn>, i: nat)
    requires !s.quit && i < |turns|
    ensures Turns(s, turns[i..]) == Turns(RunPending(EventsHandled(s, turns[i])), turns[i + 1..])
  {
    assert turns[i..][1..] == turns[i + 1..];
  }

  lemma TurnsOver(s: State, turns: seq<Turn>)
    requires s.quit || turns == []
    ensures Turns(s, turns) == if s.quit then s.(pc := Exited) else s
  {
  }

  lemma PolledIsRun(s: State, reported: bool) returns (es: seq<Event>)
    requires s.pc == AtTest && !s.quit && (reported ==> s.eventfd > 0)
    ensures Legal(LOOP, s, es) && Exec(LOOP, s, es) == Polled(s, reported)
  {
    Two(LOOP, s, Test, PollReturns(reported));
    es := [Test, PollReturns(reported)];
  }

  lemma WakeupIsRun(s: State) returns (es: seq<Event>)
    requires s.pc == InEvents && !s.loopOwes
    ensures Legal(LOOP, s, es) && Exec(LOOP, s, es) == WakeupHandled(s)
  {
    es := [];
    if s.toRead {
      Snoc(LOOP, s, [], HandleRead);
      es := [] + [HandleRead];
    }
  }

  lemma ChannelsAreRun(s: State, turn: Turn, t: Thread) returns (es: seq<Event>)
    requires s.pc == InEvents && !s.loopOwes && Free(s, t)
    ensures Legal(LOOP, s, es) && Exec(LOOP, s, es) == ChannelsHandled(s, turn)
    ensures var s' := ChannelsHandled(s, turn);
            && s'.pc == InEvents && !s'.loopOwes && !s'.toRead && Free(s', t)
            && s'.quit == s.quit && s'.batches == s.batches
  {
    var before, after := Flatten(turn.before), Flatten(turn.after);
    var s1 := QueueMany(s, before);
    QueueManyIsRun(s, before, t);
    QueueManyEffect(s, before);
    var fs := WakeupIsRun(s1);
    QueueManyIsRun(WakeupHandled(s1), after, t);
    QueueManyEffect(WakeupHandled(s1), after);
    Compose(LOOP, s, QueueEvents(t, before), fs);
    Compose(LOOP, s, QueueEvents(t, before) + fs, QueueEvents(t, after));
    es := QueueEvents(t, before) + fs + QueueEvents(t, after);
  }

  lemma QuitIsRun(s: State, q: Quits, t: Thread) returns (es: seq<Event>)
    requires UserCode(s) && Free(s, t)
    ensures Legal(LOOP, s, es) && Exec(LOOP, s, es) == AfterQuit(s, q)
  {
    match q
    case Stays => es := [];
    case QuitsHere =>
      Snoc(LOOP, s, [], LoopQuit);
      es := [] + [LoopQuit];
    case QuitsElsewhere =>
      Two(LOOP, s, Quit(t), Wakeup(t));
      assert s.quitters + {t} - {t} == s.quitters && s.pushers - {t} == s.pushers;
      es := [Quit(t), Wakeup(t)];
  }

  lemma EventsAreRun(s: State, turn: Turn, t: Thread) returns (es: seq<Event>)
    requires s.pc == AtTest && !s.quit && !s.loopOwes && Free(s, t)
    ensures Legal(LOOP, s, es) && Exec(LOOP, s, es) == EventsHandled(s, turn)
    ensures Enabled(EventsHandled(s, turn), EventsDone) && Free(EventsHandled(s, turn), t)
    ensures EventsHandled(s, turn).batches == s.batches
  {
    var s1 := Polled(s, turn.reported && s.eventfd > 0);
    es := PolledIsRun(s, turn.reported && s.eventfd > 0);
    var fs := ChannelsAreRun(s1, turn, t);
    Compose(LOOP, s, es, fs);
    var gs := QuitIsRun(ChannelsHandled(s1, turn), turn.quits, t);
    Compose(LOOP, s, es + fs, gs);
    es := es + fs + gs;
  }

  lemma TurnIsRun(s: State, turn: Turn, t: Thread) returns (es: seq<Event>)
    requires s.pc == AtTest && !s.quit && !s.loopOwes && Free(s, t)
    ensures var s' := RunPending(EventsHandled(s, turn));
            Legal(LOOP, s, es) && Exec(LOOP, s, es) == s' && s'.pc == AtTest && !s'.loopOwes && Free(s', t)
  {
    var s1 := EventsHandled(s, turn);
    es := EventsAreRun(s, turn, t);
    RunPendingIsRun(s1, t);
    RunPendingEffect(s1);
    Compose(LOOP, s, es, PendingEvents(t, s1.pending));
    es := es + PendingEvents(t, s1.pending);
  }

  /** So it is a run, and everything proved of runs holds of it. */
  lemma {:induction false} TurnsAreRun(s: State, turns: seq<Turn>, t: Thread) returns (es: seq<Event>)
    requires s.pc == AtTest && !s.loopOwes && Free(s, t)
    ensures Legal(LOOP, s, es) && Exec(LOOP, s, es) == Turns(s, turns)
    decreases |turns|
  {
    if s.quit {
      Snoc(LOOP, s, [], Test);
      es := [] + [Test];
    } else if turns == [] {
      es := [];
    } else {
      es := TurnIsRun(s, turns[0], t);
      var fs := TurnsAreRun(RunPending(EventsHandled(s, turns[0])), turns[1..], t);
      Compose(LOOP, s, es, fs);
      es := es + fs;
    }
  }

  lemma {:induction false} EveryTurnTakesBatch(s: State, turns: seq<Turn>)
    requires s.pc == AtTest && !s.loopOwes
    ensures Turns(s, turns).batches >= s.batches + (if s.quit || turns == [] then 0 else 1)
    ensures Turns(s, turns).pc == AtTest || Turns(s, turns).pc == Exited
    decreases |turns|
  {
    if !s.quit && turns != [] {
      var s1 := EventsHandled(s, turns[0]);
      var t := SomeoneFree(s);
      var es := EventsAreRun(s, turns[0], t);
      RunPendingEffect(s1);
      EveryTurnTakesBatch(RunPending(s1), turns[1..]);
    }
  }

  /** Only so many threads are in the middle of something. */
  lemma {:induction false} Bounded(ts: set<Thread>) returns (n: nat)
    ensures forall t :: t in ts ==> t < n
    decreases |ts|
  {
    if ts == {} {
      n := 0;
    } else {
      var t :| t in ts;
      var m := Bounded(ts - {t});
      assert forall u :: u in ts ==> u == t || u in ts - {t};
      n := if m <= t then t + 1 else m;
    }
  }

  lemma SomeoneFree(s: State) returns (t: Thread)
    ensures Free(s, t)
  {
    var m := Bounded(s.pushers);
    var n := Bounded(s.quitters);
    t := if m < n then n else m;
  }

  /** One turn is enough: whatever was queued before it, by whom ever, has run when
      it is over, also if the loop quits in it. */
  lemma OneTurnRunsAll(s: State, turns: seq<Turn>)
    requires Entering(s) && turns != []
    ensures |Turns(s, turns).ran| >= |s.queued| && s.queued <= Turns(s, turns).queued
  {
    var t := SomeoneFree(s);
    var es := TurnsAreRun(s, turns, t);
    EveryTurnTakesBatch(s, turns);
    NextBatchTakesAll(s, es);
  }

  /** Not in loop(): it has not been called, or has returned. */
  predicate OutsideLoop(s: State) {
    (s.pc == AtTest || s.pc == Exited) && !s.calling && !s.loopOwes
  }

  class EventLoop {
    var quit: bool
    var callingPendingFunctors: bool
    var pendingFunctors: seq<Functor>
    var wakeupFd: nat
    ghost var rest: State   // the loop thread's position, the other threads, the history

    ghost function Model(): State
      reads this
    {
      rest.(quit := quit, calling := callingPendingFunctors, pending := pendingFunctors, eventfd := wakeupFd)
    }

    constructor ()
      ensures Entering(Model()) && Woken(Model()) && Inv(Model())
    {
      quit, callingPendingFunctors, pendingFunctors, wakeupFd := false, false, [], 0;
      rest := State(AtTest, false, false, [], [], 0, false, false, {}, {}, 0, [], [], [], []);
    }

    method HandleRead()
      requires Enabled(Model(), Event.HandleRead)
      modifies this
      ensures Model() == Apply(old(Model()), Event.HandleRead)
    {
      wakeupFd := 0;
      rest := rest.(toRead := false);
    }

    /** From another thread, without another step in between. */
    method QueueInLoop(ghost t: Thread, cb: Functor)
      requires Enabled(Model(), Push(t, cb))
      modifies this
      ensures Legal(LOOP, old(Model()), [Push(t, cb), Wakeup(t)])
      ensures Model() == Exec(LOOP, old(Model()), [Push(t, cb), Wakeup(t)])
      ensures Model() == QueueOne(old(Model()), Post(cb, true))
    {
      Two(LOOP, Model(), Push(t, cb), Wakeup(t));
      rest := Enqueue(Model(), cb);
      pendingFunctors := pendingFunctors + [cb];
      wakeupFd := wakeupFd + 1;
      assert Model().pushers == old(Model()).pushers + {t} - {t};
      assert Model().quitters == old(Model()).quitters - {t};
    }

    /** From the loop thread, in a callback or outside of loop(): the eventfd is
        written only while tasks are being run. */
    method QueueInOwnLoop(cb: Functor)
      requires UserCode(Model()) || OutsideLoop(Model())
      modifies this
      ensures Model() == QueueOne(old(Model()), Post(cb, false))
    {
      rest := Enqueue(Model(), cb);
      pendingFunctors := pendingFunctors + [cb];
      if callingPendingFunctors {
        wakeupFd := wakeupFd + 1;
      }
    }

    method QuitFrom(ghost t: Thread)
      requires Enabled(Model(), Quit(t))
      modifies this
      ensures Legal(LOOP, old(Model()), [Quit(t), Wakeup(t)])
      ensures Model() == Exec(LOOP, old(Model()), [Quit(t), Wakeup(t)])
      ensures Model() == AfterQuit(old(Model()), QuitsElsewhere)
    {
      Two(LOOP, Model(), Quit(t), Wakeup(t));
      quit := true;
      wakeupFd := wakeupFd + 1;
      assert Model().quitters == old(Model()).quitters + {t} - {t};
      assert Model().pushers == old(Model()).pushers - {t};
    }

    /** What is queued while a callback runs, by it and by other threads. */
    method QueueAll(ps: seq<Post>)
      requires UserCode(Model())
      modifies this
      ensures Model() == QueueMany(old(Model()), ps)
    {
      ghost var s := Model();
      for i := 0 to |ps|
        invariant Model() == QueueMany(s, ps[..i])
      {
        QueueManyEffect(s, ps[..i]);
        QueueManyNext(s, ps, i);
        if ps[i].elsewhere {
          ghost var t := SomeoneFree(Model());
          QueueInLoop(t, ps[i].task);
        } else {
          QueueInOwnLoop(ps[i].task);
        }
      }
      assert ps[..|ps|] == ps;
    }

    /** One task of the batch. */
    method RunFunctor(functor: Functor)
      requires Enabled(Model(), RunNext)
      modifies this
      ensures Model() == QueueMany(RunFirst(old(Model())), functor.queues)
    {
      rest := RunFirst(Model());
      QueueAll(functor.queues);
    }

    method DoPendingFunctors()
      requires Enabled(Model(), EventsDone)
      modifies this
      ensures Model() == RunPending(old(Model()))
    {
      callingPendingFunctors := true;
      var functors := pendingFunctors;
      pendingFunctors := [];
      rest := rest.(pc := InBatch, batch := functors, batches := rest.batches + 1);
      ghost var taken := Model();
      for i := 0 to |functors|
        invariant Model() == RunMany(taken, functors[..i])
      {
        RunManyNext(taken, functors, i);
        RunFunctor(functors[i]);
      }
      assert functors[..|functors|] == functors;
      callingPendingFunctors := false;
      rest := rest.(pc := AtTest);
    }

    /** The handlers of some active channels, one after the other. */
    method HandleChannels(handlers: seq<seq<Post>>)
      requires UserCode(Model())
      modifies this
      ensures Model() == QueueMany(old(Model()), Flatten(handlers))
    {
      ghost var s := Model();
      for i := 0 to |handlers|
        invariant Model() == QueueMany(s, Flatten(handlers[..i]))
      {
        QueueManyEffect(s, Flatten(handlers[..i]));
        QueueManyAppend(s, Flatten(handlers[..i]), handlers[i]);
        QueueAll(handlers[i]);
        assert handlers[..i + 1] == handlers[..i] + [handlers[i]];
        FlattenSnoc(handlers[..i], handlers[i]);
      }
      assert handlers[..|handlers|] == handlers;
    }

    /** The loop over the active channels. */
    method HandleActive(turn: Turn, readable: bool)
      requires Model().pc == InEvents && !Model().loopOwes && readable == Model().toRead
      modifies this
      ensures Model() == ChannelsHandled(old(Model()), turn)
    {
      QueueManyEffect(Model(), Flatten(turn.before));
      HandleChannels(turn.before);
      if readable {
        HandleRead();
      }
      HandleChannels(turn.after);
    }

    /** The body of loop() up to doPendingFunctors. */
    method HandleEvents(turn: Turn)
      requires Model().pc == AtTest && !Model().loopOwes && !quit
      modifies this
      ensures Model() == EventsHandled(old(Model()), turn)
    {
      ghost var t := SomeoneFree(Model());
      var readable := turn.reported && wakeupFd > 0;
      ghost var es := ChannelsAreRun(Polled(Model(), readable), turn, t);
      rest := rest.(pc := InEvents, toRead := readable);
      HandleActive(turn, readable);
      if turn.quits == QuitsHere {
        quit := true;
      } else if turn.quits == QuitsElsewhere {
        QuitFrom(t);
      }
    }

    /** The body of loop(). */
    method RunTurn(turn: Turn)
      requires Model().pc == AtTest && !Model().loopOwes && !quit
      modifies this
      ensures Model() == RunPending(EventsHandled(old(Model()), turn))
      ensures Model().pc == AtTest && !Model().loopOwes
    {
      ghost var t := SomeoneFree(Model());
      ghost var es := EventsAreRun(Model(), turn, t);
      HandleEvents(turn);
      RunPendingEffect(Model());
      DoPendingFunctors();
    }

    method NextTurn(turns: seq<Turn>, i: nat, ghost end: State)
      requires Model().pc == AtTest && !Model().loopOwes && !quit
      requires i < |turns| && Turns(Model(), turns[i..]) == end
      modifies this
      ensures Model().pc == AtTest && !Model().loopOwes && Turns(Model(), turns[i + 1..]) == end
    {
      TurnsNext(Model(), turns, i);
      RunTurn(turns[i]);
    }

    method RunTurns(turns: seq<Turn>, ghost end: State) returns (i: nat)
      requires Model().pc == AtTest && !Model().loopOwes && Turns(Model(), turns) == end
      modifies this
      ensures i <= |turns| && Turns(Model(), turns[i..]) == end && (quit || i == |turns|)
    {
      i := 0;
      assert turns[0..] == turns;
      while !quit && i < |turns|
        invariant 0 <= i <= |turns| && Model().pc == AtTest && !Model().loopOwes
        invariant Turns(Model(), turns[i..]) == end
      {
        NextTurn(turns, i, end);
        i := i + 1;
      }
    }

    /** quit_ is cleared first: a quit() from before loop() is forgotten. */
    method LoopThrough(turns: seq<Turn>)
      requires OutsideLoop(Model())
      modifies this
      ensures Model() == Turns(old(Model()).(pc := AtTest, quit := false), turns)
    {
      quit := false;
      rest := rest.(pc := AtTest);
      var i := RunTurns(turns, Turns(Model(), turns));
      TurnsOver(Model(), turns[i..]);
      if quit {
        rest := rest.(pc := Exited);
      }
    }
  }
}
