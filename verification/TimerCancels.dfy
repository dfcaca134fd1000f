/** net/TimerQueue.cc: when cancelling a timer keeps it from ever running again. */
module TimerCancels {
  import opened Machines
  import opened TimerLists
  import opened TimerQueues

  /** The batch that starts now has the timer with this sequence number. */
  predicate FiresNow(q: Queue, n: nat) {
    exists e :: e in Fire(q).batch.entries && e.timer in q.core.heap && q.core.heap[e.timer].sequence == n
  }

  /** No batch that starts in any run from here has it. */
  ghost predicate NeverFires(q: Queue, n: nat) {
    forall es :: Legal(TIMERS, q, es) && Enabled(Exec(TIMERS, q, es), Alarms) ==> !FiresNow(Exec(TIMERS, q, es), n)
  }

  /** The timer is one that cancelInLoop can find: in the sets, or in the batch under way. */
  predicate InQueue(q: Queue, id: TimerId) {
    id in q.core.active || (q.phase.Calling? && Running(q, id))
  }

  /** What cancelling does: an active timer leaves both sets and is freed; any other id
      is remembered while callbacks run, and forgotten otherwise. */
  lemma CancelExactly(q: Queue, id: TimerId)
    requires Inv(q)
    ensures var q' := CancelInLoop(q, id);
            if id in q.core.active then
              && id.0 in q.core.heap && q'.core.heap == q.core.heap - {id.0} && q'.core.active == q.core.active - {id}
              && (forall e :: e in q'.core.timers <==>
                    e in q.core.timers && e != Entry(q.core.heap[id.0].expiration, id.0))
              && q'.hist.freed == q.hist.freed + [id.1] && q'.batch == q.batch
            else
              && q'.core == q.core && q'.hist.freed == q.hist.freed
              && q'.batch == if q.phase.Calling? then q.batch.(canceling := q.batch.canceling + {id}) else q.batch
  {
    if id in q.core.active {
      RemovedEntries(q.core.timers, Entry(q.core.heap[id.0].expiration, id.0));
    }
  }

  // ----- a timer in the queue -----

  lemma CancelledStays(q: Queue, e: Event, n: nat)
    requires n in q.hist.cancelled
    ensures n in Apply(q, e).hist.cancelled
  {
  }

  lemma CancelledDoesNotFire(q: Queue, n: nat)
    requires Inv(q) && q.phase.Idle? && n in q.hist.cancelled
    ensures !FiresNow(q, n)
  {
    assert Addrs(q.batch.entries) == {};
  }

  lemma {:induction false} CancelledAlways(q: Queue, n: nat, es: seq<Event>)
    requires n in q.hist.cancelled
    ensures n in Exec(TIMERS, q, es).hist.cancelled
    decreases |es|
  {
    if es != [] {
      CancelledAlways(q, n, es[..|es| - 1]);
      CancelledStays(Exec(TIMERS, q, es[..|es| - 1]), es[|es| - 1], n);
    }
  }

  lemma CancelledRun(q: Queue, n: nat, es: seq<Event>)
    requires Inv(q) && n in q.hist.cancelled
    ensures Legal(TIMERS, q, es) && Enabled(Exec(TIMERS, q, es), Alarms) ==> !FiresNow(Exec(TIMERS, q, es), n)
  {
    if Legal(TIMERS, q, es) && Enabled(Exec(TIMERS, q, es), Alarms) {
      InvAlways(q, es);
      CancelledAlways(q, n, es);
      CancelledDoesNotFire(Exec(TIMERS, q, es), n);
    }
  }

  lemma CancelledNeverFires(q: Queue, n: nat)
    requires Inv(q) && n in q.hist.cancelled
    ensures NeverFires(q, n)
  {
    forall es | Legal(TIMERS, q, es) && Enabled(Exec(TIMERS, q, es), Alarms) ensures !FiresNow(Exec(TIMERS, q, es), n) {
      CancelledRun(q, n, es);
    }
  }

  // ----- a timer on its way there -----

  /** Allocated by addTimer in another thread and not yet inserted. */
  predicate OnItsWay(q: Queue, id: TimerId) {
    id.0 in q.waiting && Allocated(q, id)
  }

  /** The way out of the batch under way. */
  function NextStep(q: Queue): Event {
    match q.phase
    case Idle => Tick(q.clock)
    case Calling(next) => if next < |q.batch.entries| then Run else RunsDone
    case Resetting => if q.batch.entries != [] then Reset else ResetDone
  }

  function StepsLeft(q: Queue): nat {
    match q.phase
    case Idle => 0
    case Calling(next) => 2 + |q.batch.entries| + (if next < |q.batch.entries| then |q.batch.entries| - next else 0)
    case Resetting => 1 + |q.batch.entries|
  }

  /** Runs one after the other; the position does not pass the end. */
  predicate InBounds(q: Queue) {
    q.phase.Calling? ==> q.phase.next <= |q.batch.entries|
  }

  lemma ResetSpares(q: Queue, id: TimerId)
    requires Inv(q) && OnItsWay(q, id) && q.batch.entries != []
    ensures OnItsWay(ResetNext(q), id)
  {
    assert q.batch.entries[0].timer in Addrs(q.batch.entries);
  }

  lemma StepOut(q: Queue, id: TimerId)
    requires Inv(q) && InBounds(q) && OnItsWay(q, id) && !q.phase.Idle?
    ensures Enabled(q, NextStep(q))
    ensures var q' := Apply(q, NextStep(q)); InBounds(q') && OnItsWay(q', id) && StepsLeft(q') < StepsLeft(q)
  {
    if q.phase.Resetting? && q.batch.entries != [] {
      ResetSpares(q, id);
      ResetFrame(q);
    }
  }

  lemma {:induction false} BatchEnds(q: Queue, id: TimerId) returns (es: seq<Event>)
    requires Inv(q) && InBounds(q) && OnItsWay(q, id)
    ensures Legal(TIMERS, q, es)
    ensures var x := Exec(TIMERS, q, es); Inv(x) && x.phase.Idle? && OnItsWay(x, id)
    decreases StepsLeft(q)
  {
    es := [];
    if !q.phase.Idle? {
      var e := NextStep(q);
      StepOut(q, id);
      StepKeepsInv(q, e);
      Snoc(TIMERS, q, [], e);
      var fs := BatchEnds(Apply(q, e), id);
      Compose(TIMERS, q, [] + [e], fs);
      es := ([] + [e]) + fs;
    }
  }

  /** Inserted by now, it fires when its time and the alarm have come. */
  lemma ActiveFires(q: Queue, id: TimerId, now: int)
    requires Inv(q) && q.phase.Idle? && id in q.core.active
    requires now >= q.clock && now >= q.core.heap[id.0].expiration
    requires q.alarm.deadline.Some? && now >= q.alarm.deadline.value
    ensures Enabled(q, Tick(now)) && Enabled(Apply(q, Tick(now)), Alarms) && FiresNow(Apply(q, Tick(now)), id.1)
  {
    var e := Entry(q.core.heap[id.0].expiration, id.0);
    var i :| 0 <= i < |q.core.timers| && q.core.timers[i] == e;
    DueSplits(q.core.timers, now);
    assert e in q.core.timers[..Due(q.core.timers, now)];
  }

  lemma InsertedIsActive(q: Queue, id: TimerId)
    requires Inv(q) && q.phase.Idle? && OnItsWay(q, id)
    ensures var x := Apply(q, AddQueued(id.0));
            && Inv(x) && x.phase.Idle? && id in x.core.active && x.core.heap == q.core.heap
            && x.alarm.deadline.Some?
  {
    StepKeepsInv(q, AddQueued(id.0));
    InsertKeepsIndex(q.core, id.0);
  }

  /** When it is certain to be due, and the alarm with it. */
  lemma TimeComes(q: Queue, id: TimerId) returns (now: int)
    requires Inv(q) && q.phase.Idle? && id in q.core.active
    ensures Enabled(q, Tick(now)) && Enabled(Apply(q, Tick(now)), Alarms) && FiresNow(Apply(q, Tick(now)), id.1)
  {
    now := Max(q.clock, Max(q.alarm.deadline.value, q.core.heap[id.0].expiration));
    ActiveFires(q, id, now);
  }

  lemma WaitingFires(q: Queue, id: TimerId) returns (es: seq<Event>)
    requires Inv(q) && q.phase.Idle? && OnItsWay(q, id)
    ensures Legal(TIMERS, q, es) && Enabled(Exec(TIMERS, q, es), Alarms) && FiresNow(Exec(TIMERS, q, es), id.1)
  {
    InsertedIsActive(q, id);
    var now := TimeComes(Apply(q, AddQueued(id.0)), id);
    TwoSteps(q, AddQueued(id.0), Tick(now), id.1);
    es := [AddQueued(id.0), Tick(now)];
  }

  lemma TwoSteps(q: Queue, d: Event, e: Event, n: nat)
    requires Enabled(q, d) && Enabled(Apply(q, d), e)
    requires Enabled(Apply(Apply(q, d), e), Alarms) && FiresNow(Apply(Apply(q, d), e), n)
    ensures Legal(TIMERS, q, [d, e]) && Enabled(Exec(TIMERS, q, [d, e]), Alarms) && FiresNow(Exec(TIMERS, q, [d, e]), n)
  {
    Two(TIMERS, q, d, e);
    assert Exec(TIMERS, q, [d, e]) == Apply(Apply(q, d), e);
  }

  lemma OnItsWayFires(q: Queue, id: TimerId)
    requires Inv(q) && InBounds(q) && OnItsWay(q, id)
    ensures !NeverFires(q, id.1)
  {
    var es := BatchEnds(q, id);
    var fs := WaitingFires(Exec(TIMERS, q, es), id);
    Compose(TIMERS, q, es, fs);
    assert FiresNow(Exec(TIMERS, q, es + fs), id.1);
  }

  // ----- both -----

  lemma CancelMarks(q: Queue, id: TimerId)
    requires Inv(q) && InQueue(q, id)
    ensures id.1 in CancelInLoop(q, id).hist.cancelled
  {
  }

  lemma WhereItIs(q: Queue, id: TimerId)
    requires Inv(q) && !q.phase.Resetting? && Allocated(q, id) && !InQueue(q, id)
    ensures OnItsWay(q, id) && OnItsWay(CancelInLoop(q, id), id)
  {
  }

  /** Cancelling a timer keeps it out of every batch that starts in any later run, if
      and only if it is in the queue or in the batch under way. One that another
      thread has created and the loop has not yet inserted is not found, and fires. */
  lemma CancelIsFinal(q: Queue, id: TimerId)
    requires Inv(q) && InBounds(q) && !q.phase.Resetting? && Allocated(q, id)
    ensures NeverFires(CancelInLoop(q, id), id.1) <==> InQueue(q, id)
  {
    CancelKeepsInv(q, id);
    if InQueue(q, id) {
      CancelMarks(q, id);
      CancelledNeverFires(CancelInLoop(q, id), id.1);
    } else {
      WhereItIs(q, id);
      OnItsWayFires(CancelInLoop(q, id), id);
    }
  }

  lemma BoundsStep(q: Queue, e: Event)
    requires InBounds(q) && Enabled(q, e)
    ensures InBounds(Apply(q, e))
  {
  }

  /** Its premises hold in every run. */
  lemma {:induction false} BoundsAlways(clock: int, es: seq<Event>)
    requires clock > 0 && Legal(TIMERS, Fresh(clock), es)
    ensures Inv(Exec(TIMERS, Fresh(clock), es)) && InBounds(Exec(TIMERS, Fresh(clock), es))
    decreases |es|
  {
    Reachable(clock, es);
    if es != [] {
      BoundsAlways(clock, es[..|es| - 1]);
      BoundsStep(Exec(TIMERS, Fresh(clock), es[..|es| - 1]), es[|es| - 1]);
    }
  }
}
