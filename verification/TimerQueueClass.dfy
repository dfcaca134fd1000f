/** net/TimerQueue.cc as the class it is, method by method against the functions of
    TimerQueues, over whose runs the properties are stated. The memory the timers
    live in is a field; the clock reading is an argument where the source takes one. */
module TimerQueueClass {
  import opened Machines
  import opened Options
  import opened TimerLists
  import opened TimerQueues
  import opened TimerBatches
  import Spec = TimerQueues

  /** The relative time given to timerfd_settime: at least 100 microseconds. */
  method HowMuchTimeFromNow(when: int, now: int) returns (sec: int, nsec: int)
    ensures sec * 1_000_000_000 + nsec == 1000 * Max(when - now, 100)
    ensures 0 <= sec && 0 <= nsec < 1_000_000_000
  {
    var microseconds := when - now;
    if microseconds < 100 {
      microseconds := 100;
    }
    sec := microseconds / 1_000_000;
    nsec := microseconds % 1_000_000 * 1000;
  }

  lemma {:induction false} DueFrom(ts: seq<Entry>, now: int, k: nat)
    requires k <= |ts|
    requires forall i :: 0 <= i < k ==> Less(ts[i], Entry(now, MAX_ADDR))
    ensures Due(ts, now) == k + Due(ts[k..], now)
  {
    if k == 0 {
      assert ts[0..] == ts;
    } else {
      DueFrom(ts[1..], now, k - 1);
      assert ts[1..][k - 1..] == ts[k..];
    }
  }

  lemma DueActive(c: Core, k: nat)
    requires Index(c) && k <= |c.timers|
    ensures forall e :: e in c.timers[..k] ==> IsActive(c, e.timer)
    ensures forall i, j :: 0 <= i < j < k ==> c.timers[i].timer != c.timers[j].timer
  {
  }

  /** std::set::lower_bound. */
  method LowerBound(ts: seq<Entry>, sentry: Entry) returns (end: nat)
    ensures end <= |ts| && (end < |ts| ==> !Less(ts[end], sentry))
    ensures forall i :: 0 <= i < end ==> Less(ts[i], sentry)
  {
    end := 0;
    while end < |ts| && Less(ts[end], sentry)
      invariant end <= |ts|
      invariant forall i :: 0 <= i < end ==> Less(ts[i], sentry)
    {
      end := end + 1;
    }
  }

  class TimerQueue {
    var heap: map<Addr, Timer>
    var timers: seq<Entry>
    var activeTimers: set<TimerId>
    var callingExpiredTimers: bool
    var cancelingTimers: set<TimerId>
    var numCreated: nat   // Timer::s_numCreated_
    ghost var rest: Queue   // where the loop thread is, the clock, the alarm, the history

    ghost function Model(): Queue
      reads this
    {
      rest.(core := Core(heap, timers, activeTimers, false), batch := rest.batch.(canceling := cancelingTimers),
            hist := rest.hist.(created := numCreated))
    }

    ghost predicate Valid()
      reads this
    {
      Inv(Model()) && (callingExpiredTimers <==> rest.phase.Calling?)
    }

    constructor (clock: int)
      requires clock > 0
      ensures Model() == Fresh(clock) && Valid()
    {
      callingExpiredTimers, numCreated := false, 0;
      heap, timers, activeTimers, cancelingTimers := map[], [], {}, {};
      rest := Fresh(clock);
    }

    method ResetTimerfd(expiration: int, now: int)
      requires now == rest.clock
      modifies this`rest
      ensures Model() == Arm(old(Model()), expiration)
    {
      var sec, nsec := HowMuchTimeFromNow(expiration, now);
      rest := rest.(alarm := Alarm(Some(now + (sec * 1_000_000_000 + nsec) / 1000), now));
    }

    method Insert(timer: Addr) returns (earliestChanged: bool)
      requires Index(Model().core) && timer in heap && !IsActive(Model().core, timer)
      modifies this`timers, this`activeTimers
      ensures Model() == old(Model()).(core := Spec.Insert(old(Model()).core, timer))
      ensures earliestChanged == EarliestChanged(old(Model()).core, timer)
    {
      ghost var c := Model().core;
      InsertKeepsIndex(c, timer);
      earliestChanged := false;
      var when := heap[timer].expiration;
      if |timers| == 0 || when < timers[0].when {
        earliestChanged := true;
      }
      assert Entry(when, timer) !in timers;
      timers := Inserted(timers, Entry(when, timer));
      assert (timer, heap[timer].sequence) !in activeTimers;
      activeTimers := activeTimers + {(timer, heap[timer].sequence)};
    }

    /** A timer that is just changing hands is inserted. */
    method AddTimerInLoop(timer: Addr, now: int)
      requires Sound(Model(), {timer}) && AlarmSet(Model()) && timer in heap && now == rest.clock
      requires heap[timer].sequence !in rest.hist.cancelled && DueLater(rest.hist.last, heap[timer])
      requires callingExpiredTimers <==> rest.phase.Calling?
      modifies this`timers, this`activeTimers, this`rest
      ensures Model() == Spec.AddTimerInLoop(old(Model()), timer) && Valid()
      ensures IsActive(Model().core, timer)
    {
      AddKeepsInv(Model(), timer);
      InsertKeepsIndex(Model().core, timer);
      var earliestChanged := Insert(timer);
      if earliestChanged {
        ResetTimerfd(heap[timer].expiration, now);
      }
    }

    /** addTimer in the loop thread: the timer is created at an address not in use,
        with the next sequence number, and inserted at once. */
    method AddTimer(timer: Addr, when: int, interval: real, now: int)
      requires Valid() && Enabled(Model(), Event.AddTimer(timer, when, interval)) && now == rest.clock
      modifies this
      ensures Model() == Apply(old(Model()), Event.AddTimer(timer, when, interval)) && Valid()
      ensures IsActive(Model().core, timer)
    {
      CreateTimer(timer, when, interval);
      AddTimerInLoop(timer, now);
    }

    method CreateTimer(timer: Addr, when: int, interval: real)
      requires Valid() && timer !in heap && timer < MAX_ADDR
      modifies this`heap, this`numCreated
      ensures Model() == Create(old(Model()), timer, when, interval) && Sound(Model(), {timer}) && AlarmSet(Model())
      ensures heap[timer].sequence !in rest.hist.cancelled && DueLater(rest.hist.last, heap[timer])
      ensures callingExpiredTimers <==> rest.phase.Calling?
    {
      CreateKeepsSound(Model(), timer, when, interval);
      numCreated := numCreated + 1;
      heap := heap[timer := Timer(when, interval, numCreated)];
    }

    /** What another thread's addTimer has queued. */
    method AddQueued(timer: Addr, now: int)
      requires Valid() && Enabled(Model(), Event.AddQueued(timer)) && now == rest.clock
      modifies this
      ensures Model() == Apply(old(Model()), Event.AddQueued(timer)) && Valid()
      ensures IsActive(Model().core, timer)
    {
      UnwaitKeepsSound(Model(), timer);
      rest := rest.(waiting := rest.waiting - {timer});
      AddTimerInLoop(timer, now);
    }

    method CancelInLoop(timerId: TimerId)
      requires Valid()
      modifies this
      ensures Model() == Spec.CancelInLoop(old(Model()), timerId) && Valid()
    {
      ghost var q := Model();
      CancelKeepsInv(q, timerId);
      if timerId in activeTimers {
        var e := Entry(heap[timerId.0].expiration, timerId.0);
        assert e in timers;
        timers := Removed(timers, e);
        rest := rest.(hist := rest.hist.(freed := rest.hist.freed + [heap[timerId.0].sequence],
                                         cancelled := rest.hist.cancelled + {timerId.1}));
        heap := heap - {timerId.0};
        activeTimers := activeTimers - {timerId};
      } else if callingExpiredTimers {
        if Running(q, timerId) {
          rest := rest.(hist := rest.hist.(cancelled := rest.hist.cancelled + {timerId.1}));
        }
        cancelingTimers := cancelingTimers + {timerId};
      }
    }

    /** activeTimers_ without these timers, each of which is in it. */
    method EraseActive(expired: seq<Entry>)
      requires forall e :: e in expired ==> IsActive(Model().core, e.timer)
      requires forall i, j :: 0 <= i < j < |expired| ==> expired[i].timer != expired[j].timer
      modifies this`activeTimers
      ensures activeTimers == old(activeTimers) - Ids(old(Model()).core, expired)
    {
      ghost var c := Model().core;
      for i := 0 to |expired|
        invariant activeTimers == c.active - Ids(c, expired[..i])
      {
        assert expired[i] in expired;
        var timer := (expired[i].timer, heap[expired[i].timer].sequence);
        assert timer in activeTimers;
        activeTimers := activeTimers - {timer};
        assert expired[..i + 1] == expired[..i] + [expired[i]];
        assert Ids(c, expired[..i + 1]) == Ids(c, expired[..i]) + {timer};
      }
      assert expired[..|expired|] == expired;
    }

    /** timers_ and activeTimers_ without the timers due; the returned vector has them. */
    method GetExpired(now: int) returns (expired: seq<Entry>)
      requires Index(Model().core)
      modifies this`timers, this`activeTimers
      ensures expired == old(timers)[..Due(old(timers), now)] && timers == old(timers)[Due(old(timers), now)..]
      ensures activeTimers == old(activeTimers) - Ids(old(Model()).core, expired)
    {
      var end := LowerBound(timers, Entry(now, MAX_ADDR));
      DueFrom(timers, now, end);
      expired := timers[..end];
      DueActive(Model().core, end);
      EraseActive(expired);
      timers := timers[end..];
    }

    /** handleRead up to its first callback. */
    method BeginHandleRead(now: int) returns (expired: seq<Entry>)
      requires Valid() && rest.phase.Idle? && now == rest.clock
      modifies this
      ensures Model() == Fire(old(Model())) && Valid()
      ensures expired == Model().batch.entries
    {
      ghost var q := Model();
      FireKeepsInv(q);
      expired := GetExpired(now);
      callingExpiredTimers := true;
      cancelingTimers := {};
      rest := Fire(q);
    }

    /** What a callback does to the queue. */
    method Call(e: Event, now: int)
      requires Valid() && IsCall(e) && Enabled(Model(), e) && now == rest.clock
      modifies this
      ensures Model() == Apply(old(Model()), e) && Valid() && SameBatch(old(Model()), Model())
    {
      CallKeepsBatch(Model(), e);
      match e
      case AddTimer(a, when, interval) => AddTimer(a, when, interval, now);
      case Cancel(id) => CancelInLoop(id);
    }

    method Calls(es: seq<Event>, now: int)
      requires Valid() && AreCalls(es) && Legal(TIMERS, Model(), es) && now == rest.clock
      modifies this
      ensures Model() == Exec(TIMERS, old(Model()), es) && Valid() && SameBatch(old(Model()), Model())
    {
      ghost var q := Model();
      for i := 0 to |es|
        invariant Model() == Exec(TIMERS, q, es[..i]) && Valid() && SameBatch(q, Model())
      {
        LegalUpTo(q, es, i);
        Call(es[i], now);
      }
      assert es[..|es|] == es;
    }

    /** it.second->run() */
    method RunTimer(timer: Addr)
      requires Valid() && Enabled(Model(), Run) && timer == rest.batch.entries[rest.phase.next].timer
      modifies this`rest
      ensures Model() == RunNext(old(Model())) && Valid()
    {
      RunKeepsInv(Model());
      assert timer in Addrs(rest.batch.entries);
      rest := rest.(phase := Calling(rest.phase.next + 1),
                    hist := rest.hist.(runs := rest.hist.runs + [heap[timer].sequence]));
    }

    /** A callback with what it does to the queue. */
    method NextTimer(timer: Addr, calls: seq<seq<Event>>, i: nat, now: int, ghost q: Queue)
      requires Valid() && rest.phase == Calling(i) && i < |calls| == |rest.batch.entries|
      requires timer == rest.batch.entries[i].timer && AllCalls(calls) && now == rest.clock
      requires Legal(TIMERS, q, CallbackRuns(calls)) && Model() == Exec(TIMERS, q, CallbackRuns(calls[..i]))
      modifies this
      ensures Model() == Exec(TIMERS, q, CallbackRuns(calls[..i + 1])) && Valid() && rest.phase == Calling(i + 1)
      ensures rest.batch.entries == old(rest.batch.entries) && rest.batch.time == old(rest.batch.time)
      ensures rest.clock == now
    {
      NextCallback(q, calls, i);
      RunTimer(timer);
      assert AreCalls(calls[i]);
      Calls(calls[i], now);
    }

    /** The loop over the expired timers. */
    method RunTimers(expired: seq<Entry>, calls: seq<seq<Event>>, now: int)
      requires Valid() && rest.phase == Calling(0) && expired == rest.batch.entries && |calls| == |expired|
      requires AllCalls(calls) && Legal(TIMERS, Model(), CallbackRuns(calls)) && now == rest.clock
      modifies this
      ensures Model() == Exec(TIMERS, old(Model()), CallbackRuns(calls)) && Valid()
      ensures rest.phase == Calling(|expired|) && rest.batch.entries == expired && rest.clock == now
      ensures rest.batch.time == old(rest.batch.time)
    {
      ghost var q := Model();
      for i := 0 to |expired|
        invariant Model() == Exec(TIMERS, q, CallbackRuns(calls[..i])) && Valid() && rest.phase == Calling(i)
        invariant rest.batch.entries == expired && rest.batch.time == old(rest.batch.time) && rest.clock == now
      {
        NextTimer(expired[i].timer, calls, i, now, q);
      }
      assert calls[..|calls|] == calls;
    }

    /** Timer::restart, and insert. */
    method Restart(timer: Addr, now: int)
      requires Index(Model().core) && timer in heap && !IsActive(Model().core, timer)
      modifies this`heap, this`timers, this`activeTimers
      ensures Model() == old(Model()).(core := Spec.Insert(
                old(Model()).core.(heap := old(heap)[timer := Restarted(old(heap)[timer], now)]), timer))
    {
      RestartKeepsIndex(Model().core, timer, Restarted(heap[timer], now));
      heap := heap[timer := Restarted(heap[timer], now)];
      var earliestChanged := Insert(timer);
    }

    method Delete(timer: Addr)
      requires timer in heap
      modifies this`heap, this`rest
      ensures Model() == Free(old(Model()), timer) && rest == old(rest).(hist := rest.hist)
    {
      rest := rest.(hist := rest.hist.(freed := rest.hist.freed + [heap[timer].sequence]));
      heap := heap - {timer};
    }

    /** One round of the loop of reset. */
    method ResetOne(timer: Addr, now: int)
      requires Valid() && rest.phase.Resetting? && rest.batch.entries != []
      requires timer == rest.batch.entries[0].timer && now == rest.batch.time
      modifies this
      ensures Model() == ResetNext(old(Model())) && Valid()
    {
      ghost var q := Model();
      ResetKeepsInv(q);
      PopKeepsSound(q, timer);
      rest := rest.(batch := rest.batch.(entries := rest.batch.entries[1..]));
      assert Model() == Popped(q);
      if Repeats(heap[timer]) && (timer, heap[timer].sequence) !in cancelingTimers {
        Restart(timer, now);
      } else {
        Delete(timer);
      }
    }

    method FinishReset(clock: int)
      requires Valid() && rest.phase.Resetting? && rest.batch.entries == [] && clock == rest.clock
      modifies this`rest
      ensures Model() == Rearm(old(Model())) && Valid()
    {
      RearmKeepsInv(Model());
      rest := rest.(phase := Idle);
      if |timers| != 0 && timers[0].when > 0 {
        ResetTimerfd(timers[0].when, clock);
      }
    }

    method Reset(expired: seq<Entry>, now: int, clock: int)
      requires Valid() && rest.phase.Resetting?
      requires expired == rest.batch.entries && now == rest.batch.time && clock == rest.clock
      modifies this
      ensures Model() == ResetAll(old(Model())) && Valid()
    {
      ghost var end := ResetAll(Model());
      for i := 0 to |expired|
        invariant Valid() && rest.phase.Resetting? && rest.batch.entries == expired[i..]
        invariant now == rest.batch.time && clock == rest.clock
        invariant ResetAll(Model()) == end
      {
        ResetFrame(Model());
        ResetOne(expired[i].timer, now);
      }
      FinishReset(clock);
    }

    /** handleRead behind its callbacks. */
    method EndHandleRead(expired: seq<Entry>, now: int)
      requires Valid() && Enabled(Model(), RunsDone)
      requires expired == rest.batch.entries && now == rest.batch.time == rest.clock
      modifies this
      ensures Model() == ResetAll(Apply(old(Model()), RunsDone)) && Valid()
    {
      StepKeepsInv(Model(), RunsDone);
      callingExpiredTimers := false;
      rest := rest.(phase := Resetting);
      Reset(expired, now, now);
    }

    /** The timers due, their callbacks with what these do to the queue, and reset. */
    method HandleRead(calls: seq<seq<Event>>, now: int)
      requires Valid() && rest.phase.Idle? && now == rest.clock && CanHandle(Model(), calls)
      modifies this
      ensures Model() == HandledRead(old(Model()), calls) && Valid()
    {
      var expired := BeginHandleRead(now);
      RunTimers(expired, calls, now);
      EndHandleRead(expired, now);
    }
  }

  lemma LegalUpTo(q: Queue, es: seq<Event>, i: nat)
    requires Legal(TIMERS, q, es) && i < |es|
    ensures Enabled(Exec(TIMERS, q, es[..i]), es[i])
    ensures Exec(TIMERS, q, es[..i + 1]) == Apply(Exec(TIMERS, q, es[..i]), es[i])
  {
    assert es == es[..i + 1] + es[i + 1..];
    Compose(TIMERS, q, es[..i + 1], es[i + 1..]);
    assert es[..i + 1] == es[..i] + [es[i]];
    Snoc(TIMERS, q, es[..i], es[i]);
  }
}
