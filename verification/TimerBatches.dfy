/** net/TimerQueue.cc: one batch. The callbacks of the timers due run once each and in
    order, whatever they do. */
module TimerBatches {
  import opened Machines
  import opened Options
  import opened Seqs
  import opened TimerLists
  import opened TimerQueues

  predicate AllAllocated(heap: map<Addr, Timer>, entries: seq<Entry>) {
    forall i :: 0 <= i < |entries| ==> entries[i].timer in heap
  }

  function Numbers(heap: map<Addr, Timer>, entries: seq<Entry>): (ns: seq<nat>)
    requires AllAllocated(heap, entries)
    ensures |ns| == |entries|
  {
    seq(|entries|, i requires 0 <= i < |entries| => heap[entries[i].timer].sequence)
  }

  /** The batch is as it was taken from q, and so many of its callbacks have run. */
  predicate Called(q: Queue, x: Queue) {
    && AllAllocated(q.core.heap, q.batch.entries)
    && x.phase.Calling? && x.phase.next <= |q.batch.entries| && x.batch.entries == q.batch.entries
    && x.batch.time == q.batch.time
    && AllAllocated(x.core.heap, q.batch.entries)
    && Numbers(x.core.heap, q.batch.entries) == Numbers(q.core.heap, q.batch.entries)
    && x.hist.runs == q.hist.runs + Numbers(q.core.heap, q.batch.entries)[..x.phase.next]
  }

  lemma FireCalls(q: Queue)
    requires Inv(q) && q.phase.Idle?
    ensures Called(Fire(q), Fire(q))
  {
    var c := q.core;
    forall i | 0 <= i < |Fire(q).batch.entries| ensures Fire(q).batch.entries[i].timer in c.heap {
      assert c.timers[i] in c.timers;
    }
  }

  lemma SameNumbers(heap: map<Addr, Timer>, heap': map<Addr, Timer>, entries: seq<Entry>)
    requires AllAllocated(heap, entries)
    requires forall a :: a in heap && a in Addrs(entries) ==> a in heap' && heap'[a] == heap[a]
    ensures AllAllocated(heap', entries) && Numbers(heap', entries) == Numbers(heap, entries)
  {
    forall i | 0 <= i < |entries|
      ensures entries[i].timer in heap' && heap'[entries[i].timer] == heap[entries[i].timer]
    {
      assert entries[i].timer in Addrs(entries);
    }
  }

  lemma CreateCalled(q: Queue, x: Queue, a: Addr, when: int, interval: real)
    requires Inv(x) && Called(q, x) && a !in x.core.heap && a < MAX_ADDR
    ensures Called(q, AddTimerInLoop(Create(x, a, when, interval), a))
    ensures Called(q, Create(x, a, when, interval).(waiting := x.waiting + {a}))
  {
    var c := Create(x, a, when, interval).core;
    CreateKeepsIndex(x.core, c, a, c.heap[a]);
    InsertKeepsIndex(c, a);
    SameNumbers(x.core.heap, c.heap, q.batch.entries);
  }

  lemma CancelCalled(q: Queue, x: Queue, id: TimerId)
    requires Inv(x) && Called(q, x)
    ensures Called(q, CancelInLoop(x, id))
  {
    SameNumbers(x.core.heap, CancelInLoop(x, id).core.heap, q.batch.entries);
  }

  lemma RunCalled(q: Queue, x: Queue)
    requires Inv(x) && Called(q, x) && Enabled(x, Run)
    ensures Called(q, RunNext(x))
  {
    var ns, k := Numbers(q.core.heap, q.batch.entries), x.phase.next;
    assert Numbers(x.core.heap, q.batch.entries)[k] == ns[k];
    assert ns[..k + 1] == ns[..k] + [ns[k]];
    Assoc(q.hist.runs, ns[..k], [ns[k]]);
  }

  lemma CalledStep(q: Queue, x: Queue, e: Event)
    requires Inv(x) && Called(q, x) && Enabled(x, e) && e != RunsDone
    ensures Called(q, Apply(x, e))
  {
    match e
    case AddTimer(a, when, interval) => CreateCalled(q, x, a, when, interval);
    case AddTimerElsewhere(a, when, interval) => CreateCalled(q, x, a, when, interval);
    case Cancel(id) => CancelCalled(q, x, id);
    case Run => RunCalled(q, x);
    case _ =>
  }

  lemma {:induction false} CalledAlways(q: Queue, es: seq<Event>)
    requires Inv(q) && Called(q, q) && Legal(TIMERS, q, es) && RunsDone !in es
    ensures Inv(Exec(TIMERS, q, es)) && Called(q, Exec(TIMERS, q, es))
    decreases |es|
  {
    if es != [] {
      var init, last := es[..|es| - 1], es[|es| - 1];
      CalledAlways(q, init);
      CalledStep(q, Exec(TIMERS, q, init), last);
      StepKeepsInv(Exec(TIMERS, q, init), last);
    }
  }

  lemma CalledAll(q: Queue, x: Queue)
    requires Called(q, x) && Enabled(x, RunsDone)
    ensures x.hist.runs == q.hist.runs + Numbers(q.core.heap, q.batch.entries)
  {
    var ns := Numbers(q.core.heap, q.batch.entries);
    assert ns[..|ns|] == ns;
  }

  lemma FireFrame(q: Queue)
    ensures Fire(q).core.heap == q.core.heap && Fire(q).hist.runs == q.hist.runs
  {
  }

  /** Whatever the callbacks and other threads do meanwhile: when the callbacks are over,
      those of exactly the timers that were due have run, once each, by their times. */
  lemma EveryCallbackOnce(q: Queue, es: seq<Event>, x: Queue, due: seq<Entry>)
    requires Inv(q) && q.phase.Idle? && Legal(TIMERS, Fire(q), es) && RunsDone !in es
    requires x == Exec(TIMERS, Fire(q), es) && due == Fire(q).batch.entries && Enabled(x, RunsDone)
    ensures AllAllocated(q.core.heap, due) && x.hist.runs == q.hist.runs + Numbers(q.core.heap, due)
  {
    FireKeepsInv(q);
    FireCalls(q);
    FireFrame(q);
    CalledAlways(Fire(q), es);
    CalledAll(Fire(q), x);
  }

  // ----- the steps of handleRead -----

  /** What callbacks do to the queue. */
  predicate IsCall(e: Event) {
    e.AddTimer? || e.Cancel?
  }

  predicate AreCalls(es: seq<Event>) {
    forall i :: 0 <= i < |es| ==> IsCall(es[i])
  }

  /** The callbacks one after the other, each with its calls. */
  function CallbackRuns(calls: seq<seq<Event>>): seq<Event> {
    if calls == [] then [] else CallbackRuns(calls[..|calls| - 1]) + ([Run] + calls[|calls| - 1])
  }

  predicate AllCalls(calls: seq<seq<Event>>) {
    forall i :: 0 <= i < |calls| ==> AreCalls(calls[i])
  }

  lemma {:induction false} NotDoneYet(calls: seq<seq<Event>>)
    requires AllCalls(calls)
    ensures RunsDone !in CallbackRuns(calls)
  {
    if calls != [] {
      NotDoneYet(calls[..|calls| - 1]);
      assert AreCalls(calls[|calls| - 1]);
    }
  }

  lemma {:induction false} LegalBegins(q: Queue, calls: seq<seq<Event>>, n: nat)
    requires Legal(TIMERS, q, CallbackRuns(calls)) && n <= |calls|
    ensures Legal(TIMERS, q, CallbackRuns(calls[..n]))
    decreases |calls|
  {
    if n == |calls| {
      assert calls[..n] == calls;
    } else {
      var init := calls[..|calls| - 1];
      Compose(TIMERS, q, CallbackRuns(init), [Run] + calls[|calls| - 1]);
      LegalBegins(q, init, n);
      assert init[..n] == calls[..n];
    }
  }

  /** The next callback, if all of them can run. */
  lemma NextCallback(q: Queue, calls: seq<seq<Event>>, n: nat)
    requires Legal(TIMERS, q, CallbackRuns(calls)) && n < |calls|
    ensures var x := Exec(TIMERS, q, CallbackRuns(calls[..n]));
            && Enabled(x, Run) && Legal(TIMERS, RunNext(x), calls[n])
            && Exec(TIMERS, q, CallbackRuns(calls[..n + 1])) == Exec(TIMERS, RunNext(x), calls[n])
  {
    var x := Exec(TIMERS, q, CallbackRuns(calls[..n]));
    LegalBegins(q, calls, n + 1);
    assert calls[..n + 1][..n] == calls[..n];
    Compose(TIMERS, q, CallbackRuns(calls[..n]), [Run] + calls[n]);
    Compose(TIMERS, x, [Run], calls[n]);
    Snoc(TIMERS, x, [], Run);
    assert [] + [Run] == [Run];
  }

  /** handleRead as a whole. */
  function HandledRead(q: Queue, calls: seq<seq<Event>>): Queue {
    ResetAll(Apply(Exec(TIMERS, Fire(q), CallbackRuns(calls)), RunsDone))
  }

  lemma {:induction false} ResetRuns(q: Queue)
    ensures ResetAll(q).hist.runs == q.hist.runs
    decreases |q.batch.entries|
  {
    if q.batch.entries != [] {
      ResetRuns(ResetNext(q));
    }
  }

  /** The callbacks can do what they do, one for each timer due. */
  predicate CanHandle(q: Queue, calls: seq<seq<Event>>) {
    AllCalls(calls) && |calls| == |Fire(q).batch.entries| && Legal(TIMERS, Fire(q), CallbackRuns(calls))
  }

  predicate SameBatch(q: Queue, q': Queue) {
    q'.phase == q.phase && q'.batch.entries == q.batch.entries && q'.batch.time == q.batch.time && q'.clock == q.clock
  }

  lemma CallKeepsBatch(q: Queue, e: Event)
    requires IsCall(e)
    ensures SameBatch(q, Apply(q, e))
  {
  }

  lemma {:induction false} CallsKeepBatch(q: Queue, es: seq<Event>)
    requires AreCalls(es)
    ensures SameBatch(q, Exec(TIMERS, q, es))
    decreases |es|
  {
    if es != [] {
      CallsKeepBatch(q, es[..|es| - 1]);
      CallKeepsBatch(Exec(TIMERS, q, es[..|es| - 1]), es[|es| - 1]);
    }
  }

  lemma {:induction false} CallbacksEnd(q: Queue, calls: seq<seq<Event>>, n: nat)
    requires q.phase == Calling(0) && AllCalls(calls) && Legal(TIMERS, q, CallbackRuns(calls)) && n <= |calls|
    ensures var x := Exec(TIMERS, q, CallbackRuns(calls[..n]));
            x.phase == Calling(n) && x.batch.entries == q.batch.entries
    decreases n
  {
    if n > 0 {
      CallbacksEnd(q, calls, n - 1);
      NextCallback(q, calls, n - 1);
      assert AreCalls(calls[n - 1]);
      CallsKeepBatch(RunNext(Exec(TIMERS, q, CallbackRuns(calls[..n - 1]))), calls[n - 1]);
    }
  }

  lemma CallbacksOver(q: Queue, calls: seq<seq<Event>>)
    requires CanHandle(q, calls)
    ensures Enabled(Exec(TIMERS, Fire(q), CallbackRuns(calls)), RunsDone)
  {
    CallbacksEnd(Fire(q), calls, |calls|);
    assert calls[..|calls|] == calls;
  }

  lemma RunThenReset(q: Queue, es: seq<Event>, x: Queue) returns (fs: seq<Event>)
    requires q.phase.Idle? && Legal(TIMERS, Fire(q), es) && x == Exec(TIMERS, Fire(q), es) && Enabled(x, RunsDone)
    ensures Legal(TIMERS, q, fs) && Exec(TIMERS, q, fs) == ResetAll(Apply(x, RunsDone))
  {
    Between(TIMERS, q, Alarms, es, x, RunsDone);
    var gs := ResetAllIsRun(Apply(x, RunsDone));
    Compose(TIMERS, q, [Alarms] + es + [RunsDone], gs);
    fs := ([Alarms] + es + [RunsDone]) + gs;
  }

  /** It is a run, in which the callbacks of exactly the timers due have run, in order. */
  lemma HandledReadIsRun(q: Queue, calls: seq<seq<Event>>) returns (es: seq<Event>)
    requires Inv(q) && q.phase.Idle? && CanHandle(q, calls)
    ensures Legal(TIMERS, q, es) && Exec(TIMERS, q, es) == HandledRead(q, calls)
  {
    CallbacksOver(q, calls);
    es := RunThenReset(q, CallbackRuns(calls), Exec(TIMERS, Fire(q), CallbackRuns(calls)));
  }

  lemma HandledReadRuns(q: Queue, calls: seq<seq<Event>>, due: seq<Entry>)
    requires Inv(q) && q.phase.Idle? && CanHandle(q, calls) && due == Fire(q).batch.entries
    ensures AllAllocated(q.core.heap, due)
    ensures HandledRead(q, calls).hist.runs == q.hist.runs + Numbers(q.core.heap, due)
  {
    CallbacksOver(q, calls);
    NotDoneYet(calls);
    var x := Exec(TIMERS, Fire(q), CallbackRuns(calls));
    EveryCallbackOnce(q, CallbackRuns(calls), x, due);
    ResetRuns(Apply(x, RunsDone));
  }
}
