/** net/TimerQueue.cc and net/Timer.cc: what becomes of the timers of a batch, that a
    repeating timer repeats, and when the alarm is set to go off. */
module TimerRepeats {
  import opened Machines
  import opened Options
  import opened TimerLists
  import opened TimerQueues

  // ----- adding -----

  lemma InsertExactly(c: Core, a: Addr)
    requires Index(c) && !c.bad && a in c.heap && !IsActive(c, a)
    ensures var c' := Insert(c, a);
            && c'.heap == c.heap && c'.active == c.active + {(a, c.heap[a].sequence)}
            && (forall e :: e in c'.timers <==> e in c.timers || e == Entry(c.heap[a].expiration, a))
  {
    InsertKeepsIndex(c, a);
    InsertedEntries(c.timers, Entry(c.heap[a].expiration, a));
  }

  /** A timer added is the one asked for: it is due at the time given, with the interval
      given, under the next number; nothing else changes in the sets. */
  lemma AddExactly(q: Queue, a: Addr, when: int, interval: real)
    requires Inv(q) && a !in q.core.heap && a < MAX_ADDR
    ensures var n, q' := q.hist.created + 1, Apply(q, AddTimer(a, when, interval));
            && q'.core.heap == q.core.heap[a := Timer(when, interval, n)]
            && q'.core.active == q.core.active + {(a, n)}
            && (forall e :: e in q'.core.timers <==> e in q.core.timers || e == Entry(when, a))
    ensures var q' := Apply(q, AddTimerElsewhere(a, when, interval));
            && q'.core == q.core.(heap := q.core.heap[a := Timer(when, interval, q.hist.created + 1)])
            && q'.waiting == q.waiting + {a} && q'.alarm == q.alarm
  {
    var c := Create(q, a, when, interval).core;
    CreateKeepsIndex(q.core, c, a, c.heap[a]);
    InsertExactly(c, a);
  }

  lemma AddQueuedExactly(q: Queue, a: Addr)
    requires Inv(q) && a in q.waiting
    ensures var q' := Apply(q, AddQueued(a));
            && q'.core.heap == q.core.heap && q'.waiting == q.waiting - {a}
            && q'.core.active == q.core.active + {(a, q.core.heap[a].sequence)}
            && (forall e :: e in q'.core.timers <==> e in q.core.timers || e == Entry(q.core.heap[a].expiration, a))
  {
    WaitingIsInactive(q, a);
    InsertExactly(q.core, a);
  }

  lemma WaitingIsInactive(q: Queue, a: Addr)
    requires Inv(q) && a in q.waiting
    ensures Index(q.core) && !q.core.bad && a in q.core.heap && !IsActive(q.core, a)
  {
  }

  // ----- one round of reset -----

  /** Active again, due exactly an interval after the batch; or freed. */
  predicate Outcome(q: Queue, a: Addr, t: Timer, time: int, again: bool) {
    if again then
      && (a, t.sequence) in q.core.active && a in q.core.heap
      && q.core.heap[a] == t.(expiration := time + (t.interval * 1000000.0).Floor)
    else (a, t.sequence) !in q.core.active && a !in q.core.heap && t.sequence in q.hist.freed
  }

  lemma ResetFirst(q: Queue, a: Addr, t: Timer)
    requires Inv(q) && q.phase.Resetting? && q.batch.entries != [] && a == q.batch.entries[0].timer
    requires a in q.core.heap && t == q.core.heap[a]
    ensures Outcome(ResetNext(q), a, t, q.batch.time, t.interval > 0.0 && (a, t.sequence) !in q.batch.canceling)
  {
    assert a in Addrs(q.batch.entries);
    var t' := Restarted(t, q.batch.time);
    if t.interval > 0.0 && (a, t.sequence) !in q.batch.canceling {
      RestartKeepsIndex(q.core, a, t');
      InsertKeepsIndex(q.core.(heap := q.core.heap[a := t']), a);
    }
  }

  /** The other timers stay as they are, and those freed stay freed. */
  lemma ResetOthers(q: Queue, b: Addr)
    requires Inv(q) && q.phase.Resetting? && q.batch.entries != [] && b != q.batch.entries[0].timer
    ensures var q' := ResetNext(q);
            && (b in q'.core.heap <==> b in q.core.heap)
            && (b in q.core.heap ==>
                  q'.core.heap[b] == q.core.heap[b] && (IsActive(q'.core, b) <==> IsActive(q.core, b)))
  {
    var a := q.batch.entries[0].timer;
    assert a in Addrs(q.batch.entries);
    var t := q.core.heap[a];
    if Repeats(t) && (a, t.sequence) !in q.batch.canceling {
      var t' := Restarted(t, q.batch.time);
      RestartKeepsIndex(q.core, a, t');
      InsertKeepsIndex(q.core.(heap := q.core.heap[a := t']), a);
    }
  }

  // ----- reset as a whole -----

  lemma ResetStep(q: Queue)
    requires Inv(q) && q.phase.Resetting? && q.batch.entries != []
    ensures var q' := ResetNext(q);
            && Inv(q') && q'.phase.Resetting? && ResetAll(q') == ResetAll(q)
            && q'.batch == q.batch.(entries := q.batch.entries[1..])
            && Addrs(q'.batch.entries) == Addrs(q.batch.entries) - {q.batch.entries[0].timer}
            && (forall n :: n in q.hist.freed ==> n in q'.hist.freed)
  {
    ResetKeepsInv(q);
    ResetFrame(q);
    PoppedAddrs(q.batch.entries);
  }

  lemma {:induction false} FreedByReset(q: Queue, n: nat)
    requires Inv(q) && q.phase.Resetting? && n in q.hist.freed
    ensures n in ResetAll(q).hist.freed
    decreases |q.batch.entries|
  {
    if q.batch.entries != [] {
      ResetStep(q);
      FreedByReset(ResetNext(q), n);
    }
  }

  /** Reset leaves alone what is not in the batch. */
  lemma {:induction false} ResetSpares(q: Queue, b: Addr)
    requires Inv(q) && q.phase.Resetting? && b !in Addrs(q.batch.entries)
    ensures var q' := ResetAll(q);
            && (b in q'.core.heap <==> b in q.core.heap)
            && (b in q.core.heap ==>
                  q'.core.heap[b] == q.core.heap[b] && (IsActive(q'.core, b) <==> IsActive(q.core, b)))
    decreases |q.batch.entries|
  {
    if q.batch.entries != [] {
      assert q.batch.entries[0].timer in Addrs(q.batch.entries);
      ResetStep(q);
      ResetOthers(q, b);
      ResetSpares(ResetNext(q), b);
    }
  }

  lemma {:induction false} FreedIsInactive(q: Queue, id: TimerId)
    requires Inv(q) && q.phase.Resetting? && id.1 in q.hist.freed
    ensures id !in ResetAll(q).core.active
    decreases |q.batch.entries|
  {
    if q.batch.entries != [] {
      ResetStep(q);
      FreedIsInactive(ResetNext(q), id);
    }
  }

  lemma OutcomeStays(q: Queue, a: Addr, t: Timer, time: int, again: bool)
    requires Inv(q) && q.phase.Resetting? && a !in Addrs(q.batch.entries) && Outcome(q, a, t, time, again)
    ensures Outcome(ResetAll(q), a, t, time, again)
  {
    ResetSpares(q, a);
    if !again {
      FreedByReset(q, t.sequence);
      FreedIsInactive(q, (a, t.sequence));
    }
  }

  lemma {:induction false} ResetOutcome(q: Queue, a: Addr, t: Timer)
    requires Inv(q) && q.phase.Resetting? && a in Addrs(q.batch.entries)
    requires a in q.core.heap && t == q.core.heap[a]
    ensures Outcome(ResetAll(q), a, t, q.batch.time, t.interval > 0.0 && (a, t.sequence) !in q.batch.canceling)
    decreases |q.batch.entries|
  {
    ResetStep(q);
    if a == q.batch.entries[0].timer {
      ResetFirst(q, a, t);
      OutcomeStays(ResetNext(q), a, t, q.batch.time, t.interval > 0.0 && (a, t.sequence) !in q.batch.canceling);
    } else {
      ResetOthers(q, a);
      ResetOutcome(ResetNext(q), a, t);
    }
  }

  /** A timer of the batch is active again exactly if it repeats and was not cancelled
      from a callback, and then due exactly an interval after the batch; otherwise it
      has been freed. */
  lemma ResetExactly(q: Queue, a: Addr, t: Timer)
    requires Inv(q) && q.phase.Resetting? && a in Addrs(q.batch.entries)
    requires a in q.core.heap && t == q.core.heap[a]
    ensures var q', id := ResetAll(q), (a, t.sequence);
            && (id in q'.core.active <==> t.interval > 0.0 && id !in q.batch.canceling)
            && (if id in q'.core.active
                then a in q'.core.heap
                     && q'.core.heap[a] == t.(expiration := q.batch.time + (t.interval * 1000000.0).Floor)
                else a !in q'.core.heap && t.sequence in q'.hist.freed)
  {
    ResetOutcome(q, a, t);
  }

  // ----- over whole runs -----

  /** The timer is alive, repeats, and reset will not free it. */
  predicate Repeating(q: Queue, id: TimerId, interval: real) {
    && Allocated(q, id) && q.core.heap[id.0].interval == interval > 0.0
    && !(id.0 in Addrs(q.batch.entries) && id in q.batch.canceling)
  }

  lemma CreateSpares(q: Queue, id: TimerId, interval: real, a: Addr, when: int, i: real)
    requires Inv(q) && Repeating(q, id, interval) && a !in q.core.heap && a < MAX_ADDR
    ensures Repeating(Create(q, a, when, i), id, interval)
    ensures Repeating(AddTimerInLoop(Create(q, a, when, i), a), id, interval)
  {
  }

  lemma CancelSpares(q: Queue, id: TimerId, interval: real, other: TimerId)
    requires Inv(q) && Repeating(q, id, interval) && other != id
    ensures Repeating(CancelInLoop(q, other), id, interval)
  {
  }

  lemma RoundSpares(q: Queue, id: TimerId, interval: real)
    requires Inv(q) && q.phase.Resetting? && q.batch.entries != [] && Repeating(q, id, interval)
    ensures Repeating(ResetNext(q), id, interval)
  {
    ResetStep(q);
    if id.0 == q.batch.entries[0].timer {
      assert id.0 in Addrs(q.batch.entries);
      ResetFirst(q, id.0, q.core.heap[id.0]);
    } else {
      ResetOthers(q, id.0);
    }
  }

  lemma RepeatingStep(q: Queue, id: TimerId, interval: real, e: Event)
    requires Inv(q) && Repeating(q, id, interval) && Enabled(q, e) && e != Cancel(id)
    ensures Repeating(Apply(q, e), id, interval)
  {
    match e
    case AddTimer(a, when, i) => CreateSpares(q, id, interval, a, when, i);
    case AddTimerElsewhere(a, when, i) => CreateSpares(q, id, interval, a, when, i);
    case Cancel(other) => CancelSpares(q, id, interval, other);
    case Reset => RoundSpares(q, id, interval);
    case _ =>
  }

  lemma {:induction false} RepeatsAlways(q: Queue, id: TimerId, interval: real, es: seq<Event>)
    requires Inv(q) && Repeating(q, id, interval) && Legal(TIMERS, q, es) && Cancel(id) !in es
    ensures Inv(Exec(TIMERS, q, es)) && Repeating(Exec(TIMERS, q, es), id, interval)
    decreases |es|
  {
    if es != [] {
      var init, last := es[..|es| - 1], es[|es| - 1];
      RepeatsAlways(q, id, interval, init);
      StepKeepsInv(Exec(TIMERS, q, init), last);
      RepeatingStep(Exec(TIMERS, q, init), id, interval, last);
    }
  }

  /** The timer waits for its time, is in the batch under way, or on its way from the
      thread that created it. */
  predicate InHand(q: Queue, id: TimerId) {
    id in q.core.active || id.0 in Addrs(q.batch.entries) || id.0 in q.waiting
  }

  predicate Adds(e: Event, a: Addr, when: int, interval: real) {
    e == AddTimer(a, when, interval) || e == AddTimerElsewhere(a, when, interval)
  }

  lemma CreatedRepeats(q: Queue, a: Addr, when: int, interval: real, e: Event)
    requires Inv(q) && Enabled(q, e) && interval > 0.0 && Adds(e, a, when, interval)
    ensures Repeating(Apply(q, e), (a, q.hist.created + 1), interval)
  {
    CreateKeepsSound(q, a, when, interval);
    InsertKeepsIndex(Create(q, a, when, interval).core, a);
  }

  lemma RepeatingInHand(q: Queue, id: TimerId, interval: real)
    requires Inv(q) && Repeating(q, id, interval)
    ensures InHand(q, id) && id.1 !in q.hist.freed
  {
  }

  lemma RepeatsFrom(q: Queue, e: Event, a: Addr, when: int, interval: real, fs: seq<Event>)
    requires Inv(q) && interval > 0.0 && Adds(e, a, when, interval)
    requires Enabled(q, e) && Legal(TIMERS, Apply(q, e), fs) && Cancel((a, q.hist.created + 1)) !in fs
    ensures var id, x := (a, q.hist.created + 1), Exec(TIMERS, Apply(q, e), fs);
            Repeating(x, id, interval) && InHand(x, id) && id.1 !in x.hist.freed
  {
    var id := (a, q.hist.created + 1);
    CreatedRepeats(q, a, when, interval, e);
    StepKeepsInv(q, e);
    RepeatsAlways(Apply(q, e), id, interval, fs);
    RepeatingInHand(Exec(TIMERS, Apply(q, e), fs), id, interval);
  }

  /** A repeating timer that is not cancelled is never freed, whatever else happens: in
      every run from its creation it waits for its time, is in a batch, or on its way. */
  lemma RepeatsForever(clock: int, es: seq<Event>, q: Queue, e: Event, a: Addr, when: int, interval: real,
                       fs: seq<Event>)
    requires clock > 0 && Legal(TIMERS, Fresh(clock), es) && q == Exec(TIMERS, Fresh(clock), es)
    requires interval > 0.0 && Adds(e, a, when, interval)
    requires Enabled(q, e) && Legal(TIMERS, Apply(q, e), fs) && Cancel((a, q.hist.created + 1)) !in fs
    ensures var id, x := (a, q.hist.created + 1), Exec(TIMERS, Apply(q, e), fs);
            Repeating(x, id, interval) && InHand(x, id) && id.1 !in x.hist.freed
  {
    Reachable(clock, es);
    RepeatsFrom(q, e, a, when, interval, fs);
  }

  // ----- the alarm -----

  /** When the alarm goes off, exactly: a timer that becomes the earliest sets it for
      its own time, or 100 microseconds from now if that is later, and any other timer
      leaves it; so does the end of reset, for the earliest timer there is. */
  lemma AlarmExactly(q: Queue, a: Addr)
    requires Index(q.core) && !q.core.bad && a in q.core.heap && !IsActive(q.core, a)
    ensures var t, q' := q.core.heap[a].expiration, AddTimerInLoop(q, a);
            if forall e :: e in q.core.timers ==> t < e.when
            then q'.alarm == Alarm(Some(if t < q.clock + 100 then q.clock + 100 else t), q.clock)
            else q'.alarm == q.alarm
    ensures if q.core.timers != [] && q.core.timers[0].when > 0
            then var t := q.core.timers[0].when;
                 Rearm(q).alarm == Alarm(Some(if t < q.clock + 100 then q.clock + 100 else t), q.clock)
            else Rearm(q).alarm == q.alarm
  {
    if q.core.timers != [] {
      assert q.core.timers[0] in q.core.timers;
      forall e | e in q.core.timers ensures q.core.timers[0].when <= e.when {
        FirstIsLeast(q.core.timers, e);
      }
    }
  }
}
