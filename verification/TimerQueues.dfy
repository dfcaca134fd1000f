/** net/TimerQueue.cc and net/Timer.cc: two ordered sets over the same timers, raw
    pointers to them, and one timerfd.

    The heap is explicit: addresses are freed and handed out again, so that a stale
    TimerId can name an address where another timer lives. The loop thread handles
    the alarm in small steps, between which its callbacks add and cancel timers and
    other threads allocate new ones. There is one clock, in microseconds. */
module TimerQueues {
  import opened Machines
  import opened Options
  import opened TimerLists

  datatype Timer = Timer(expiration: int, interval: real, sequence: nat)

  type TimerId = (Addr, nat)

  predicate Repeats(t: Timer) {
    t.interval > 0.0
  }

  /** addTime's static_cast<int64_t>(seconds * 1000000). */
  function Micros(interval: real): int {
    (interval * 1000000.0).Floor
  }

  function Restarted(t: Timer, now: int): Timer {
    t.(expiration := if Repeats(t) then now + Micros(t.interval) else 0)
  }

  /** timers_ and activeTimers_ over the timers that are allocated; bad records an
      access to freed memory or a failed assert. */
  datatype Core = Core(heap: map<Addr, Timer>, timers: seq<Entry>, active: set<TimerId>, bad: bool)

  datatype Phase = Idle | Calling(next: nat) | Resetting

  /** handleRead's expired and now, and cancelingTimers_. */
  datatype Batch = Batch(entries: seq<Entry>, time: int, canceling: set<TimerId>)

  datatype Alarm = Alarm(deadline: Option<int>, armedAt: int)

  /** By sequence number: how many were created, which were freed, in that order,
      which were cancelled, when each was last in a batch, and whose callbacks have run. */
  datatype History = History(
    created: nat, freed: seq<nat>, cancelled: set<nat>, last: map<nat, int>, runs: seq<nat>)

  /** waiting: allocated by addTimer in another thread, not yet inserted. */
  datatype Queue = Queue(
    core: Core, phase: Phase, batch: Batch, waiting: set<Addr>, clock: int, alarm: Alarm, hist: History)

  // ----- the operations -----

  function Max(x: int, y: int): int {
    if x < y then y else x
  }

  /** resetTimerfd: the fd becomes readable howMuchTimeFromNow later. */
  function Arm(q: Queue, expiration: int): Queue {
    q.(alarm := Alarm(Some(q.clock + Max(expiration - q.clock, 100)), q.clock))
  }

  function Insert(c: Core, a: Addr): Core {
    if a !in c.heap then c.(bad := true)
    else
      var e, id := Entry(c.heap[a].expiration, a), (a, c.heap[a].sequence);
      if e in c.timers || id in c.active then c.(bad := true)
      else c.(timers := Inserted(c.timers, e), active := c.active + {id})
  }

  function EarliestChanged(c: Core, a: Addr): bool {
    c.timers == [] || (a in c.heap && c.heap[a].expiration < c.timers[0].when)
  }

  function AddTimerInLoop(q: Queue, a: Addr): Queue {
    var q1 := q.(core := Insert(q.core, a));
    if EarliestChanged(q.core, a) && a in q.core.heap then Arm(q1, q.core.heap[a].expiration) else q1
  }

  function Free(q: Queue, a: Addr): Queue {
    if a !in q.core.heap then q.(core := q.core.(bad := true))
    else
      q.(core := q.core.(heap := q.core.heap - {a}),
         hist := q.hist.(freed := q.hist.freed + [q.core.heap[a].sequence]))
  }

  function Addrs(entries: seq<Entry>): set<Addr> {
    set e | e in entries :: e.timer
  }

  function CancelInLoop(q: Queue, id: TimerId): Queue {
    if id in q.core.active then
      if id.0 !in q.core.heap || Entry(q.core.heap[id.0].expiration, id.0) !in q.core.timers then
        q.(core := q.core.(bad := true))
      else
        var c := q.core.(timers := Removed(q.core.timers, Entry(q.core.heap[id.0].expiration, id.0)),
                         active := q.core.active - {id});
        Free(q.(core := c, hist := q.hist.(cancelled := q.hist.cancelled + {id.1})), id.0)
    else if q.phase.Calling? then
      q.(batch := q.batch.(canceling := q.batch.canceling + {id}),
         hist := if Running(q, id) then q.hist.(cancelled := q.hist.cancelled + {id.1}) else q.hist)
    else q
  }

  /** The timer the id was given for is in the batch under way. */
  predicate Running(q: Queue, id: TimerId) {
    id.0 in Addrs(q.batch.entries) && id.0 in q.core.heap && q.core.heap[id.0].sequence == id.1
  }

  function Ids(c: Core, entries: seq<Entry>): set<TimerId> {
    set e | e in entries && e.timer in c.heap :: (e.timer, c.heap[e.timer].sequence)
  }

  function Sequences(ids: set<TimerId>): set<nat> {
    set id | id in ids :: id.1
  }

  function Stamp(c: Core, entries: seq<Entry>, now: int): map<nat, int> {
    map n | n in Sequences(Ids(c, entries)) :: now
  }

  /** handleRead up to its first callback: getExpired, and the flag. */
  function Fire(q: Queue): Queue {
    var c, k := q.core, Due(q.core.timers, q.clock);
    var expired := c.timers[..k];
    q.(core := c.(timers := c.timers[k..], active := c.active - Ids(c, expired),
                  bad := c.bad || exists e :: e in expired && !IsActive(c, e.timer)),
       phase := Calling(0),
       batch := Batch(expired, q.clock, {}),
       alarm := q.alarm.(deadline := None),
       hist := q.hist.(last := q.hist.last + Stamp(c, expired, q.clock)))
  }

  function RunNext(q: Queue): Queue {
    if !q.phase.Calling? || q.phase.next >= |q.batch.entries| then q
    else
      var a, q1 := q.batch.entries[q.phase.next].timer, q.(phase := Calling(q.phase.next + 1));
      if a !in q.core.heap then q1.(core := q.core.(bad := true))
      else q1.(hist := q.hist.(runs := q.hist.runs + [q.core.heap[a].sequence]))
  }

  /** One round of the loop of reset. */
  function ResetNext(q: Queue): Queue {
    if q.batch.entries == [] then q
    else
      var a := q.batch.entries[0].timer;
      var q1 := q.(batch := q.batch.(entries := q.batch.entries[1..]));
      if a !in q.core.heap then q1.(core := q.core.(bad := true))
      else if Repeats(q.core.heap[a]) && (a, q.core.heap[a].sequence) !in q.batch.canceling then
        q1.(core := Insert(q.core.(heap := q.core.heap[a := Restarted(q.core.heap[a], q.batch.time)]), a))
      else Free(q1, a)
  }

  /** The end of reset: the alarm is set for the earliest timer, if its time is valid. */
  function Rearm(q: Queue): Queue {
    var q1 := q.(phase := Idle);
    if q.core.timers != [] && q.core.timers[0].when > 0 then Arm(q1, q.core.timers[0].when) else q1
  }

  function Create(q: Queue, a: Addr, when: int, interval: real): Queue {
    q.(core := q.core.(heap := q.core.heap[a := Timer(when, interval, q.hist.created + 1)]),
       hist := q.hist.(created := q.hist.created + 1))
  }

  datatype Event =
    | Tick(now: int)
    | AddTimer(a: Addr, when: int, interval: real)            // in the loop thread
    | AddTimerElsewhere(a: Addr, when: int, interval: real)   // allocates now, inserts later
    | AddQueued(a: Addr)
    | Cancel(id: TimerId)
    | Alarms
    | Run
    | RunsDone
    | Reset
    | ResetDone

  /** The allocator returns an address not in use. The loop's own queue is served
      between events; no user code runs inside reset. handleRead may run although the
      alarm has been set anew since poll reported it. */
  predicate Enabled(q: Queue, e: Event) {
    match e
    case Tick(now) => now >= q.clock
    case AddTimer(a, _, _) => a !in q.core.heap && a < MAX_ADDR && !q.phase.Resetting?
    case AddTimerElsewhere(a, _, _) => a !in q.core.heap && a < MAX_ADDR
    case AddQueued(a) => a in q.waiting && q.phase.Idle?
    case Cancel(_) => !q.phase.Resetting?
    case Alarms => q.phase.Idle?
    case Run => q.phase.Calling? && q.phase.next < |q.batch.entries|
    case RunsDone => q.phase.Calling? && q.phase.next == |q.batch.entries|
    case Reset => q.phase.Resetting? && q.batch.entries != []
    case ResetDone => q.phase.Resetting? && q.batch.entries == []
  }

  function Apply(q: Queue, e: Event): Queue {
    match e
    case Tick(now) => q.(clock := now)
    case AddTimer(a, when, interval) => AddTimerInLoop(Create(q, a, when, interval), a)
    case AddTimerElsewhere(a, when, interval) => Create(q, a, when, interval).(waiting := q.waiting + {a})
    case AddQueued(a) => AddTimerInLoop(q.(waiting := q.waiting - {a}), a)
    case Cancel(id) => CancelInLoop(q, id)
    case Alarms => Fire(q)
    case Run => RunNext(q)
    case RunsDone => q.(phase := Resetting)
    case Reset => ResetNext(q)
    case ResetDone => Rearm(q)
  }

  const TIMERS: Machine<Queue, Event> := Machine(Enabled, Apply)

  function Fresh(clock: int): Queue {
    Queue(Core(map[], [], {}, false), Idle, Batch([], 0, {}), {}, clock, Alarm(None, clock),
          History(0, [], {}, map[], []))
  }

  // ----- the invariant -----

  /** The two sets describe the same timers, with their current expirations. */
  predicate Index(c: Core) {
    && Sorted(c.timers)
    && (forall e :: e in c.timers ==>
         e.timer in c.heap && c.heap[e.timer].expiration == e.when && (e.timer, c.heap[e.timer].sequence) in c.active)
    && (forall id :: id in c.active ==>
         id.0 in c.heap && c.heap[id.0].sequence == id.1 && Entry(c.heap[id.0].expiration, id.0) in c.timers)
  }

  predicate IsActive(c: Core, a: Addr) {
    a in c.heap && (a, c.heap[a].sequence) in c.active
  }

  predicate Allocated(q: Queue, id: TimerId) {
    id.0 in q.core.heap && q.core.heap[id.0].sequence == id.1
  }

  /** Every allocated timer has exactly one owner, the sets, the batch or the thread
      that created it; those in moving are just changing hands. */
  predicate Owned(c: Core, entries: seq<Entry>, waiting: set<Addr>, moving: set<Addr>) {
    && (forall a :: a in c.heap ==> a < MAX_ADDR)
    && (forall a :: a in c.heap ==> IsActive(c, a) || a in Addrs(entries) || a in waiting || a in moving)
    && (forall a :: a in Addrs(entries) ==> a in c.heap && !IsActive(c, a) && a !in waiting && a !in moving)
    && (forall a :: a in waiting ==> a in c.heap && !IsActive(c, a) && a !in moving)
    && (forall a :: a in moving ==> a in c.heap && !IsActive(c, a))
    && (forall i, j :: 0 <= i < j < |entries| ==> entries[i].timer != entries[j].timer)
  }

  /** Sequence numbers are never used twice, not even after a timer is freed. */
  predicate Numbered(heap: map<Addr, Timer>, h: History) {
    && (forall a :: a in heap ==> heap[a].sequence <= h.created && heap[a].sequence !in h.freed)
    && (forall a, b :: a in heap && b in heap && heap[a].sequence == heap[b].sequence ==> a == b)
    && (forall n :: n in h.freed ==> n <= h.created)
    && (forall n :: n in h.cancelled ==> n <= h.created)
    && (forall n :: n in h.last ==> n <= h.created)
    && (forall i, j :: 0 <= i < j < |h.freed| ==> h.freed[i] != h.freed[j])
  }

  /** A cancelled timer is gone, or is in the batch under way and will not be restarted. */
  predicate CancelHolds(heap: map<Addr, Timer>, b: Batch, cancelled: set<nat>, moving: set<Addr>) {
    forall a :: a in heap && a !in moving && heap[a].sequence in cancelled ==>
      a in Addrs(b.entries) && (a, heap[a].sequence) in b.canceling
  }

  /** Its next time is exactly an interval after the last batch it was in. */
  predicate DueLater(last: map<nat, int>, t: Timer) {
    t.sequence in last ==> t.expiration == last[t.sequence] + Micros(t.interval)
  }

  predicate LastIn(last: map<nat, int>, n: nat, time: int) {
    n in last && last[n] == time
  }

  /** A timer that has been in a batch is due again only an interval later. */
  predicate Spaced(heap: map<Addr, Timer>, entries: seq<Entry>, time: int, last: map<nat, int>, moving: set<Addr>) {
    && (forall a :: a in Addrs(entries) && a in heap ==> LastIn(last, heap[a].sequence, time))
    && (forall a :: a in heap && a !in Addrs(entries) && a !in moving ==> DueLater(last, heap[a]))
  }

  /** The alarm will go off in time for the earliest timer. While a batch is being
      handled this is said only of times that reset takes for invalid. */
  predicate AlarmSet(q: Queue) {
    && 0 < q.clock && q.alarm.armedAt <= q.clock && (!q.phase.Idle? ==> 0 < q.batch.time <= q.clock)
    && (q.core.timers != [] && (q.phase.Idle? || q.core.timers[0].when <= 0) ==>
         q.alarm.deadline.Some? && q.alarm.deadline.value <= Max(q.core.timers[0].when, q.alarm.armedAt + 100))
  }

  predicate Sound(q: Queue, moving: set<Addr>) {
    && !q.core.bad && Index(q.core) && Owned(q.core, q.batch.entries, q.waiting, moving)
    && (q.phase.Idle? ==> q.batch.entries == [])
    && Numbered(q.core.heap, q.hist) && CancelHolds(q.core.heap, q.batch, q.hist.cancelled, moving)
    && Spaced(q.core.heap, q.batch.entries, q.batch.time, q.hist.last, moving)
  }

  predicate Inv(q: Queue) {
    Sound(q, {}) && AlarmSet(q)
  }

  /** Clock and alarm do not matter to the rest. */
  lemma SoundFrame(q: Queue, q': Queue, moving: set<Addr>)
    requires Sound(q, moving)
    requires q'.core == q.core && q'.batch == q.batch && q'.waiting == q.waiting
    requires q'.hist == q.hist.(runs := q'.hist.runs)
    requires q'.phase.Idle? ==> q.batch.entries == []
    ensures Sound(q', moving)
  {
  }

  /** The timer has arrived. */
  lemma SettleHistory(heap: map<Addr, Timer>, b: Batch, h: History, a: Addr)
    requires a in heap && heap[a].sequence !in h.cancelled && DueLater(h.last, heap[a])
    requires CancelHolds(heap, b, h.cancelled, {a}) && Spaced(heap, b.entries, b.time, h.last, {a})
    ensures CancelHolds(heap, b, h.cancelled, {}) && Spaced(heap, b.entries, b.time, h.last, {})
  {
  }

  // ----- insertion, creation and freeing -----

  lemma InsertKeepsIndex(c: Core, a: Addr)
    requires Index(c) && !c.bad && a in c.heap && !IsActive(c, a)
    ensures var c' := Insert(c, a);
            && Index(c') && !c'.bad && c'.heap == c.heap && IsActive(c', a)
            && c'.active == c.active + {(a, c.heap[a].sequence)} && c'.timers != []
            && c'.timers[0].when == (if EarliestChanged(c, a) then c.heap[a].expiration else c.timers[0].when)
  {
    var e := Entry(c.heap[a].expiration, a);
    InsertedEntries(c.timers, e);
    InsertedSorted(c.timers, e);
  }

  lemma ActivateKeepsOwned(c: Core, c': Core, entries: seq<Entry>, waiting: set<Addr>, a: Addr)
    requires Owned(c, entries, waiting, {a}) && a in c.heap
    requires c'.heap == c.heap && c'.active == c.active + {(a, c.heap[a].sequence)}
    ensures Owned(c', entries, waiting, {})
  {
    assert forall b :: b != a ==> (IsActive(c', b) <==> IsActive(c, b));
  }

  lemma InsertKeepsSound(q: Queue, a: Addr)
    requires Sound(q, {a}) && a in q.core.heap
    requires q.core.heap[a].sequence !in q.hist.cancelled && DueLater(q.hist.last, q.core.heap[a])
    ensures Sound(q.(core := Insert(q.core, a)), {})
  {
    InsertKeepsIndex(q.core, a);
    ActivateKeepsOwned(q.core, Insert(q.core, a), q.batch.entries, q.waiting, a);
    SettleHistory(q.core.heap, q.batch, q.hist, a);
  }

  lemma AddKeepsAlarm(q: Queue, a: Addr)
    requires Index(q.core) && !q.core.bad && a in q.core.heap && !IsActive(q.core, a) && AlarmSet(q)
    ensures AlarmSet(AddTimerInLoop(q, a))
  {
    InsertKeepsIndex(q.core, a);
  }

  lemma AddKeepsInv(q: Queue, a: Addr)
    requires Sound(q, {a}) && AlarmSet(q) && a in q.core.heap
    requires q.core.heap[a].sequence !in q.hist.cancelled && DueLater(q.hist.last, q.core.heap[a])
    ensures Inv(AddTimerInLoop(q, a))
  {
    InsertKeepsSound(q, a);
    AddKeepsAlarm(q, a);
    SoundFrame(q.(core := Insert(q.core, a)), AddTimerInLoop(q, a), {});
  }

  lemma FreeKeepsIndex(c: Core, c': Core, a: Addr)
    requires Index(c) && !IsActive(c, a) && a in c.heap
    requires c'.heap == c.heap - {a} && c'.timers == c.timers && c'.active == c.active
    ensures Index(c') && forall b :: b != a ==> (IsActive(c', b) <==> IsActive(c, b))
  {
  }

  lemma FreeKeepsOwned(c: Core, c': Core, entries: seq<Entry>, waiting: set<Addr>, a: Addr)
    requires Owned(c, entries, waiting, {a}) && c'.heap == c.heap - {a}
    requires forall b :: b != a ==> (IsActive(c', b) <==> IsActive(c, b))
    ensures Owned(c', entries, waiting, {})
  {
  }

  lemma FreeKeepsNumbered(heap: map<Addr, Timer>, h: History, a: Addr)
    requires Numbered(heap, h) && a in heap
    ensures Numbered(heap - {a}, h.(freed := h.freed + [heap[a].sequence]))
  {
  }

  lemma FreeKeepsHistory(heap: map<Addr, Timer>, b: Batch, h: History, a: Addr)
    requires CancelHolds(heap, b, h.cancelled, {a}) && Spaced(heap, b.entries, b.time, h.last, {a})
    ensures CancelHolds(heap - {a}, b, h.cancelled, {}) && Spaced(heap - {a}, b.entries, b.time, h.last, {})
  {
  }

  lemma FreeKeepsSound(q: Queue, a: Addr)
    requires Sound(q, {a}) && a in q.core.heap
    ensures Sound(Free(q, a), {})
  {
    FreeKeepsIndex(q.core, Free(q, a).core, a);
    FreeKeepsOwned(q.core, Free(q, a).core, q.batch.entries, q.waiting, a);
    FreeKeepsNumbered(q.core.heap, q.hist, a);
    FreeKeepsHistory(q.core.heap, q.batch, q.hist, a);
  }

  lemma CreateKeepsIndex(c: Core, c': Core, a: Addr, t: Timer)
    requires Index(c) && a !in c.heap
    requires c'.heap == c.heap[a := t] && c'.timers == c.timers && c'.active == c.active
    ensures Index(c') && !IsActive(c', a) && forall b :: b != a ==> (IsActive(c', b) <==> IsActive(c, b))
  {
  }

  lemma CreateKeepsOwned(c: Core, c': Core, entries: seq<Entry>, waiting: set<Addr>, a: Addr, t: Timer)
    requires Owned(c, entries, waiting, {}) && c'.heap == c.heap[a := t] && a !in c.heap && a < MAX_ADDR
    requires !IsActive(c', a) && forall b :: b != a ==> (IsActive(c', b) <==> IsActive(c, b))
    ensures Owned(c', entries, waiting, {a})
  {
  }

  lemma CreateKeepsHistory(heap: map<Addr, Timer>, b: Batch, h: History, a: Addr, t: Timer)
    requires Numbered(heap, h) && a !in heap && a !in Addrs(b.entries) && t.sequence == h.created + 1
    requires CancelHolds(heap, b, h.cancelled, {}) && Spaced(heap, b.entries, b.time, h.last, {})
    ensures Numbered(heap[a := t], h.(created := h.created + 1)) && t.sequence !in h.cancelled && t.sequence !in h.last
    ensures CancelHolds(heap[a := t], b, h.cancelled, {a}) && Spaced(heap[a := t], b.entries, b.time, h.last, {a})
  {
  }

  lemma CreateKeepsSound(q: Queue, a: Addr, when: int, interval: real)
    requires Sound(q, {}) && a !in q.core.heap && a < MAX_ADDR
    ensures Sound(Create(q, a, when, interval), {a})
    ensures q.hist.created + 1 !in q.hist.cancelled && q.hist.created + 1 !in q.hist.last
  {
    var t, c' := Timer(when, interval, q.hist.created + 1), Create(q, a, when, interval).core;
    CreateKeepsIndex(q.core, c', a, t);
    CreateKeepsOwned(q.core, c', q.batch.entries, q.waiting, a, t);
    CreateKeepsHistory(q.core.heap, q.batch, q.hist, a, t);
  }

  lemma WaitKeepsSound(q: Queue, a: Addr)
    requires Sound(q, {a}) && a in q.core.heap && a !in q.waiting
    requires q.core.heap[a].sequence !in q.hist.cancelled && DueLater(q.hist.last, q.core.heap[a])
    ensures Sound(q.(waiting := q.waiting + {a}), {})
  {
    WaitingHands(q.core, q.batch.entries, q.waiting, a);
    SettleHistory(q.core.heap, q.batch, q.hist, a);
  }

  lemma WaitingHands(c: Core, entries: seq<Entry>, waiting: set<Addr>, a: Addr)
    ensures Owned(c, entries, waiting, {a}) ==> Owned(c, entries, waiting + {a}, {})
    ensures Owned(c, entries, waiting, {}) && a in waiting ==> Owned(c, entries, waiting - {a}, {a})
  {
  }

  lemma UnwaitKeepsSound(q: Queue, a: Addr)
    requires Sound(q, {}) && a in q.waiting
    ensures Sound(q.(waiting := q.waiting - {a}), {a}) && a in q.core.heap
    ensures q.core.heap[a].sequence !in q.hist.cancelled && DueLater(q.hist.last, q.core.heap[a])
  {
    WaitingHands(q.core, q.batch.entries, q.waiting, a);
  }

  // ----- cancellation -----

  lemma EraseKeepsIndex(c: Core, id: TimerId)
    requires Index(c) && id in c.active
    ensures var c' := c.(timers := Removed(c.timers, Entry(c.heap[id.0].expiration, id.0)), active := c.active - {id});
            Index(c') && (c'.timers != [] ==> c.timers != [] && c.timers[0].when <= c'.timers[0].when)
  {
    var e := Entry(c.heap[id.0].expiration, id.0);
    RemovedEntries(c.timers, e);
    var c' := c.(timers := Removed(c.timers, e), active := c.active - {id});
    if c'.timers != [] {
      assert c'.timers[0] in c'.timers;
      FirstIsLeast(c.timers, c'.timers[0]);
    }
  }

  function Erased(q: Queue, id: TimerId): Queue
    requires id.0 in q.core.heap
  {
    q.(core := q.core.(timers := Removed(q.core.timers, Entry(q.core.heap[id.0].expiration, id.0)),
                       active := q.core.active - {id}),
       hist := q.hist.(cancelled := q.hist.cancelled + {id.1}))
  }

  lemma EraseKeepsOwned(c: Core, c': Core, entries: seq<Entry>, waiting: set<Addr>, id: TimerId)
    requires Owned(c, entries, waiting, {}) && id.0 in c.heap && c.heap[id.0].sequence == id.1 && id in c.active
    requires c'.heap == c.heap && c'.active == c.active - {id}
    ensures Owned(c', entries, waiting, {id.0})
  {
    assert IsActive(c, id.0) && !IsActive(c', id.0);
    assert forall b :: b != id.0 ==> (IsActive(c', b) <==> IsActive(c, b));
  }

  lemma EraseKeepsHistory(heap: map<Addr, Timer>, b: Batch, h: History, id: TimerId)
    requires Numbered(heap, h) && id.0 in heap && heap[id.0].sequence == id.1
    requires CancelHolds(heap, b, h.cancelled, {}) && Spaced(heap, b.entries, b.time, h.last, {})
    ensures Numbered(heap, h.(cancelled := h.cancelled + {id.1}))
    ensures CancelHolds(heap, b, h.cancelled + {id.1}, {id.0}) && Spaced(heap, b.entries, b.time, h.last, {id.0})
  {
  }

  lemma EraseKeepsSound(q: Queue, id: TimerId)
    requires Sound(q, {}) && id in q.core.active
    ensures Sound(Erased(q, id), {id.0})
  {
    EraseKeepsIndex(q.core, id);
    EraseKeepsOwned(q.core, Erased(q, id).core, q.batch.entries, q.waiting, id);
    EraseKeepsHistory(q.core.heap, q.batch, q.hist, id);
  }

  lemma CancelActiveKeepsSound(q: Queue, id: TimerId)
    requires Sound(q, {}) && id in q.core.active
    ensures Sound(CancelInLoop(q, id), {})
  {
    EraseKeepsSound(q, id);
    FreeKeepsSound(Erased(q, id), id.0);
  }

  lemma RememberKeepsHistory(heap: map<Addr, Timer>, b: Batch, h: History, id: TimerId, running: bool)
    requires Numbered(heap, h) && CancelHolds(heap, b, h.cancelled, {})
    requires running ==> id.0 in Addrs(b.entries) && id.0 in heap && heap[id.0].sequence == id.1
    ensures var cancelled := if running then h.cancelled + {id.1} else h.cancelled;
            && Numbered(heap, h.(cancelled := cancelled))
            && CancelHolds(heap, b.(canceling := b.canceling + {id}), cancelled, {})
  {
  }

  lemma CancelRunningKeepsSound(q: Queue, id: TimerId)
    requires Sound(q, {}) && id !in q.core.active
    ensures Sound(CancelInLoop(q, id), {})
  {
    if q.phase.Calling? {
      RememberKeepsHistory(q.core.heap, q.batch, q.hist, id, Running(q, id));
    }
  }

  lemma CancelKeepsInv(q: Queue, id: TimerId)
    requires Inv(q)
    ensures Inv(CancelInLoop(q, id))
  {
    if id in q.core.active {
      CancelActiveKeepsSound(q, id);
      EraseKeepsIndex(q.core, id);
    } else {
      CancelRunningKeepsSound(q, id);
    }
  }

  // ----- the batch -----

  lemma FireKeepsIndex(q: Queue)
    requires !q.core.bad && Index(q.core)
    ensures Index(Fire(q).core) && !Fire(q).core.bad
  {
  }

  /** The timers at the front change from the sets to the batch. */
  lemma FireHands(c: Core, c': Core, k: nat, a: Addr)
    requires Index(c) && k <= |c.timers| && a in c.heap
    requires c'.heap == c.heap && c'.active == c.active - Ids(c, c.timers[..k])
    ensures IsActive(c, a) <==> IsActive(c', a) || a in Addrs(c.timers[..k])
    ensures !(IsActive(c', a) && a in Addrs(c.timers[..k]))
  {
  }

  lemma DistinctTimers(c: Core, k: nat)
    requires Index(c) && k <= |c.timers|
    ensures forall i, j :: 0 <= i < j < k ==> c.timers[i].timer != c.timers[j].timer
    ensures forall a :: a in Addrs(c.timers[..k]) ==> a in c.heap
  {
    forall i, j | 0 <= i < j < k ensures c.timers[i].timer != c.timers[j].timer {
      assert c.timers[i] in c.timers && c.timers[j] in c.timers && Less(c.timers[i], c.timers[j]);
    }
  }

  lemma FireKeepsOwned(c: Core, c': Core, waiting: set<Addr>, k: nat)
    requires Index(c) && Owned(c, [], waiting, {}) && k <= |c.timers|
    requires c'.heap == c.heap && c'.active == c.active - Ids(c, c.timers[..k])
    ensures Owned(c', c.timers[..k], waiting, {})
  {
    DistinctTimers(c, k);
    forall a | a in c.heap
      ensures IsActive(c, a) <==> IsActive(c', a) || a in Addrs(c.timers[..k])
      ensures !(IsActive(c', a) && a in Addrs(c.timers[..k]))
    {
      FireHands(c, c', k, a);
    }
  }

  lemma StampOf(c: Core, entries: seq<Entry>, now: int, a: Addr)
    requires a in c.heap && (forall e :: e in entries ==> e.timer in c.heap)
    requires forall b :: b in c.heap && c.heap[b].sequence == c.heap[a].sequence ==> a == b
    ensures c.heap[a].sequence in Stamp(c, entries, now) <==> a in Addrs(entries)
    ensures forall n :: n in Stamp(c, entries, now) ==> Stamp(c, entries, now)[n] == now
  {
    if a in Addrs(entries) {
      var e :| e in entries && e.timer == a;
      assert (a, c.heap[a].sequence) in Ids(c, entries);
    }
  }

  lemma StampsCreated(c: Core, entries: seq<Entry>, now: int, h: History)
    requires Numbered(c.heap, h)
    ensures Numbered(c.heap, h.(last := h.last + Stamp(c, entries, now)))
  {
  }

  lemma AllDueLater(heap: map<Addr, Timer>, time: int, last: map<nat, int>)
    requires Spaced(heap, [], time, last, {})
    ensures forall a :: a in heap ==> DueLater(last, heap[a])
  {
    assert Addrs([]) == {};
  }

  lemma FireKeepsSpaced(c: Core, h: History, k: nat, now: int, time: int)
    requires Index(c) && k <= |c.timers| && Numbered(c.heap, h) && Spaced(c.heap, [], time, h.last, {})
    ensures Spaced(c.heap, c.timers[..k], now, h.last + Stamp(c, c.timers[..k], now), {})
  {
    AllDueLater(c.heap, time, h.last);
    DistinctTimers(c, k);
    forall a | a in c.heap
      ensures a in Addrs(c.timers[..k]) ==> LastIn(h.last + Stamp(c, c.timers[..k], now), c.heap[a].sequence, now)
      ensures a !in Addrs(c.timers[..k]) ==> DueLater(h.last + Stamp(c, c.timers[..k], now), c.heap[a])
    {
      StampOf(c, c.timers[..k], now, a);
    }
  }

  lemma FireKeepsAlarm(q: Queue)
    requires AlarmSet(q) && Sorted(q.core.timers) && (forall e :: e in q.core.timers ==> e.timer < MAX_ADDR)
    ensures AlarmSet(Fire(q))
  {
    DueSplits(q.core.timers, q.clock);
  }

  lemma FireKeepsInv(q: Queue)
    requires Inv(q) && q.phase.Idle?
    ensures Inv(Fire(q))
  {
    var k := Due(q.core.timers, q.clock);
    FireKeepsIndex(q);
    FireKeepsOwned(q.core, Fire(q).core, q.waiting, k);
    FireKeepsSpaced(q.core, q.hist, k, q.clock, q.batch.time);
    StampsCreated(q.core, q.core.timers[..k], q.clock, q.hist);
    FireKeepsCancel(q.core.heap, q.batch, Fire(q).batch, q.hist.cancelled);
    FireKeepsAlarm(q);
  }

  lemma FireKeepsCancel(heap: map<Addr, Timer>, b: Batch, b': Batch, cancelled: set<nat>)
    requires CancelHolds(heap, b, cancelled, {}) && b.entries == []
    ensures CancelHolds(heap, b', cancelled, {})
  {
    assert Addrs(b.entries) == {};
  }

  function Popped(q: Queue): Queue
    requires q.batch.entries != []
  {
    q.(batch := q.batch.(entries := q.batch.entries[1..]))
  }

  lemma PoppedAddrs(entries: seq<Entry>)
    requires entries != [] && forall i, j :: 0 <= i < j < |entries| ==> entries[i].timer != entries[j].timer
    ensures entries[0].timer in Addrs(entries) && Addrs(entries[1..]) == Addrs(entries) - {entries[0].timer}
  {
    assert entries == [entries[0]] + entries[1..];
  }

  lemma PopKeepsOwned(c: Core, entries: seq<Entry>, waiting: set<Addr>)
    requires Owned(c, entries, waiting, {}) && entries != []
    ensures Owned(c, entries[1..], waiting, {entries[0].timer})
  {
    PoppedAddrs(entries);
  }

  lemma PopKeepsHistory(heap: map<Addr, Timer>, b: Batch, b': Batch, h: History, a: Addr)
    requires CancelHolds(heap, b, h.cancelled, {}) && Spaced(heap, b.entries, b.time, h.last, {})
    requires b'.canceling == b.canceling && b'.time == b.time && Addrs(b'.entries) == Addrs(b.entries) - {a}
    ensures CancelHolds(heap, b', h.cancelled, {a}) && Spaced(heap, b'.entries, b'.time, h.last, {a})
  {
  }

  lemma PopKeepsSound(q: Queue, a: Addr)
    requires Sound(q, {}) && q.batch.entries != [] && a == q.batch.entries[0].timer
    ensures Sound(Popped(q), {a}) && a in q.core.heap
    ensures (a, q.core.heap[a].sequence) !in q.batch.canceling ==> q.core.heap[a].sequence !in q.hist.cancelled
    ensures LastIn(q.hist.last, q.core.heap[a].sequence, q.batch.time)
  {
    PoppedAddrs(q.batch.entries);
    PopKeepsOwned(q.core, q.batch.entries, q.waiting);
    PopKeepsHistory(q.core.heap, q.batch, Popped(q).batch, q.hist, a);
  }

  lemma RestartKeepsIndex(c: Core, a: Addr, t: Timer)
    requires Index(c) && a in c.heap && !IsActive(c, a) && t == c.heap[a].(expiration := t.expiration)
    ensures var c' := c.(heap := c.heap[a := t]); Index(c') && forall b :: IsActive(c', b) <==> IsActive(c, b)
  {
  }

  lemma RestartKeepsOwned(c: Core, c': Core, entries: seq<Entry>, waiting: set<Addr>, moving: set<Addr>)
    requires Owned(c, entries, waiting, moving) && c'.heap.Keys == c.heap.Keys
    requires forall b :: IsActive(c', b) <==> IsActive(c, b)
    ensures Owned(c', entries, waiting, moving)
  {
  }

  lemma RestartKeepsHistory(heap: map<Addr, Timer>, b: Batch, h: History, a: Addr, t: Timer)
    requires a in heap && t == heap[a].(expiration := t.expiration) && a !in Addrs(b.entries)
    requires Numbered(heap, h) && CancelHolds(heap, b, h.cancelled, {a}) && Spaced(heap, b.entries, b.time, h.last, {a})
    ensures Numbered(heap[a := t], h)
    ensures CancelHolds(heap[a := t], b, h.cancelled, {a}) && Spaced(heap[a := t], b.entries, b.time, h.last, {a})
  {
  }

  lemma RestartKeepsSound(q: Queue, a: Addr, t: Timer)
    requires Sound(q, {a}) && a in q.core.heap
    requires t == q.core.heap[a].(expiration := t.expiration)
    ensures Sound(q.(core := q.core.(heap := q.core.heap[a := t])), {a})
  {
    RestartKeepsIndex(q.core, a, t);
    RestartKeepsOwned(q.core, q.core.(heap := q.core.heap[a := t]), q.batch.entries, q.waiting, {a});
    RestartKeepsHistory(q.core.heap, q.batch, q.hist, a, t);
  }

  lemma RestartInsertKeepsSound(q: Queue, a: Addr, t: Timer)
    requires Sound(q, {a}) && a in q.core.heap && t.sequence !in q.hist.cancelled
    requires t == q.core.heap[a].(expiration := t.expiration) && DueLater(q.hist.last, t)
    ensures Sound(q.(core := Insert(q.core.(heap := q.core.heap[a := t]), a)), {})
  {
    RestartKeepsSound(q, a, t);
    InsertKeepsSound(q.(core := q.core.(heap := q.core.heap[a := t])), a);
  }

  lemma ResetKeepsSound(q: Queue)
    requires Sound(q, {}) && q.batch.entries != []
    ensures Sound(ResetNext(q), {})
  {
    var a := q.batch.entries[0].timer;
    PopKeepsSound(q, a);
    var t := q.core.heap[a];
    if Repeats(t) && (a, t.sequence) !in q.batch.canceling {
      RestartInsertKeepsSound(Popped(q), a, Restarted(t, q.batch.time));
    } else {
      FreeKeepsSound(Popped(q), a);
    }
  }

  lemma ResetKeepsAlarm(q: Queue)
    requires Inv(q) && q.phase.Resetting? && q.batch.entries != []
    ensures AlarmSet(ResetNext(q))
  {
  }

  lemma ResetKeepsInv(q: Queue)
    requires Inv(q) && q.phase.Resetting? && q.batch.entries != []
    ensures Inv(ResetNext(q))
  {
    ResetKeepsSound(q);
    ResetKeepsAlarm(q);
  }

  lemma RearmKeepsInv(q: Queue)
    requires Inv(q) && q.phase.Resetting? && q.batch.entries == []
    ensures Inv(Rearm(q))
  {
    SoundFrame(q, Rearm(q), {});
  }

  lemma RunKeepsInv(q: Queue)
    requires Inv(q) && Enabled(q, Run)
    ensures Inv(RunNext(q))
  {
    assert q.batch.entries[q.phase.next].timer in Addrs(q.batch.entries);
    assert RunNext(q).core == q.core;
    SoundFrame(q, RunNext(q), {});
  }

  lemma AddTimerKeepsInv(q: Queue, a: Addr, when: int, interval: real)
    requires Inv(q) && a !in q.core.heap && a < MAX_ADDR
    ensures Inv(AddTimerInLoop(Create(q, a, when, interval), a))
    ensures Inv(Create(q, a, when, interval).(waiting := q.waiting + {a}))
  {
    CreateKeepsSound(q, a, when, interval);
    AddKeepsInv(Create(q, a, when, interval), a);
    WaitKeepsSound(Create(q, a, when, interval), a);
  }

  lemma AddQueuedKeepsInv(q: Queue, a: Addr)
    requires Inv(q) && a in q.waiting
    ensures Inv(AddTimerInLoop(q.(waiting := q.waiting - {a}), a))
  {
    UnwaitKeepsSound(q, a);
    AddKeepsInv(q.(waiting := q.waiting - {a}), a);
  }

  lemma StepKeepsInv(q: Queue, e: Event)
    requires Inv(q) && Enabled(q, e)
    ensures Inv(Apply(q, e))
  {
    match e
    case Tick(now) => SoundFrame(q, Apply(q, e), {});
    case AddTimer(a, when, interval) => AddTimerKeepsInv(q, a, when, interval);
    case AddTimerElsewhere(a, when, interval) => AddTimerKeepsInv(q, a, when, interval);
    case AddQueued(a) => AddQueuedKeepsInv(q, a);
    case Cancel(id) => CancelKeepsInv(q, id);
    case Alarms => FireKeepsInv(q);
    case Run => RunKeepsInv(q);
    case RunsDone => SoundFrame(q, Apply(q, e), {});
    case Reset => ResetKeepsInv(q);
    case ResetDone => RearmKeepsInv(q);
  }

  lemma InvAlways(q: Queue, es: seq<Event>)
    requires Inv(q) && Legal(TIMERS, q, es)
    ensures Inv(Exec(TIMERS, q, es))
  {
    forall x, e | Inv(x) && TIMERS.enabled(x, e) ensures Inv(TIMERS.apply(x, e)) {
      StepKeepsInv(x, e);
    }
    Always(TIMERS, Inv, q, es);
  }

  // ----- what follows for every run -----

  lemma Reachable(clock: int, es: seq<Event>)
    requires clock > 0 && Legal(TIMERS, Fresh(clock), es)
    ensures Inv(Exec(TIMERS, Fresh(clock), es))
  {
    InvAlways(Fresh(clock), es);
  }

  lemma {:induction false} IdsCount(c: Core, entries: seq<Entry>)
    requires forall e :: e in entries ==> e.timer in c.heap
    requires forall i, j :: 0 <= i < j < |entries| ==> entries[i].timer != entries[j].timer
    ensures |Ids(c, entries)| == |entries|
  {
    if entries != [] {
      var init, last := entries[..|entries| - 1], entries[|entries| - 1];
      IdsCount(c, init);
      assert Ids(c, entries) == Ids(c, init) + {(last.timer, c.heap[last.timer].sequence)};
    }
  }

  /** assert(timers_.size() == activeTimers_.size()). */
  lemma SizesAgree(c: Core)
    requires Index(c)
    ensures |c.timers| == |c.active|
  {
    assert c.active == Ids(c, c.timers);
    forall i, j | 0 <= i < j < |c.timers| ensures c.timers[i].timer != c.timers[j].timer {
      assert c.timers[i] in c.timers && c.timers[j] in c.timers && Less(c.timers[i], c.timers[j]);
    }
    IdsCount(c, c.timers);
  }

  /** After any run: the two sets agree, no freed timer has been touched and no
      assert has failed, and nothing was freed twice or is still alive. */
  lemma MemorySafe(clock: int, es: seq<Event>)
    requires clock > 0 && Legal(TIMERS, Fresh(clock), es)
    ensures var q := Exec(TIMERS, Fresh(clock), es);
            && !q.core.bad && Index(q.core) && |q.core.timers| == |q.core.active|
            && (forall i, j :: 0 <= i < j < |q.hist.freed| ==> q.hist.freed[i] != q.hist.freed[j])
            && (forall a :: a in q.core.heap ==> q.core.heap[a].sequence !in q.hist.freed)
  {
    Reachable(clock, es);
    SizesAgree(Exec(TIMERS, Fresh(clock), es).core);
  }

  /** Outside handleRead a timer waits, and the alarm is not set, or for later than
      that timer and than 100 microseconds from when it was set. */
  predicate Stranded(q: Queue) {
    && q.phase.Idle? && q.core.timers != []
    && (q.alarm.deadline.None? || q.alarm.deadline.value > Max(q.core.timers[0].when, q.alarm.armedAt + 100))
  }

  lemma NotStranded(q: Queue)
    requires AlarmSet(q)
    ensures !Stranded(q)
  {
  }

  /** After any run, whatever the expirations: the alarm will go off. */
  lemma AlarmNeverStranded(clock: int, es: seq<Event>)
    requires clock > 0 && Legal(TIMERS, Fresh(clock), es)
    ensures !Stranded(Exec(TIMERS, Fresh(clock), es))
  {
    Reachable(clock, es);
    NotStranded(Exec(TIMERS, Fresh(clock), es));
  }

  /** Whatever the id, cancelling touches no timer but the one it was given for,
      even if another now lives at its address. */
  lemma CancelTouchesOnlyItsOwn(q: Queue, id: TimerId, a: Addr)
    requires Inv(q) && a in q.core.heap && q.core.heap[a].sequence != id.1
    ensures var q' := CancelInLoop(q, id);
            && a in q'.core.heap && q'.core.heap[a] == q.core.heap[a]
            && (IsActive(q'.core, a) <==> IsActive(q.core, a))
            && q'.batch.entries == q.batch.entries
            && ((a, q.core.heap[a].sequence) in q'.batch.canceling
                <==> (a, q.core.heap[a].sequence) in q.batch.canceling)
  {
  }

  lemma DueExactly(ts: seq<Entry>, now: int)
    requires Sorted(ts) && forall e :: e in ts ==> e.timer < MAX_ADDR
    ensures var k := Due(ts, now);
            && ts == ts[..k] + ts[k..] && Sorted(ts[..k])
            && (forall e :: e in ts[..k] ==> e.when <= now) && (forall e :: e in ts[k..] ==> e.when > now)
  {
    DueSplits(ts, now);
  }

  /** getExpired takes exactly the timers due now, in the order of their times. The alarm
      is used up, and no cancellation is remembered from before. */
  lemma ExpiredExactly(q: Queue)
    requires Inv(q) && q.phase.Idle?
    ensures var q' := Fire(q);
            && q.core.timers == q'.batch.entries + q'.core.timers && Sorted(q'.batch.entries)
            && (forall e :: e in q'.batch.entries ==> e.when <= q.clock)
            && (forall e :: e in q'.core.timers ==> e.when > q.clock)
            && q'.phase == Calling(0) && q'.batch.time == q.clock && q'.batch.canceling == {}
            && q'.alarm.deadline == None && q'.core.heap == q.core.heap
  {
    DueExactly(q.core.timers, q.clock);
  }

  /** If the timer has been in a batch before, that was its interval ago or more. */
  predicate LongAgo(last: map<nat, int>, t: Timer, now: int) {
    t.sequence in last ==> last[t.sequence] + Micros(t.interval) <= now
  }

  /** The batch that starts now has none too early, and becomes the last of each. */
  predicate BatchSpaced(q: Queue) {
    forall e :: e in Fire(q).batch.entries ==>
      && e.timer in q.core.heap && LongAgo(q.hist.last, q.core.heap[e.timer], q.clock)
      && LastIn(Fire(q).hist.last, q.core.heap[e.timer].sequence, q.clock)
  }

  lemma DueLongAgo(c: Core, last: map<nat, int>, k: nat, now: int, e: Entry)
    requires Index(c) && k <= |c.timers| && (forall a :: a in c.heap ==> DueLater(last, c.heap[a]))
    requires e in c.timers[..k] && e.when <= now
    ensures e.timer in c.heap && LongAgo(last, c.heap[e.timer], now) && e.timer in Addrs(c.timers[..k])
  {
    assert e in c.timers;
  }

  lemma BatchIsSpaced(q: Queue)
    requires Inv(q) && q.phase.Idle?
    ensures BatchSpaced(q)
  {
    var k := Due(q.core.timers, q.clock);
    DueExactly(q.core.timers, q.clock);
    FireKeepsSpaced(q.core, q.hist, k, q.clock, q.batch.time);
    AllDueLater(q.core.heap, q.batch.time, q.hist.last);
    forall e | e in q.core.timers[..k]
      ensures e.timer in q.core.heap && LongAgo(q.hist.last, q.core.heap[e.timer], q.clock)
      ensures LastIn(q.hist.last + Stamp(q.core, q.core.timers[..k], q.clock), q.core.heap[e.timer].sequence, q.clock)
    {
      DueLongAgo(q.core, q.hist.last, k, q.clock, e);
    }
  }

  /** Two batches with the same timer are its interval apart, whatever else runs. */
  lemma BatchesAreSpaced(clock: int, es: seq<Event>)
    requires clock > 0 && Legal(TIMERS, Fresh(clock), es) && Enabled(Exec(TIMERS, Fresh(clock), es), Alarms)
    ensures BatchSpaced(Exec(TIMERS, Fresh(clock), es))
  {
    Reachable(clock, es);
    BatchIsSpaced(Exec(TIMERS, Fresh(clock), es));
  }

  // ----- reset as a whole -----

  lemma ResetFrame(q: Queue)
    requires q.batch.entries != []
    ensures var q' := ResetNext(q);
            && q'.phase == q.phase && q'.clock == q.clock && q'.batch.time == q.batch.time
            && q'.batch.entries == q.batch.entries[1..] && ResetAll(q') == ResetAll(q)
  {
  }

  /** What is left of reset from here on. */
  function ResetAll(q: Queue): Queue
    decreases |q.batch.entries|
  {
    if q.batch.entries == [] then Rearm(q) else ResetAll(ResetNext(q))
  }

  lemma {:induction false} ResetAllIsRun(q: Queue) returns (es: seq<Event>)
    requires q.phase.Resetting?
    ensures Legal(TIMERS, q, es) && Exec(TIMERS, q, es) == ResetAll(q)
    decreases |q.batch.entries|
  {
    if q.batch.entries == [] {
      es := [ResetDone];
      Snoc(TIMERS, q, [], ResetDone);
      assert [] + [ResetDone] == [ResetDone];
    } else {
      ResetFrame(q);
      var fs := ResetAllIsRun(ResetNext(q));
      es := [Reset] + fs;
      Snoc(TIMERS, q, [], Reset);
      assert [] + [Reset] == [Reset];
      Compose(TIMERS, q, [Reset], fs);
    }
  }
}
