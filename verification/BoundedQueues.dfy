/** base/BoundedBlockingQueue.h: put and take as a monitor with two conditions.

    A step is what a thread does from acquiring the mutex to releasing it, by
    returning or by waiting. notify wakes one waiting thread, any one; a wait may
    also end by itself. A woken thread must acquire the mutex again and test again. */
module BoundedQueues {
  import opened Machines
  import opened Options

  type Thread = nat

  /** items: what each blocked producer has to put; puts, takes: all items that
      went in and came out, in order. */
  datatype Monitor<T> = Monitor(
    capacity: nat,
    queue: seq<T>,
    items: map<Thread, T>,
    sleepingProducers: set<Thread>,   // waiting on notFull_
    wokenProducers: set<Thread>,
    sleepingConsumers: set<Thread>,   // waiting on notEmpty_
    wokenConsumers: set<Thread>,
    puts: seq<T>,
    takes: seq<T>)

  /** heir: the thread a notify would wake. */
  datatype Event<T> =
    | Put(t: Thread, x: T, heir: Thread)
    | Take(t: Thread, heir: Thread)
    | PutAgain(t: Thread, heir: Thread)
    | TakeAgain(t: Thread, heir: Thread)
    | Wake(t: Thread)                     // without a notify

  predicate Blocked<T>(s: Monitor<T>, t: Thread) {
    t in s.sleepingProducers || t in s.wokenProducers || t in s.sleepingConsumers || t in s.wokenConsumers
  }

  predicate Heir(sleepers: set<Thread>, heir: Thread) {
    sleepers != {} ==> heir in sleepers
  }

  predicate Enabled<T>(s: Monitor<T>, e: Event<T>) {
    match e
    case Put(t, _, heir) => !Blocked(s, t) && Heir(s.sleepingConsumers, heir)
    case Take(t, heir) => !Blocked(s, t) && Heir(s.sleepingProducers, heir)
    case PutAgain(t, heir) => t in s.wokenProducers && t in s.items && Heir(s.sleepingConsumers, heir)
    case TakeAgain(t, heir) => t in s.wokenConsumers && Heir(s.sleepingProducers, heir)
    case Wake(t) => t in s.sleepingProducers || t in s.sleepingConsumers
  }

  /** notEmpty_.notify() */
  function NotifyConsumer<T>(s: Monitor<T>, heir: Thread): Monitor<T> {
    if heir !in s.sleepingConsumers then s
    else s.(sleepingConsumers := s.sleepingConsumers - {heir}, wokenConsumers := s.wokenConsumers + {heir})
  }

  /** notFull_.notify() */
  function NotifyProducer<T>(s: Monitor<T>, heir: Thread): Monitor<T> {
    if heir !in s.sleepingProducers then s
    else s.(sleepingProducers := s.sleepingProducers - {heir}, wokenProducers := s.wokenProducers + {heir})
  }

  /** put, from its test of full() on. */
  function TryPut<T>(s: Monitor<T>, t: Thread, x: T, heir: Thread): Monitor<T> {
    if |s.queue| == s.capacity then s.(sleepingProducers := s.sleepingProducers + {t}, items := s.items[t := x])
    else NotifyConsumer(s.(queue := s.queue + [x], puts := s.puts + [x]), heir)
  }

  function TryTake<T>(s: Monitor<T>, t: Thread, heir: Thread): Monitor<T> {
    if s.queue == [] then s.(sleepingConsumers := s.sleepingConsumers + {t})
    else NotifyProducer(s.(queue := s.queue[1..], takes := s.takes + [s.queue[0]]), heir)
  }

  function Apply<T>(s: Monitor<T>, e: Event<T>): Monitor<T> {
    match e
    case Put(t, x, heir) => TryPut(s, t, x, heir)
    case Take(t, heir) => TryTake(s, t, heir)
    case PutAgain(t, heir) =>
      if t !in s.items then s
      else TryPut(s.(wokenProducers := s.wokenProducers - {t}), t, s.items[t], heir)
    case TakeAgain(t, heir) => TryTake(s.(wokenConsumers := s.wokenConsumers - {t}), t, heir)
    case Wake(t) => NotifyProducer(NotifyConsumer(s, t), t)
  }

  function Queue<T>(): Machine<Monitor<T>, Event<T>> {
    Machine((s: Monitor<T>, e: Event<T>) => Enabled(s, e), (s: Monitor<T>, e: Event<T>) => Apply(s, e))
  }

  function Fresh<T>(capacity: nat): Monitor<T> {
    Monitor(capacity, [], map[], {}, {}, {}, {}, [], [])
  }

  /** A blocked thread is in one place, and a producer knows its item. */
  predicate Separate<T>(s: Monitor<T>) {
    && s.sleepingProducers !! s.wokenProducers && s.sleepingConsumers !! s.wokenConsumers
    && s.sleepingProducers !! s.sleepingConsumers && s.sleepingProducers !! s.wokenConsumers
    && s.wokenProducers !! s.sleepingConsumers && s.wokenProducers !! s.wokenConsumers
    && (forall t :: t in s.sleepingProducers ==> t in s.items)
    && (forall t :: t in s.wokenProducers ==> t in s.items)
  }

  /** If anyone sleeps, there is no more to be had than the woken will take; but for
      the one item, or slot, that a thread just scheduled may be about to take. */
  predicate Covered<T>(s: Monitor<T>, comingProducers: nat, comingConsumers: nat) {
    && (s.sleepingConsumers != {} ==> |s.queue| <= |s.wokenConsumers| + comingConsumers)
    && (s.sleepingProducers != {} ==> s.capacity - |s.queue| <= |s.wokenProducers| + comingProducers)
  }

  predicate Fair<T(==)>(s: Monitor<T>) {
    |s.queue| <= s.capacity && s.puts == s.takes + s.queue
  }

  predicate Inv<T(==)>(s: Monitor<T>) {
    Fair(s) && Separate(s) && Covered(s, 0, 0)
  }

  lemma NotifyConsumerCovers<T>(s: Monitor<T>, heir: Thread)
    requires Fair(s) && Separate(s) && Heir(s.sleepingConsumers, heir) && Covered(s, 0, 1)
    ensures Inv(NotifyConsumer(s, heir))
  {
  }

  lemma NotifyProducerCovers<T>(s: Monitor<T>, heir: Thread)
    requires Fair(s) && Separate(s) && Heir(s.sleepingProducers, heir) && Covered(s, 1, 0)
    ensures Inv(NotifyProducer(s, heir))
  {
  }

  lemma PutKeepsInv<T>(s: Monitor<T>, t: Thread, x: T, heir: Thread)
    requires Fair(s) && Separate(s) && Covered(s, 1, 0)
    requires !Blocked(s, t) && Heir(s.sleepingConsumers, heir)
    ensures Inv(TryPut(s, t, x, heir))
  {
    if |s.queue| < s.capacity {
      assert s.puts + [x] == s.takes + (s.queue + [x]);
      NotifyConsumerCovers(s.(queue := s.queue + [x], puts := s.puts + [x]), heir);
    }
  }

  lemma TakeKeepsInv<T>(s: Monitor<T>, t: Thread, heir: Thread)
    requires Fair(s) && Separate(s) && Covered(s, 0, 1)
    requires !Blocked(s, t) && Heir(s.sleepingProducers, heir)
    ensures Inv(TryTake(s, t, heir))
  {
    if s.queue != [] {
      assert s.queue == [s.queue[0]] + s.queue[1..];
      assert s.puts == (s.takes + [s.queue[0]]) + s.queue[1..];
      NotifyProducerCovers(s.(queue := s.queue[1..], takes := s.takes + [s.queue[0]]), heir);
    }
  }

  lemma WakeKeepsInv<T>(s: Monitor<T>, t: Thread)
    requires Inv(s)
    ensures Inv(NotifyProducer(NotifyConsumer(s, t), t))
  {
    if t in s.sleepingConsumers {
      NotifyConsumerCovers(s, t);
    } else if t in s.sleepingProducers {
      NotifyProducerCovers(s, t);
    }
  }

  lemma PutAgainKeepsInv<T>(s: Monitor<T>, t: Thread, heir: Thread)
    requires Inv(s) && Enabled(s, PutAgain(t, heir))
    ensures Inv(TryPut(s.(wokenProducers := s.wokenProducers - {t}), t, s.items[t], heir))
  {
    PutKeepsInv(s.(wokenProducers := s.wokenProducers - {t}), t, s.items[t], heir);
  }

  lemma TakeAgainKeepsInv<T>(s: Monitor<T>, t: Thread, heir: Thread)
    requires Inv(s) && Enabled(s, TakeAgain(t, heir))
    ensures Inv(TryTake(s.(wokenConsumers := s.wokenConsumers - {t}), t, heir))
  {
    TakeKeepsInv(s.(wokenConsumers := s.wokenConsumers - {t}), t, heir);
  }

  lemma StepKeepsInv<T>(s: Monitor<T>, e: Event<T>)
    requires Inv(s) && Enabled(s, e)
    ensures Inv(Apply(s, e)) && Apply(s, e).capacity == s.capacity
  {
    match e
    case Put(t, x, heir) => PutKeepsInv(s, t, x, heir);
    case Take(t, heir) => TakeKeepsInv(s, t, heir);
    case PutAgain(t, heir) => PutAgainKeepsInv(s, t, heir);
    case TakeAgain(t, heir) => TakeAgainKeepsInv(s, t, heir);
    case Wake(t) => WakeKeepsInv(s, t);
  }

  lemma InvAlways<T(!new)>(capacity: nat, es: seq<Event<T>>)
    requires Legal(Queue(), Fresh<T>(capacity), es)
    ensures Inv(Exec(Queue(), Fresh<T>(capacity), es))
    ensures Exec(Queue(), Fresh<T>(capacity), es).capacity == capacity
  {
    var inv := (x: Monitor<T>) => Inv(x) && x.capacity == capacity;
    var m: Machine<Monitor<T>, Event<T>> := Queue();
    forall x, e | inv(x) && m.enabled(x, e) ensures inv(m.apply(x, e)) {
      StepKeepsInv(x, e);
    }
    Always(m, inv, Fresh<T>(capacity), es);
  }

  /** After any run: never more than capacity items, and what comes out is what
      went in, in order, each item once. */
  lemma Fifo<T(!new)>(capacity: nat, es: seq<Event<T>>)
    requires Legal(Queue(), Fresh<T>(capacity), es)
    ensures var s := Exec(Queue(), Fresh<T>(capacity), es);
            |s.queue| <= capacity && s.puts == s.takes + s.queue
  {
    InvAlways(capacity, es);
  }

  /** After any run: while a consumer sleeps there are no more items than woken
      consumers on their way to them, and while a producer sleeps no more free slots
      than woken producers. */
  lemma NobodyOversleeps<T(!new)>(capacity: nat, es: seq<Event<T>>)
    requires Legal(Queue(), Fresh<T>(capacity), es)
    ensures var s := Exec(Queue(), Fresh<T>(capacity), es);
            && (s.sleepingConsumers != {} ==> |s.queue| <= |s.wokenConsumers|)
            && (s.sleepingProducers != {} ==> capacity - |s.queue| <= |s.wokenProducers|)
  {
    InvAlways(capacity, es);
  }

  /** Producers and consumers wait for each other and nobody is awake to change it. */
  predicate Deadlocked<T>(s: Monitor<T>) {
    && s.sleepingProducers != {} && s.sleepingConsumers != {}
    && s.wokenProducers == {} && s.wokenConsumers == {}
  }

  /** No run deadlocks, exactly if there is room for one item. */
  lemma NoDeadlock<T(!new)>(capacity: nat, x: T)
    ensures (forall es: seq<Event<T>> ::
               Legal(Queue(), Fresh(capacity), es) ==> !Deadlocked(Exec(Queue(), Fresh(capacity), es)))
        <==> capacity >= 1
  {
    if capacity >= 1 {
      forall es: seq<Event<T>> | Legal(Queue(), Fresh(capacity), es)
        ensures !Deadlocked(Exec(Queue(), Fresh(capacity), es))
      {
        InvAlways(capacity, es);
      }
    } else {
      Two(Queue(), Fresh(capacity), Put(0, x, 0), Take(1, 0));
      assert Deadlocked(Exec(Queue(), Fresh(capacity), [Put(0, x, 0), Take(1, 0)]));
    }
  }

  // ----- put and take as wholes -----

  /** What the other threads do while a thread waits, until it has the mutex again;
      heir is the thread its notify would then wake. */
  datatype Wait<T> = Wait(others: seq<Event<T>>, heir: Thread)

  /** The step is not one of this thread; to wake it is another's. */
  predicate NotBy<T>(e: Event<T>, t: Thread) {
    e.Wake? || e.t != t
  }

  predicate NoneBy<T>(es: seq<Event<T>>, t: Thread) {
    forall i :: 0 <= i < |es| ==> NotBy(es[i], t)
  }

  /** put with these waits: a first test, and one after each. */
  function PutRun<T>(t: Thread, x: T, heir: Thread, waits: seq<Wait<T>>): seq<Event<T>> {
    if waits == [] then [Put(t, x, heir)]
    else
      var w := waits[|waits| - 1];
      PutRun(t, x, heir, waits[..|waits| - 1]) + w.others + [PutAgain(t, w.heir)]
  }

  function TakeRun<T>(t: Thread, heir: Thread, waits: seq<Wait<T>>): seq<Event<T>> {
    if waits == [] then [Take(t, heir)]
    else
      var w := waits[|waits| - 1];
      TakeRun(t, heir, waits[..|waits| - 1]) + w.others + [TakeAgain(t, w.heir)]
  }

  /** The heir of the last test. */
  function LastHeir<T>(heir: Thread, waits: seq<Wait<T>>): Thread {
    if waits == [] then heir else waits[|waits| - 1].heir
  }

  lemma ItemStays<T>(s: Monitor<T>, e: Event<T>, t: Thread, x: T)
    requires t in s.items && s.items[t] == x && NotBy(e, t)
    ensures t in Apply(s, e).items && Apply(s, e).items[t] == x
  {
  }

  lemma {:induction false} ItemKept<T>(s: Monitor<T>, es: seq<Event<T>>, t: Thread, x: T)
    requires t in s.items && s.items[t] == x && NoneBy(es, t)
    ensures var s' := Exec(Queue(), s, es); t in s'.items && s'.items[t] == x
    decreases |es|
  {
    if es != [] {
      ItemKept(s, es[..|es| - 1], t, x);
      ItemStays(Exec(Queue(), s, es[..|es| - 1]), es[|es| - 1], t, x);
    }
  }

  /** A producer, or a consumer, that has waited has the mutex and will test again. */
  function ProducerBack<T>(s: Monitor<T>, t: Thread): Monitor<T> {
    s.(wokenProducers := s.wokenProducers - {t})
  }

  function ConsumerBack<T>(s: Monitor<T>, t: Thread): Monitor<T> {
    s.(wokenConsumers := s.wokenConsumers - {t})
  }

  lemma PutRunNext<T>(s: Monitor<T>, t: Thread, x: T, heir: Thread, waits: seq<Wait<T>>, i: nat)
    requires i < |waits| && NoneBy(waits[i].others, t)
    requires Legal(Queue(), s, PutRun(t, x, heir, waits[..i + 1]))
    ensures var r := PutRun(t, x, heir, waits[..i]); var before := Exec(Queue(), s, r);
            var woken := Exec(Queue(), before, waits[i].others);
            && Legal(Queue(), s, r) && Legal(Queue(), before, waits[i].others) && t in woken.wokenProducers
            && Exec(Queue(), s, PutRun(t, x, heir, waits[..i + 1])) == Apply(woken, PutAgain(t, waits[i].heir))
  {
    assert waits[..i + 1][..i] == waits[..i];
    var r, w := PutRun(t, x, heir, waits[..i]), waits[i];
    Snoc(Queue(), s, r + w.others, PutAgain(t, w.heir));
    Compose(Queue(), s, r, w.others);
  }

  lemma TakeRunNext<T>(s: Monitor<T>, t: Thread, heir: Thread, waits: seq<Wait<T>>, i: nat)
    requires i < |waits| && Legal(Queue(), s, TakeRun(t, heir, waits[..i + 1]))
    ensures var r := TakeRun(t, heir, waits[..i]); var before := Exec(Queue(), s, r);
            var woken := Exec(Queue(), before, waits[i].others);
            && Legal(Queue(), s, r) && Legal(Queue(), before, waits[i].others) && t in woken.wokenConsumers
            && Exec(Queue(), s, TakeRun(t, heir, waits[..i + 1])) == Apply(woken, TakeAgain(t, waits[i].heir))
  {
    assert waits[..i + 1][..i] == waits[..i];
    var r, w := TakeRun(t, heir, waits[..i]), waits[i];
    Snoc(Queue(), s, r + w.others, TakeAgain(t, w.heir));
    Compose(Queue(), s, r, w.others);
  }

  lemma PutRunStart<T>(s: Monitor<T>, t: Thread, x: T, heir: Thread, waits: seq<Wait<T>>)
    ensures waits[..0] == [] && TryPut(s, t, x, heir) == Exec(Queue(), s, PutRun(t, x, heir, waits[..0]))
  {
    assert waits[..0] == [];
    Snoc(Queue(), s, [], Put(t, x, heir));
    assert [] + [Put(t, x, heir)] == [Put(t, x, heir)];
  }

  lemma TakeRunStart<T>(s: Monitor<T>, t: Thread, heir: Thread, waits: seq<Wait<T>>)
    ensures waits[..0] == [] && TryTake(s, t, heir) == Exec(Queue(), s, TakeRun(t, heir, waits[..0]))
  {
    assert waits[..0] == [];
    Snoc(Queue(), s, [], Event.Take(t, heir));
    assert [] + [Event<T>.Take(t, heir)] == [Event.Take(t, heir)];
  }

  /** Each of these waits was one if all of them were. */
  lemma {:induction false} PutRunLegal<T>(s: Monitor<T>, t: Thread, x: T, heir: Thread, waits: seq<Wait<T>>, k: nat)
    requires k <= |waits| && Legal(Queue(), s, PutRun(t, x, heir, waits))
    ensures Legal(Queue(), s, PutRun(t, x, heir, waits[..k]))
    decreases |waits|
  {
    if k == |waits| {
      assert waits[..k] == waits;
    } else {
      var init, w := waits[..|waits| - 1], waits[|waits| - 1];
      var r := PutRun(t, x, heir, init);
      Snoc(Queue(), s, r + w.others, PutAgain(t, w.heir));
      Compose(Queue(), s, r, w.others);
      PutRunLegal(s, t, x, heir, init, k);
      assert init[..k] == waits[..k];
    }
  }

  lemma {:induction false} TakeRunLegal<T>(s: Monitor<T>, t: Thread, heir: Thread, waits: seq<Wait<T>>, k: nat)
    requires k <= |waits| && Legal(Queue(), s, TakeRun(t, heir, waits))
    ensures Legal(Queue(), s, TakeRun(t, heir, waits[..k]))
    decreases |waits|
  {
    if k == |waits| {
      assert waits[..k] == waits;
    } else {
      var init, w := waits[..|waits| - 1], waits[|waits| - 1];
      var r := TakeRun(t, heir, init);
      Snoc(Queue(), s, r + w.others, TakeAgain(t, w.heir));
      Compose(Queue(), s, r, w.others);
      TakeRunLegal(s, t, heir, init, k);
      assert init[..k] == waits[..k];
    }
  }

  /** m is the monitor when the test is made for the n-th time, counted from 0. */
  ghost predicate PutTests<T(!new)>(s: Monitor<T>, m: Monitor<T>, t: Thread, x: T, heir: Thread,
                                    waits: seq<Wait<T>>, n: nat)
    requires n <= |waits|
  {
    TryPut(m, t, x, LastHeir(heir, waits[..n])) == Exec(Queue(), s, PutRun(t, x, heir, waits[..n]))
  }

  ghost predicate TakeTests<T(!new)>(s: Monitor<T>, m: Monitor<T>, t: Thread, heir: Thread, waits: seq<Wait<T>>, n: nat)
    requires n <= |waits|
  {
    TryTake(m, t, LastHeir(heir, waits[..n])) == Exec(Queue(), s, TakeRun(t, heir, waits[..n]))
  }

  lemma PutWaits<T(!new)>(s: Monitor<T>, m: Monitor<T>, t: Thread, x: T, heir: Thread, waits: seq<Wait<T>>, n: nat)
    requires n < |waits| && Legal(Queue(), s, PutRun(t, x, heir, waits)) && NoneBy(waits[n].others, t)
    requires PutTests(s, m, t, x, heir, waits, n) && |m.queue| == m.capacity
    ensures var asleep := TryPut(m, t, x, LastHeir(heir, waits[..n]));
            && Legal(Queue(), asleep, waits[n].others)
            && t in Exec(Queue(), asleep, waits[n].others).wokenProducers
            && PutTests(s, ProducerBack(Exec(Queue(), asleep, waits[n].others), t), t, x, heir, waits, n + 1)
  {
    PutRunLegal(s, t, x, heir, waits, n + 1);
    PutRunNext(s, t, x, heir, waits, n);
    ItemKept(TryPut(m, t, x, LastHeir(heir, waits[..n])), waits[n].others, t, x);
  }

  lemma TakeWaits<T(!new)>(s: Monitor<T>, m: Monitor<T>, t: Thread, heir: Thread, waits: seq<Wait<T>>, n: nat)
    requires n < |waits| && Legal(Queue(), s, TakeRun(t, heir, waits))
    requires TakeTests(s, m, t, heir, waits, n) && m.queue == []
    ensures var asleep := TryTake(m, t, LastHeir(heir, waits[..n]));
            && Legal(Queue(), asleep, waits[n].others)
            && t in Exec(Queue(), asleep, waits[n].others).wokenConsumers
            && TakeTests(s, ConsumerBack(Exec(Queue(), asleep, waits[n].others), t), t, heir, waits, n + 1)
  {
    TakeRunLegal(s, t, heir, waits, n + 1);
    TakeRunNext(s, t, heir, waits, n);
  }

  // ----- the class -----

  /** A producer that has the mutex and is about to test: blocked nowhere, and the
      slot that may be meant for it is not yet taken. */
  predicate AboutToPut<T(==)>(s: Monitor<T>, t: Thread) {
    Fair(s) && Separate(s) && Covered(s, 1, 0) && !Blocked(s, t)
  }

  predicate AboutToTake<T(==)>(s: Monitor<T>, t: Thread) {
    Fair(s) && Separate(s) && Covered(s, 0, 1) && !Blocked(s, t)
  }

  lemma {:induction false} RunKeepsInv<T(!new)>(s: Monitor<T>, es: seq<Event<T>>)
    requires Inv(s) && Legal(Queue(), s, es)
    ensures Inv(Exec(Queue(), s, es))
    decreases |es|
  {
    if es != [] {
      RunKeepsInv(s, es[..|es| - 1]);
      StepKeepsInv(Exec(Queue(), s, es[..|es| - 1]), es[|es| - 1]);
    }
  }

  lemma ProducerReturns<T>(s: Monitor<T>, t: Thread)
    requires Inv(s) && t in s.wokenProducers
    ensures AboutToPut(ProducerBack(s, t), t)
  {
  }

  lemma ConsumerReturns<T>(s: Monitor<T>, t: Thread)
    requires Inv(s) && t in s.wokenConsumers
    ensures AboutToTake(ConsumerBack(s, t), t)
  {
  }

  /** The queue, and who waits on its two conditions or has been woken. */
  class BoundedBlockingQueue<T(!new)> {
    const maxSize: nat
    var queue: seq<T>
    var items: map<Thread, T>
    var sleepingProducers: set<Thread>
    var wokenProducers: set<Thread>
    var sleepingConsumers: set<Thread>
    var wokenConsumers: set<Thread>
    ghost var puts: seq<T>
    ghost var takes: seq<T>

    ghost function Model(): Monitor<T>
      reads this
    {
      Monitor(maxSize, queue, items, sleepingProducers, wokenProducers, sleepingConsumers, wokenConsumers, puts, takes)
    }

    constructor (maxSize: nat)
      ensures Model() == Fresh(maxSize) && Inv(Model())
    {
      this.maxSize := maxSize;
      queue, items, puts, takes := [], map[], [], [];
      sleepingProducers, wokenProducers, sleepingConsumers, wokenConsumers := {}, {}, {}, {};
    }

    method NotifyNotEmpty(heir: Thread)
      modifies this`sleepingConsumers, this`wokenConsumers
      ensures Model() == NotifyConsumer(old(Model()), heir)
    {
      if heir in sleepingConsumers {
        sleepingConsumers := sleepingConsumers - {heir};
        wokenConsumers := wokenConsumers + {heir};
      }
    }

    method NotifyNotFull(heir: Thread)
      modifies this`sleepingProducers, this`wokenProducers
      ensures Model() == NotifyProducer(old(Model()), heir)
    {
      if heir in sleepingProducers {
        sleepingProducers := sleepingProducers - {heir};
        wokenProducers := wokenProducers + {heir};
      }
    }

    /** What put does once it tests: it sleeps, or pushes and notifies. */
    method PutOnce(t: Thread, x: T, heir: Thread) returns (done: bool)
      modifies this
      ensures Model() == TryPut(old(Model()), t, x, heir) && (done <==> old(|queue|) != maxSize)
      ensures queue == if done then old(queue) + [x] else old(queue)
      ensures old(AboutToPut(Model(), t) && Heir(sleepingConsumers, heir)) ==> Inv(Model())
    {
      ghost var s := Model();
      if AboutToPut(s, t) && Heir(s.sleepingConsumers, heir) {
        PutKeepsInv(s, t, x, heir);
      }
      done := |queue| != maxSize;
      if done {
        queue, puts := queue + [x], puts + [x];
        NotifyNotEmpty(heir);
      } else {
        sleepingProducers, items := sleepingProducers + {t}, items[t := x];
      }
    }

    /** What take does once it tests; none if it sleeps. */
    method TakeOnce(t: Thread, heir: Thread) returns (front: Option<T>)
      modifies this
      ensures Model() == TryTake(old(Model()), t, heir) && (front.Some? <==> old(queue) != [])
      ensures if front.Some? then [front.value] + queue == old(queue) else queue == old(queue)
      ensures old(AboutToTake(Model(), t) && Heir(sleepingProducers, heir)) ==> Inv(Model())
    {
      ghost var s := Model();
      if AboutToTake(s, t) && Heir(s.sleepingProducers, heir) {
        TakeKeepsInv(s, t, heir);
      }
      if |queue| != 0 {
        front := Some(queue[0]);
        queue, takes := queue[1..], takes + [queue[0]];
        NotifyNotFull(heir);
      } else {
        front := None;
        sleepingConsumers := sleepingConsumers + {t};
      }
    }

    /** A step of another thread. */
    method Step(e: Event<T>)
      modifies this
      ensures Model() == Apply(old(Model()), e)
    {
      match e
      case Put(t, x, heir) => var done := PutOnce(t, x, heir);
      case Take(t, heir) => var front := TakeOnce(t, heir);
      case PutAgain(t, heir) =>
        if t in items {
          wokenProducers := wokenProducers - {t};
          var done := PutOnce(t, items[t], heir);
        }
      case TakeAgain(t, heir) =>
        wokenConsumers := wokenConsumers - {t};
        var front := TakeOnce(t, heir);
      case Wake(t) =>
        NotifyNotEmpty(t);
        NotifyNotFull(t);
    }

    /** What goes on while a thread waits. */
    method Others(es: seq<Event<T>>)
      modifies this
      ensures Model() == Exec(Queue(), old(Model()), es)
    {
      ghost var s := Model();
      for i := 0 to |es|
        invariant Model() == Exec(Queue(), s, es[..i])
      {
        assert es[..i + 1] == es[..i] + [es[i]];
        Snoc(Queue(), s, es[..i], es[i]);
        Step(es[i]);
      }
      assert es[..|es|] == es;
    }

    /** notFull_.wait(): asleep until woken, whatever the others do, and then with the
        mutex again: blocked nowhere, with its item, and ready to test. */
    method WaitNotFull(t: Thread, x: T, ghost heir: Thread, others: seq<Event<T>>)
      requires |queue| == maxSize && AboutToPut(Model(), t) && NoneBy(others, t)
      requires Legal(Queue(), TryPut(Model(), t, x, heir), others)
      requires t in Exec(Queue(), TryPut(Model(), t, x, heir), others).wokenProducers
      modifies this
      ensures Model() == ProducerBack(Exec(Queue(), TryPut(old(Model()), t, x, heir), others), t)
      ensures AboutToPut(Model(), t) && t in items && items[t] == x
    {
      ghost var asleep := TryPut(Model(), t, x, heir);
      SleepKeepsInv(Model(), t, x, heir);
      RunKeepsInv(asleep, others);
      ItemKept(asleep, others, t, x);
      ProducerReturns(Exec(Queue(), asleep, others), t);
      sleepingProducers, items := sleepingProducers + {t}, items[t := x];
      Others(others);
      wokenProducers := wokenProducers - {t};
    }

    /** notEmpty_.wait() */
    method WaitNotEmpty(t: Thread, ghost heir: Thread, others: seq<Event<T>>)
      requires queue == [] && AboutToTake(Model(), t)
      requires Legal(Queue(), TryTake(Model(), t, heir), others)
      requires t in Exec(Queue(), TryTake(Model(), t, heir), others).wokenConsumers
      modifies this
      ensures Model() == ConsumerBack(Exec(Queue(), TryTake(old(Model()), t, heir), others), t)
      ensures AboutToTake(Model(), t)
    {
      ghost var asleep := TryTake(Model(), t, heir);
      ConsumerSleeps(Model(), t, heir);
      RunKeepsInv(asleep, others);
      ConsumerReturns(Exec(Queue(), asleep, others), t);
      sleepingConsumers := sleepingConsumers + {t};
      Others(others);
      wokenConsumers := wokenConsumers - {t};
    }

    /** Waits while the queue is full, n times; done tells whether it then returned,
        or waits still when the waits it was given are over. */
    method Put(t: Thread, x: T, heir: Thread, waits: seq<Wait<T>>) returns (done: bool, n: nat)
      requires Inv(Model()) && Legal(Queue(), Model(), PutRun(t, x, heir, waits))
      requires forall i :: 0 <= i < |waits| ==> NoneBy(waits[i].others, t)
      modifies this
      ensures Inv(Model()) && n <= |waits| && Model() == Exec(Queue(), old(Model()), PutRun(t, x, heir, waits[..n]))
      ensures if done then queue != [] && queue[|queue| - 1] == x else n == |waits| && |queue| == maxSize
    {
      ghost var s := Model();
      n := 0;
      PutRunStart(s, t, x, heir, waits);
      PutRunAble(s, t, x, heir, waits);
      while |queue| == maxSize && n < |waits|
        invariant n <= |waits| && PutTests(s, Model(), t, x, heir, waits, n) && AboutToPut(Model(), t)
      {
        PutWaits(s, Model(), t, x, heir, waits, n);
        WaitNotFull(t, x, LastHeir(heir, waits[..n]), waits[n].others);
        n := n + 1;
      }
      done := PutOnce(t, x, LastHeir(heir, waits[..n]));
      PutRunKeepsInv(s, t, x, heir, waits, n);
    }

    /** Likewise while the queue is empty; what it returns is the item taken last. */
    method Take(t: Thread, heir: Thread, waits: seq<Wait<T>>) returns (front: Option<T>, n: nat)
      requires Inv(Model()) && Legal(Queue(), Model(), TakeRun(t, heir, waits))
      modifies this
      ensures Inv(Model()) && n <= |waits| && Model() == Exec(Queue(), old(Model()), TakeRun(t, heir, waits[..n]))
      ensures match front
              case Some(x) => takes != [] && takes[|takes| - 1] == x
              case None => n == |waits| && queue == []
    {
      ghost var s := Model();
      n := 0;
      TakeRunStart(s, t, heir, waits);
      TakeRunAble(s, t, heir, waits);
      while |queue| == 0 && n < |waits|
        invariant n <= |waits| && TakeTests(s, Model(), t, heir, waits, n) && AboutToTake(Model(), t)
      {
        TakeWaits(s, Model(), t, heir, waits, n);
        WaitNotEmpty(t, LastHeir(heir, waits[..n]), waits[n].others);
        n := n + 1;
      }
      front := TakeOnce(t, LastHeir(heir, waits[..n]));
      TakeRunKeepsInv(s, t, heir, waits, n);
    }
  }

  lemma SleepKeepsInv<T>(s: Monitor<T>, t: Thread, x: T, heir: Thread)
    requires AboutToPut(s, t) && |s.queue| == s.capacity
    ensures Inv(TryPut(s, t, x, heir))
  {
  }

  lemma ConsumerSleeps<T>(s: Monitor<T>, t: Thread, heir: Thread)
    requires AboutToTake(s, t) && s.queue == []
    ensures Inv(TryTake(s, t, heir))
  {
  }

  lemma PutRunKeepsInv<T(!new)>(s: Monitor<T>, t: Thread, x: T, heir: Thread, waits: seq<Wait<T>>, n: nat)
    requires Inv(s) && n <= |waits| && Legal(Queue(), s, PutRun(t, x, heir, waits))
    ensures Inv(Exec(Queue(), s, PutRun(t, x, heir, waits[..n])))
  {
    PutRunLegal(s, t, x, heir, waits, n);
    RunKeepsInv(s, PutRun(t, x, heir, waits[..n]));
  }

  lemma TakeRunKeepsInv<T(!new)>(s: Monitor<T>, t: Thread, heir: Thread, waits: seq<Wait<T>>, n: nat)
    requires Inv(s) && n <= |waits| && Legal(Queue(), s, TakeRun(t, heir, waits))
    ensures Inv(Exec(Queue(), s, TakeRun(t, heir, waits[..n])))
  {
    TakeRunLegal(s, t, heir, waits, n);
    RunKeepsInv(s, TakeRun(t, heir, waits[..n]));
  }

  /** A thread that makes its first step is blocked nowhere. */
  lemma PutRunAble<T>(s: Monitor<T>, t: Thread, x: T, heir: Thread, waits: seq<Wait<T>>)
    requires Inv(s) && Legal(Queue(), s, PutRun(t, x, heir, waits))
    ensures AboutToPut(s, t)
  {
    PutRunLegal(s, t, x, heir, waits, 0);
    Snoc(Queue(), s, [], Event.Put(t, x, heir));
    assert [] + [Event.Put(t, x, heir)] == [Event.Put(t, x, heir)];
  }

  lemma TakeRunAble<T>(s: Monitor<T>, t: Thread, heir: Thread, waits: seq<Wait<T>>)
    requires Inv(s) && Legal(Queue(), s, TakeRun(t, heir, waits))
    ensures AboutToTake(s, t)
  {
    TakeRunLegal(s, t, heir, waits, 0);
    Snoc(Queue(), s, [], Event.Take(t, heir));
    assert [] + [Event<T>.Take(t, heir)] == [Event.Take(t, heir)];
  }
}
