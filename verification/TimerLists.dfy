/** std::set<pair<Timestamp, Timer*>>, which net/TimerQueue.h keeps its timers in:
    a strictly ascending sequence of entries, ordered by time and then by address. */
module TimerLists {

  type Addr = nat

  /** UINTPTR_MAX on a 64-bit machine: no timer lives there. */
  const MAX_ADDR: nat := 0xFFFF_FFFF_FFFF_FFFF

  datatype Entry = Entry(when: int, timer: Addr)

  predicate Less(x: Entry, y: Entry) {
    x.when < y.when || (x.when == y.when && x.timer < y.timer)
  }

  predicate Sorted(ts: seq<Entry>) {
    forall i, j :: 0 <= i < j < |ts| ==> Less(ts[i], ts[j])
  }

  function Inserted(ts: seq<Entry>, e: Entry): seq<Entry> {
    if ts == [] || Less(e, ts[0]) then [e] + ts else [ts[0]] + Inserted(ts[1..], e)
  }

  lemma {:induction false} InsertedEntries(ts: seq<Entry>, e: Entry)
    ensures |Inserted(ts, e)| == |ts| + 1
    ensures forall x :: x in Inserted(ts, e) <==> x == e || x in ts
    ensures Inserted(ts, e)[0] == if ts == [] || Less(e, ts[0]) then e else ts[0]
  {
    if ts != [] && !Less(e, ts[0]) {
      InsertedEntries(ts[1..], e);
      assert ts == [ts[0]] + ts[1..];
    }
  }

  lemma {:induction false} InsertedSorted(ts: seq<Entry>, e: Entry)
    requires Sorted(ts) && e !in ts
    ensures Sorted(Inserted(ts, e))
  {
    if ts != [] && !Less(e, ts[0]) {
      InsertedSorted(ts[1..], e);
      var rest := Inserted(ts[1..], e);
      forall j | 0 <= j < |rest| ensures Less(ts[0], rest[j]) {
        InsertedEntries(ts[1..], e);
        assert rest[j] in rest;
      }
    }
  }

  function Removed(ts: seq<Entry>, e: Entry): seq<Entry> {
    if ts == [] then [] else if ts[0] == e then ts[1..] else [ts[0]] + Removed(ts[1..], e)
  }

  lemma {:induction false} RemovedEntries(ts: seq<Entry>, e: Entry)
    requires Sorted(ts) && e in ts
    ensures |Removed(ts, e)| == |ts| - 1
    ensures forall x :: x in Removed(ts, e) <==> x in ts && x != e
    ensures Sorted(Removed(ts, e))
  {
    assert ts == [ts[0]] + ts[1..];
    if ts[0] == e {
      assert e !in ts[1..];
    } else {
      RemovedEntries(ts[1..], e);
      var rest := Removed(ts[1..], e);
      forall j | 0 <= j < |rest| ensures Less(ts[0], rest[j]) {
        assert rest[j] in rest;
      }
    }
  }

  /** No entry comes before the first. */
  lemma FirstIsLeast(ts: seq<Entry>, e: Entry)
    requires Sorted(ts) && e in ts
    ensures ts[0].when <= e.when
  {
  }

  /** How many entries come before the sentry: those due at now. */
  function Due(ts: seq<Entry>, now: int): (k: nat)
    ensures k <= |ts|
  {
    if ts == [] || !Less(ts[0], Entry(now, MAX_ADDR)) then 0 else 1 + Due(ts[1..], now)
  }

  lemma {:induction false} DueSplits(ts: seq<Entry>, now: int)
    requires Sorted(ts) && forall e :: e in ts ==> e.timer < MAX_ADDR
    ensures forall i :: 0 <= i < Due(ts, now) ==> ts[i].when <= now
    ensures forall i :: Due(ts, now) <= i < |ts| ==> ts[i].when > now
  {
    if ts != [] && Less(ts[0], Entry(now, MAX_ADDR)) {
      DueSplits(ts[1..], now);
    } else if ts != [] {
      assert ts[0] in ts;
    }
  }
}
