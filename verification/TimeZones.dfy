/** base/TimeZone.cc: the transition table, the search in it, and the conversion
    between UTC seconds and local time.

    gmtime_r and timegm belong to the C library: they are a parameter here, two
    maps between seconds and calendar fields of which the second undoes the first. */
module TimeZones {

  datatype Transition = Transition(gmttime: int, localtime: int, localtimeIdx: nat)
  datatype Localtime = Localtime(gmtOffset: int, isDst: bool, arrbIdx: nat)
  datatype Zone = Zone(transitions: seq<Transition>, localtimes: seq<Localtime>)

  datatype Civil = Civil(year: int, mon: int, mday: int, hour: int, min: int, sec: int)
  datatype LocalTm = LocalTm(civil: Civil, isDst: bool, gmtOffset: int)
  datatype Libc = Libc(gmtime: int -> Civil, timegm: Civil -> int)

  ghost predicate Inverse(c: Libc) {
    forall s :: c.timegm(c.gmtime(s)) == s
  }

  // ----- the table -----

  predicate WellFormed(z: Zone) {
    && |z.localtimes| > 0
    && forall i :: 0 <= i < |z.transitions| ==>
         && z.transitions[i].localtimeIdx < |z.localtimes|
         && z.transitions[i].localtime ==
            z.transitions[i].gmttime + z.localtimes[z.transitions[i].localtimeIdx].gmtOffset
  }

  /** How readTimeZoneFile derives the transitions from what it has read. */
  method BuildTransitions(trans: seq<int>, idx: seq<nat>, localtimes: seq<Localtime>) returns (z: Zone)
    requires |trans| == |idx| && |localtimes| > 0
    requires forall i :: 0 <= i < |idx| ==> idx[i] < |localtimes|
    ensures WellFormed(z) && z.localtimes == localtimes && |z.transitions| == |trans|
    ensures forall i :: 0 <= i < |trans| ==>
              z.transitions[i].gmttime == trans[i] && z.transitions[i].localtimeIdx == idx[i]
  {
    var transitions := [];
    for i := 0 to |trans|
      invariant |transitions| == i
      invariant WellFormed(Zone(transitions, localtimes))
      invariant forall k :: 0 <= k < i ==> transitions[k].gmttime == trans[k] && transitions[k].localtimeIdx == idx[k]
    {
      transitions := transitions + [Transition(trans[i], trans[i] + localtimes[idx[i]].gmtOffset, idx[i])];
    }
    z := Zone(transitions, localtimes);
  }

  /** The time a comparison looks at: UTC or local. */
  function Key(t: Transition, gmt: bool): int {
    if gmt then t.gmttime else t.localtime
  }

  predicate Sorted(ts: seq<Transition>, gmt: bool) {
    forall i, j :: 0 <= i < j < |ts| ==> Key(ts[i], gmt) < Key(ts[j], gmt)
  }

  predicate Ascending(z: Zone) {
    Sorted(z.transitions, true) && Sorted(z.transitions, false)
  }

  /** How many transitions are not after the key. */
  function Passed(ts: seq<Transition>, gmt: bool, key: int): (n: nat)
    requires Sorted(ts, gmt)
    ensures n <= |ts|
    ensures forall i :: 0 <= i < n ==> Key(ts[i], gmt) <= key
    ensures forall i :: n <= i < |ts| ==> key < Key(ts[i], gmt)
  {
    if |ts| == 0 then 0
    else if Key(ts[|ts| - 1], gmt) <= key then |ts|
    else Passed(ts[..|ts| - 1], gmt, key)
  }

  /** The local time in force once n transitions have passed. */
  function InForce(z: Zone, n: nat): Localtime
    requires WellFormed(z) && n <= |z.transitions|
  {
    if n == 0 then z.localtimes[0] else z.localtimes[z.transitions[n - 1].localtimeIdx]
  }

  /** std::lower_bound: the first transition not before the key. */
  method LowerBound(ts: seq<Transition>, gmt: bool, key: int) returns (k: nat)
    requires Sorted(ts, gmt)
    ensures k <= |ts|
    ensures forall i :: 0 <= i < k ==> Key(ts[i], gmt) < key
    ensures forall i :: k <= i < |ts| ==> key <= Key(ts[i], gmt)
  {
    k := 0;
    var len := |ts|;
    while len > 0
      invariant 0 <= len && k + len <= |ts|
      invariant forall i :: 0 <= i < k ==> Key(ts[i], gmt) < key
      invariant forall i :: k + len <= i < |ts| ==> key <= Key(ts[i], gmt)
    {
      var half := len / 2;
      if Key(ts[k + half], gmt) < key {
        k := k + half + 1;
        len := len - half - 1;
      } else {
        len := half;
      }
    }
  }

  method FindLocaltime(z: Zone, gmt: bool, key: int) returns (local: Localtime)
    requires WellFormed(z) && Sorted(z.transitions, gmt)
    ensures local == InForce(z, Passed(z.transitions, gmt, key))
  {
    var ts := z.transitions;
    if |ts| == 0 || key < Key(ts[0], gmt) {
      local := z.localtimes[0];
    } else {
      var i := LowerBound(ts, gmt, key);
      if i != |ts| {
        if key != Key(ts[i], gmt) {
          assert i != 0;
          i := i - 1;
        }
        local := z.localtimes[ts[i].localtimeIdx];
      } else {
        local := z.localtimes[ts[|ts| - 1].localtimeIdx];
      }
    }
  }

  // ----- the conversions -----

  function ToLocal(c: Libc, z: Zone, seconds: int): LocalTm
    requires WellFormed(z) && Sorted(z.transitions, true)
  {
    var local := InForce(z, Passed(z.transitions, true, seconds));
    LocalTm(c.gmtime(seconds + local.gmtOffset), local.isDst, local.gmtOffset)
  }

  method ToLocalTime(c: Libc, z: Zone, seconds: int) returns (tm: LocalTm)
    requires WellFormed(z) && Sorted(z.transitions, true)
    ensures tm == ToLocal(c, z, seconds)
  {
    var local := FindLocaltime(z, true, seconds);
    var localSeconds := seconds + local.gmtOffset;
    tm := LocalTm(c.gmtime(localSeconds), local.isDst, local.gmtOffset);
  }

  function FromLocal(c: Libc, z: Zone, tm: LocalTm): int
    requires WellFormed(z) && Ascending(z)
  {
    var seconds := c.timegm(tm.civil);
    var local := InForce(z, Passed(z.transitions, false, seconds));
    var again := ToLocal(c, z, seconds - local.gmtOffset);
    if tm.isDst && !again.isDst && again.civil.hour == tm.civil.hour && again.civil.min == tm.civil.min
    then seconds - 3600 - local.gmtOffset
    else seconds - local.gmtOffset
  }

  method FromLocalTime(c: Libc, z: Zone, localTm: LocalTm) returns (r: int)
    requires WellFormed(z) && Ascending(z)
    ensures r == FromLocal(c, z, localTm)
  {
    var seconds := c.timegm(localTm.civil);
    var local := FindLocaltime(z, false, seconds);
    if localTm.isDst {
      var tryTm := ToLocalTime(c, z, seconds - local.gmtOffset);
      if !tryTm.isDst && tryTm.civil.hour == localTm.civil.hour && tryTm.civil.min == localTm.civil.min {
        seconds := seconds - 3600;
      }
    }
    r := seconds - local.gmtOffset;
  }

  // ----- when a local time comes back to the second it came from -----

  /** By how much the n-th transition (counted from 1) sets the clocks back. */
  function Drop(z: Zone, n: nat): int
    requires WellFormed(z) && 1 <= n <= |z.transitions|
  {
    InForce(z, n - 1).gmtOffset - InForce(z, n).gmtOffset
  }

  /** The one kind of step back that fromLocalTime knows about. */
  predicate EndsDst(z: Zone, n: nat)
    requires WellFormed(z) && 1 <= n <= |z.transitions|
  {
    Drop(z, n) == 3600 && InForce(z, n - 1).isDst && !InForce(z, n).isDst
  }

  /** The stretch of local time that the n-th transition repeats is over, in UTC
      and in local time, before the next transition. */
  predicate SettledAt(z: Zone, n: nat)
    requires WellFormed(z) && 1 <= n < |z.transitions|
  {
    && z.transitions[n - 1].gmttime + Drop(z, n) <= z.transitions[n].gmttime
    && z.transitions[n - 1].gmttime + InForce(z, n - 1).gmtOffset <= z.transitions[n].localtime
  }

  predicate Settled(z: Zone)
    requires WellFormed(z)
  {
    forall n :: 1 <= n < |z.transitions| ==> SettledAt(z, n)
  }

  /** The next transition sets the clocks back past this second. */
  predicate SetsBack(z: Zone, t: int, n: nat)
    requires WellFormed(z)
  {
    n < |z.transitions| && z.transitions[n].gmttime - Drop(z, n + 1) <= t
  }

  /** The second lies in the first pass of a repeated stretch that is not the end of DST. */
  predicate Repeated(z: Zone, t: int)
    requires WellFormed(z) && Ascending(z)
  {
    var n := Passed(z.transitions, true, t);
    SetsBack(z, t, n) && !EndsDst(z, n + 1)
  }

  lemma PassedUnique(ts: seq<Transition>, gmt: bool, key: int, n: nat)
    requires Sorted(ts, gmt) && n <= |ts|
    requires n > 0 ==> Key(ts[n - 1], gmt) <= key
    requires n < |ts| ==> key < Key(ts[n], gmt)
    ensures Passed(ts, gmt, key) == n
  {
  }

  /** Before all transitions the first entry of the table is in force, and from each
      transition up to the next the one it names. */
  lemma LocalTimeOf(c: Libc, z: Zone, seconds: int, n: nat)
    requires WellFormed(z) && Sorted(z.transitions, true) && n <= |z.transitions|
    requires n > 0 ==> z.transitions[n - 1].gmttime <= seconds
    requires n < |z.transitions| ==> seconds < z.transitions[n].gmttime
    ensures var local := z.localtimes[if n == 0 then 0 else z.transitions[n - 1].localtimeIdx];
            ToLocal(c, z, seconds) == LocalTm(c.gmtime(seconds + local.gmtOffset), local.isDst, local.gmtOffset)
  {
    PassedUnique(z.transitions, true, seconds, n);
  }

  /** The n-th transition sets the clocks forward past this local time, which is not
      shown at all; neither neighbour reaches into the stretch. */
  predicate Skips(z: Zone, local: int, n: nat)
    requires WellFormed(z)
  {
    && 1 <= n <= |z.transitions|
    && z.transitions[n - 1].gmttime + InForce(z, n - 1).gmtOffset <= local < z.transitions[n - 1].localtime
    && (n > 1 ==> z.transitions[n - 2].localtime <= local)
    && (n < |z.transitions| ==> local - InForce(z, n - 1).gmtOffset < z.transitions[n].gmttime)
  }

  /** A skipped local time is taken as if the clocks had not been set forward, and so
      is shown later by as much as they were. */
  lemma SkippedLocalTime(c: Libc, z: Zone, tm: LocalTm, n: nat)
    requires Inverse(c) && WellFormed(z) && Ascending(z) && Skips(z, c.timegm(tm.civil), n)
    requires tm.isDst ==> InForce(z, n).isDst
    ensures FromLocal(c, z, tm) == c.timegm(tm.civil) - InForce(z, n - 1).gmtOffset
    ensures ToLocal(c, z, FromLocal(c, z, tm)).civil == c.gmtime(c.timegm(tm.civil) - Drop(z, n))
  {
    SkippedSearches(z, c.timegm(tm.civil), n);
  }

  lemma SkippedSearches(z: Zone, local: int, n: nat)
    requires WellFormed(z) && Ascending(z) && Skips(z, local, n)
    ensures Passed(z.transitions, false, local) == n - 1
    ensures Passed(z.transitions, true, local - InForce(z, n - 1).gmtOffset) == n
  {
    PassedUnique(z.transitions, false, local, n - 1);
    PassedUnique(z.transitions, true, local - InForce(z, n - 1).gmtOffset, n);
  }

  /** Which transition the local search stops at: the one in force, or the next
      one when it sets the clocks back past this second. */
  lemma LocalSearch(z: Zone, t: int, n: nat)
    requires WellFormed(z) && Ascending(z) && Settled(z)
    requires n == Passed(z.transitions, true, t)
    ensures Passed(z.transitions, false, t + InForce(z, n).gmtOffset) == if SetsBack(z, t, n) then n + 1 else n
  {
    var ts := z.transitions;
    var local := t + InForce(z, n).gmtOffset;
    if SetsBack(z, t, n) {
      if n + 1 < |ts| {
        assert SettledAt(z, n + 1);
      }
      PassedUnique(ts, false, local, n + 1);
    } else {
      PassedUnique(ts, false, local, n);
    }
  }

  lemma SecondPass(z: Zone, t: int, n: nat)
    requires WellFormed(z) && Ascending(z) && Settled(z)
    requires n == Passed(z.transitions, true, t) && SetsBack(z, t, n)
    ensures Passed(z.transitions, true, t + Drop(z, n + 1)) == n + 1
  {
    if n + 1 < |z.transitions| {
      assert SettledAt(z, n + 1);
    }
    PassedUnique(z.transitions, true, t + Drop(z, n + 1), n + 1);
  }

  lemma FromLocalSame(c: Libc, z: Zone, t: int, n: nat)
    requires Inverse(c) && WellFormed(z) && Ascending(z) && n == Passed(z.transitions, true, t)
    requires Passed(z.transitions, false, t + InForce(z, n).gmtOffset) == n
    ensures FromLocal(c, z, ToLocal(c, z, t)) == t
  {
  }

  lemma FromLocalNext(c: Libc, z: Zone, t: int, n: nat)
    requires Inverse(c) && WellFormed(z) && Ascending(z) && n == Passed(z.transitions, true, t) < |z.transitions|
    requires Passed(z.transitions, false, t + InForce(z, n).gmtOffset) == n + 1
    requires Passed(z.transitions, true, t + Drop(z, n + 1)) == n + 1
    ensures FromLocal(c, z, ToLocal(c, z, t)) ==
            t + Drop(z, n + 1) - if InForce(z, n).isDst && !InForce(z, n + 1).isDst then 3600 else 0
  {
  }

  /** The local time of the second gives the second back. */
  ghost predicate ComesBack(c: Libc, z: Zone, t: int)
    requires WellFormed(z) && Ascending(z)
  {
    FromLocal(c, z, ToLocal(c, z, t)) == t
  }

  /** Exactly the seconds of the first pass of such a stretch come back wrong. */
  lemma RoundTripAt(c: Libc, z: Zone, t: int)
    requires Inverse(c) && WellFormed(z) && Ascending(z) && Settled(z)
    ensures ComesBack(c, z, t) <==> !Repeated(z, t)
  {
    var n := Passed(z.transitions, true, t);
    LocalSearch(z, t, n);
    if SetsBack(z, t, n) {
      SecondPass(z, t, n);
      FromLocalNext(c, z, t, n);
    } else {
      FromLocalSame(c, z, t, n);
    }
  }

  /** The clocks are set back, and not by an hour at the end of DST. */
  predicate OddStepBack(z: Zone, n: nat)
    requires WellFormed(z)
  {
    1 <= n <= |z.transitions| && Drop(z, n) > 0 && !EndsDst(z, n)
  }

  lemma StepBackRepeats(z: Zone, n: nat) returns (t: int)
    requires WellFormed(z) && Ascending(z) && OddStepBack(z, n)
    ensures Repeated(z, t)
  {
    t := z.transitions[n - 1].gmttime - 1;
    PassedUnique(z.transitions, true, t, n - 1);
  }

  lemma RepeatedByStepBack(z: Zone, t: int) returns (n: nat)
    requires WellFormed(z) && Ascending(z) && Repeated(z, t)
    ensures OddStepBack(z, n)
  {
    n := Passed(z.transitions, true, t) + 1;
  }

  /** Local time is a faithful code for UTC, both halves of a repeated hour
      included, if and only if every step back of the table ends DST by an hour. */
  lemma RoundTrip(c: Libc, z: Zone)
    requires Inverse(c) && WellFormed(z) && Ascending(z) && Settled(z)
    ensures (forall t :: ComesBack(c, z, t)) <==> (forall n: nat :: !OddStepBack(z, n))
  {
    forall t ensures ComesBack(c, z, t) <==> !Repeated(z, t) {
      RoundTripAt(c, z, t);
    }
    if n: nat :| OddStepBack(z, n) {
      var t := StepBackRepeats(z, n);
      assert !ComesBack(c, z, t);
    } else {
      forall t ensures ComesBack(c, z, t) {
        if Repeated(z, t) {
          var n := RepeatedByStepBack(z, t);
        }
      }
    }
  }
}
