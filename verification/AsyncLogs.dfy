/** base/AsyncLogging.cc: the front end that appends lines and the back end that
    writes them out, handing buffers to each other.

    append() and the back end's critical section are single steps, in any order; what
    the back end does outside the lock touches nothing the front end sees. A buffer
    is the sequence of lines in it. */
module AsyncLogs {
  import opened Machines
  import opened Options
  import opened Seqs

  type Line = seq<byte>
  type Buffer = seq<Line>

  const LARGE_BUFFER: nat := 4000 * 1000

  function Length(b: Buffer): nat {
    |Flatten(b)|
  }

  /** FixedBuffer::append: what does not fit, with a byte to spare, is not appended. */
  function AppendTo(b: Buffer, line: Line): Buffer {
    if LARGE_BUFFER - Length(b) > |line| then b + [line] else b
  }

  datatype Item = Text(line: Line) | Notice(buffers: nat)

  /** One turn of the back end: the lines it wrote, those it dropped, and how many
      buffers those were in. */
  datatype Round = Round(kept: seq<Line>, dropped: seq<Line>, buffers: nat)

  datatype Pc =
    | AtTest    // while (running_)
    | Ready     // about to lock, or waiting on the condition
    | Writing   // outside the lock, with buffers to write
    | Done

  datatype Log = Log(
    current: Buffer,            // currentBuffer_
    next: Option<Buffer>,       // nextBuffer_
    buffers: seq<Buffer>,       // buffers_
    running: bool,
    pc: Pc,
    new1: Option<Buffer>,       // newBuffer1
    new2: Option<Buffer>,       // newBuffer2
    toWrite: seq<Buffer>,       // buffersToWrite
    failed: bool,               // an assert of the back end has failed
    file: seq<Item>,
    appended: seq<Line>,        // every line a buffer took, in order
    rounds: seq<Round>)

  function Append(s: Log, line: Line): Log {
    if LARGE_BUFFER - Length(s.current) > |line| then
      s.(current := s.current + [line], appended := s.appended + [line])
    else
      s.(buffers := s.buffers + [s.current],
         current := AppendTo(if s.next.Some? then s.next.value else [], line),
         next := None,
         appended := if LARGE_BUFFER - Length(if s.next.Some? then s.next.value else []) > |line|
                     then s.appended + [line] else s.appended)
  }

  /** The back end's critical section, on whatever it finds: it waits once, not in a loop. */
  function Swap(s: Log): Log {
    if s.new1.None? then s.(failed := true)
    else
      s.(toWrite := s.buffers + [s.current], buffers := [], current := s.new1.value, new1 := None,
         next := if s.next.None? then s.new2 else s.next,
         new2 := if s.next.None? then None else s.new2,
         pc := Writing)
  }

  function Texts(lines: seq<Line>): seq<Item> {
    seq(|lines|, i requires 0 <= i < |lines| => Text(lines[i]))
  }

  function Kept(bs: seq<Buffer>): seq<Buffer> {
    if |bs| > 25 then bs[..2] else bs
  }

  function RoundOf(bs: seq<Buffer>): Round {
    if |bs| > 25 then Round(Flatten(bs[..2]), Flatten(bs[2..]), |bs| - 2) else Round(Flatten(bs), [], 0)
  }

  function Items(r: Round): seq<Item> {
    (if r.buffers > 0 then [Notice(r.buffers)] else []) + Texts(r.kept)
  }

  /** A spare buffer for the next turn, from those just written; what is left of them. */
  function Refill(spare: Option<Buffer>, bs: seq<Buffer>): (Option<Buffer>, seq<Buffer>) {
    if spare.Some? then (spare, bs)
    else if bs == [] then (None, bs)
    else (Some([]), bs[..|bs| - 1])
  }

  /** The rest of the back end's turn: drop, write, recycle. */
  function WriteOut(s: Log): Log {
    var kept := Kept(s.toWrite);
    var left := if |kept| > 2 then kept[..2] else kept;
    var (new1, left1) := Refill(s.new1, left);
    var (new2, left2) := Refill(s.new2, left1);
    s.(file := s.file + Items(RoundOf(s.toWrite)), rounds := s.rounds + [RoundOf(s.toWrite)],
       new1 := new1, new2 := new2, toWrite := [], pc := AtTest,
       failed := s.failed || s.toWrite == [] || new1.None? || new2.None?)
  }

  datatype Event = Line(line: Line) | Test | Lock | Write | Stop

  predicate Enabled(s: Log, e: Event) {
    match e
    case Line(_) => true
    case Test => s.pc == AtTest
    case Lock => s.pc == Ready
    case Write => s.pc == Writing
    case Stop => true
  }

  function Apply(s: Log, e: Event): Log {
    match e
    case Line(line) => Append(s, line)
    case Test =>
      if !s.running then s.(pc := Done)
      else s.(pc := Ready, failed := s.failed || s.new1 != Some([]) || s.new2 != Some([]) || s.toWrite != [])
    case Lock => Swap(s)
    case Write => WriteOut(s)
    case Stop => s.(running := false)
  }

  const LOGGING: Machine<Log, Event> := Machine(Enabled, Apply)

  const FRESH := Log([], Some([]), [], true, AtTest, Some([]), Some([]), [], false, [], [], [])

  // ----- the invariant over both threads -----

  /** What the asserts of the back end depend on: the front end is without a spare
      only if it has put a buffer into buffers_. */
  predicate Spares(s: Log) {
    && !s.failed
    && (s.next.Some? ==> s.next.value == []) && (s.next.None? ==> s.buffers != [])
    && (s.pc != Writing ==> s.new1 == Some([]) && s.new2 == Some([]) && s.toWrite == [])
    && (s.pc == Writing ==>
         && s.new1 == None && s.toWrite != []
         && (s.new2 == Some([]) || (s.new2 == None && |s.toWrite| >= 2)))
  }

  function Lines(rounds: seq<Round>): seq<Line> {
    if rounds == [] then []
    else Lines(rounds[..|rounds| - 1]) + (rounds[|rounds| - 1].kept + rounds[|rounds| - 1].dropped)
  }

  function FileOf(rounds: seq<Round>): seq<Item> {
    if rounds == [] then [] else FileOf(rounds[..|rounds| - 1]) + Items(rounds[|rounds| - 1])
  }

  predicate WellDropped(r: Round) {
    (r.buffers == 0 ==> r.dropped == []) && (r.buffers > 0 ==> r.buffers >= 24)
  }

  /** What the logger holds and has not yet written or dropped. */
  function Held(s: Log): seq<Line> {
    Flatten(s.toWrite) + Flatten(s.buffers) + s.current
  }

  /** Every line is written, dropped behind a notice, in flight, or waiting, in the
      order it was appended. */
  predicate Conserved(s: Log) {
    && s.appended == Lines(s.rounds) + Held(s)
    && s.file == FileOf(s.rounds)
    && forall r :: r in s.rounds ==> WellDropped(r)
  }

  predicate Inv(s: Log) {
    Spares(s) && Conserved(s)
  }

  lemma AppendHeld(s: Log, line: Line)
    requires Spares(s)
    ensures Held(Append(s, line)) == Held(s) + (if |line| < LARGE_BUFFER then [line] else [])
    ensures Append(s, line).appended == s.appended + (if |line| < LARGE_BUFFER then [line] else [])
  {
    FlattenSnoc(s.buffers, s.current);
    var s' := Append(s, line);
    if LARGE_BUFFER - Length(s.current) <= |line| {
      assert Held(s') == Flatten(s.toWrite) + (Flatten(s.buffers) + s.current) + s'.current;
    }
  }

  lemma AppendConserves(s: Log, line: Line)
    requires Inv(s)
    ensures Inv(Append(s, line))
  {
    AppendHeld(s, line);
    var more := if |line| < LARGE_BUFFER then [line] else [];
    assert Lines(s.rounds) + (Held(s) + more) == (Lines(s.rounds) + Held(s)) + more;
  }

  lemma SwapConserves(s: Log)
    requires Inv(s) && s.pc == Ready
    ensures Inv(Swap(s))
  {
    SwapHeld(s);
  }

  lemma SwapHeld(s: Log)
    requires Spares(s) && s.pc == Ready
    ensures Held(Swap(s)) == Held(s)
  {
    FlattenSnoc(s.buffers, s.current);
  }

  /** A round accounts for all its buffers. */
  lemma RoundHolds(bs: seq<Buffer>)
    ensures RoundOf(bs).kept + RoundOf(bs).dropped == Flatten(bs)
    ensures WellDropped(RoundOf(bs))
  {
    if |bs| > 25 {
      FlattenAppend(bs[..2], bs[2..]);
      assert bs == bs[..2] + bs[2..];
    }
  }

  lemma FlattenTwo<T>(a: seq<T>, b: seq<T>)
    ensures Flatten([a, b]) == a + b
  {
    assert [a, b] == ([] + [a]) + [b];
    FlattenSnoc([] + [a], b);
    FlattenSnoc([], a);
  }

  lemma RoundExactly(bs: seq<Buffer>)
    ensures RoundOf(bs) ==
            if |bs| > 25 then Round(bs[0] + bs[1], Flatten(bs[2..]), |bs| - 2) else Round(Flatten(bs), [], 0)
  {
    if |bs| > 25 {
      assert bs[..2] == [bs[0], bs[1]];
      FlattenTwo(bs[0], bs[1]);
    }
  }

  /** The items go behind the file: the notice, and one item for each line, in order. */
  predicate Adds(file: seq<Item>, file': seq<Item>, notice: seq<Item>, kept: seq<Line>) {
    && |file'| == |file| + |notice| + |kept| && file + notice <= file'
    && forall i :: 0 <= i < |kept| ==> file'[|file| + |notice| + i] == Text(kept[i])
  }

  lemma ItemsBehind(file: seq<Item>, r: Round)
    ensures Adds(file, file + Items(r), if r.buffers > 0 then [Notice(r.buffers)] else [], r.kept)
  {
    var notice := if r.buffers > 0 then [Notice(r.buffers)] else [];
    assert file + Items(r) == file + notice + Texts(r.kept);
  }

  /** Lines are dropped exactly when more than 25 buffers wait: then the file gets a
      notice that names all but two of them, and the lines of the first two; otherwise
      it gets all lines and no notice. */
  lemma WriteExactly(s: Log, bs: seq<Buffer>)
    requires bs == s.toWrite
    ensures if |bs| > 25
            then Adds(s.file, WriteOut(s).file, [Notice(|bs| - 2)], bs[0] + bs[1])
            else Adds(s.file, WriteOut(s).file, [], Flatten(bs))
    ensures WriteOut(s).rounds == s.rounds +
            [if |bs| > 25 then Round(bs[0] + bs[1], Flatten(bs[2..]), |bs| - 2) else Round(Flatten(bs), [], 0)]
  {
    WriteEffect(s);
    RoundExactly(bs);
    ItemsBehind(s.file, RoundOf(bs));
  }

  /** A buffer is handed to the back end exactly when the line does not fit behind what
      is in it; the spare, or a new buffer, takes its place. */
  lemma HandsOver(s: Log, line: Line)
    requires Spares(s)
    ensures var s', full := Append(s, line), Length(s.current) + |line| >= LARGE_BUFFER;
            && s'.buffers == s.buffers + (if full then [s.current] else [])
            && s'.current == (if full then [] else s.current) + (if |line| < LARGE_BUFFER then [line] else [])
            && s'.next == (if full then None else s.next) && s'.file == s.file && s'.toWrite == s.toWrite
  {
    assert Flatten<byte>([]) == [];
  }

  lemma RoundsSnoc(rounds: seq<Round>, r: Round)
    ensures Lines(rounds + [r]) == Lines(rounds) + (r.kept + r.dropped)
    ensures FileOf(rounds + [r]) == FileOf(rounds) + Items(r)
  {
  }

  lemma Regroup<T>(a: seq<T>, b: seq<T>, c: seq<T>, d: seq<T>)
    ensures a + (b + c + d) == (a + b) + ([] + c + d)
  {
  }

  lemma WriteEffect(s: Log)
    ensures var s' := WriteOut(s);
            && s'.rounds == s.rounds + [RoundOf(s.toWrite)] && s'.file == s.file + Items(RoundOf(s.toWrite))
            && s'.appended == s.appended && Held(s') == [] + Flatten(s.buffers) + s.current
  {
  }

  lemma WriteConserves(s: Log)
    requires Conserved(s)
    ensures Conserved(WriteOut(s))
  {
    WriteEffect(s);
    RoundHolds(s.toWrite);
    RoundsSnoc(s.rounds, RoundOf(s.toWrite));
    Regroup(Lines(s.rounds), Flatten(s.toWrite), Flatten(s.buffers), s.current);
  }

  lemma WriteRefills(s: Log)
    requires Spares(s) && s.pc == Writing
    ensures Spares(WriteOut(s))
  {
  }

  lemma StepKeepsInv(s: Log, e: Event)
    requires Inv(s) && Enabled(s, e)
    ensures Inv(Apply(s, e))
  {
    match e
    case Line(line) => AppendConserves(s, line);
    case Lock => SwapConserves(s);
    case Write =>
      WriteConserves(s);
      WriteRefills(s);
    case _ =>
  }

  /** After any run of both threads: no assert of the back end has failed, and file,
      buffers in flight, buffers_ and currentBuffer_ together hold every accepted
      line once and in order, but for the dropped runs a notice announces. */
  lemma NoLineLost(es: seq<Event>)
    requires Legal(LOGGING, FRESH, es)
    ensures Inv(Exec(LOGGING, FRESH, es))
  {
    forall x, e | Inv(x) && LOGGING.enabled(x, e) ensures Inv(LOGGING.apply(x, e)) {
      StepKeepsInv(x, e);
    }
    Always(LOGGING, Inv, FRESH, es);
  }

  /** A line gets into a buffer if and only if it is shorter than one. */
  lemma AcceptsShortLines(s: Log, line: Line)
    requires Spares(s)
    ensures Held(Append(s, line)) == Held(s) + [line] <==> |line| < LARGE_BUFFER
    ensures |line| >= LARGE_BUFFER ==> Held(Append(s, line)) == Held(s)
  {
    AppendHeld(s, line);
  }

  // ----- what stop() leaves behind -----

  /** The events of a run in which nothing more is appended. */
  predicate NoLines(es: seq<Event>) {
    forall e :: e in es ==> !e.Line?
  }

  /** Whoever is left to write takes everything: the back end is about to take the
      lock, or there is nothing in front of it. */
  predicate Caught(s: Log) {
    s.pc == Ready || Flatten(s.buffers) + s.current == []
  }

  lemma CaughtStep(s: Log, e: Event)
    requires Inv(s) && !s.running && Caught(s) && Enabled(s, e) && !e.Line?
    ensures Caught(Apply(s, e)) && !Apply(s, e).running
  {
  }

  lemma {:induction false} CaughtAlways(s: Log, es: seq<Event>)
    requires Inv(s) && !s.running && Caught(s) && Legal(LOGGING, s, es) && NoLines(es)
    ensures var x := Exec(LOGGING, s, es); Inv(x) && !x.running && Caught(x)
    decreases |es|
  {
    if es != [] {
      var init, last := es[..|es| - 1], es[|es| - 1];
      CaughtAlways(s, init);
      var x := Exec(LOGGING, s, init);
      CaughtStep(x, last);
      StepKeepsInv(x, last);
    }
  }

  /** Every line has been written, or dropped behind a notice. */
  predicate AllWritten(s: Log) {
    s.appended == Lines(s.rounds)
  }

  lemma WrittenIfNothingHeld(s: Log)
    requires Conserved(s)
    ensures AllWritten(s) <==> Held(s) == []
  {
  }

  /** The shortest way out: the back end ends its turn and sees that it is to stop. */
  function WayOut(s: Log): seq<Event> {
    if s.pc == Writing then [Write, Test] else [Test]
  }

  lemma StopsWithTail(s: Log)
    requires Inv(s) && !s.running && (s.pc == AtTest || s.pc == Writing)
    ensures Legal(LOGGING, s, WayOut(s))
    ensures var x := Exec(LOGGING, s, WayOut(s));
            x.pc == Done && Conserved(x) && Held(x) == Flatten(s.buffers) + s.current
  {
    if s.pc == Writing {
      Two(LOGGING, s, Write, Test);
      WriteConserves(s);
      WriteEffect(s);
    } else {
      Snoc(LOGGING, s, [], Test);
      assert [] + [Test] == [Test];
    }
  }

  /** stop() waits for the thread, not for the lines. With nothing appended any
      more, everything is written by the time the back end has returned, whatever it
      did first, if and only if at the call it was about to take the lock or nothing
      waited for it. */
  lemma StopWritesAll(s: Log)
    requires Inv(s) && s.pc != Done
    ensures (forall es ::
               Legal(LOGGING, Apply(s, Stop), es) && NoLines(es) && Exec(LOGGING, Apply(s, Stop), es).pc == Done
               ==> AllWritten(Exec(LOGGING, Apply(s, Stop), es)))
        <==> s.pc == Ready || Flatten(s.buffers) + s.current == []
  {
    var s1 := Apply(s, Stop);
    StepKeepsInv(s, Stop);
    if Caught(s) {
      forall es | Legal(LOGGING, s1, es) && NoLines(es) && Exec(LOGGING, s1, es).pc == Done
        ensures AllWritten(Exec(LOGGING, s1, es))
      {
        CaughtAlways(s1, es);
        WrittenIfNothingHeld(Exec(LOGGING, s1, es));
      }
    } else {
      var es := WayOut(s1);
      StopsWithTail(s1);
      WrittenIfNothingHeld(Exec(LOGGING, s1, es));
      assert NoLines(es);
    }
  }
}
