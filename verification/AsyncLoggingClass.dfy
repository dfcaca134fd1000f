/** base/AsyncLogging.cc as the class it is: append, and the turn of threadFunc cut
    where its lock is released. newBuffer1, newBuffer2 and buffersToWrite, the locals
    of threadFunc, are fields here because they outlive a turn. */
module AsyncLoggingClass {
  import opened Machines
  import opened Options
  import opened Seqs
  import opened AsyncLogs
  import Spec = AsyncLogs

  class AsyncLogging {
    var currentBuffer: Buffer
    var nextBuffer: Option<Buffer>
    var buffers: seq<Buffer>
    var newBuffer1: Option<Buffer>
    var newBuffer2: Option<Buffer>
    var buffersToWrite: seq<Buffer>
    var output: seq<Item>
    ghost var rest: Log   // running_, where the back end is, the history

    ghost function Model(): Log
      reads this
    {
      rest.(current := currentBuffer, next := nextBuffer, buffers := buffers, new1 := newBuffer1, new2 := newBuffer2,
            toWrite := buffersToWrite, file := output)
    }

    constructor ()
      ensures Model() == FRESH && Inv(Model())
    {
      currentBuffer, nextBuffer, buffers := [], Some([]), [];
      newBuffer1, newBuffer2, buffersToWrite, output := Some([]), Some([]), [], [];
      rest := FRESH;
    }

    /** The line is held behind all others if it is shorter than a buffer. */
    method Append(logline: Line)
      requires Inv(Model())
      modifies this
      ensures Model() == Spec.Append(old(Model()), logline) && Inv(Model())
      ensures Held(Model()) == old(Held(Model())) + if |logline| < LARGE_BUFFER then [logline] else []
    {
      AppendConserves(Model(), logline);
      AppendHeld(Model(), logline);
      rest := Spec.Append(Model(), logline);
      if LARGE_BUFFER - Length(currentBuffer) > |logline| {
        currentBuffer := currentBuffer + [logline];
      } else {
        buffers := buffers + [currentBuffer];
        if nextBuffer.Some? {
          currentBuffer := nextBuffer.value;
          nextBuffer := None;
        } else {
          currentBuffer := [];
        }
        currentBuffer := AppendTo(currentBuffer, logline);
      }
    }

    method Stop()
      requires Inv(Model())
      modifies this`rest
      ensures Model() == Apply(old(Model()), Event.Stop) && Inv(Model())
    {
      StepKeepsInv(Model(), Event.Stop);
      rest := rest.(running := false);
    }

    /** while (running_), and the asserts at the top of the loop, which hold. */
    method TestRunning(running: bool) returns (goOn: bool)
      requires Inv(Model()) && rest.pc == AtTest && running == rest.running
      modifies this`rest
      ensures Model() == Apply(old(Model()), Event.Test) && Inv(Model())
      ensures goOn == running && rest.pc == if goOn then Ready else Done
      ensures newBuffer1 == Some([]) && newBuffer2 == Some([]) && buffersToWrite == []
    {
      StepKeepsInv(Model(), Event.Test);
      rest := rest.(pc := if running then Ready else Done);
      goOn := running;
    }

    /** The critical section of the back end. */
    method SwapBuffers()
      requires Inv(Model()) && rest.pc == Ready
      modifies this
      ensures Model() == Swap(old(Model())) && Inv(Model()) && rest.pc == Writing
      ensures buffersToWrite != [] && Held(Model()) == old(Held(Model()))
    {
      SwapConserves(Model());
      SwapHeld(Model());
      buffers := buffers + [currentBuffer];
      currentBuffer := newBuffer1.value;
      newBuffer1 := None;
      buffersToWrite, buffers := buffers, buffersToWrite;
      if nextBuffer.None? {
        nextBuffer := newBuffer2;
        newBuffer2 := None;
      }
      rest := rest.(pc := Writing);
    }

    method WriteLines(lines: Buffer)
      modifies this`output
      ensures output == old(output) + Texts(lines)
    {
      for i := 0 to |lines|
        invariant output == old(output) + Texts(lines[..i])
      {
        output := output + [Text(lines[i])];
        assert Texts(lines[..i + 1]) == Texts(lines[..i]) + [Text(lines[i])];
      }
      assert lines[..|lines|] == lines;
    }

    method WriteAll(bs: seq<Buffer>)
      modifies this`output
      ensures output == old(output) + Texts(Flatten(bs))
    {
      for i := 0 to |bs|
        invariant output == old(output) + Texts(Flatten(bs[..i]))
      {
        WriteLines(bs[i]);
        assert bs[..i + 1] == bs[..i] + [bs[i]];
        FlattenSnoc(bs[..i], bs[i]);
        assert Texts(Flatten(bs[..i]) + bs[i]) == Texts(Flatten(bs[..i])) + Texts(bs[i]);
      }
      assert bs[..|bs|] == bs;
    }

    /** Too many buffers are dropped, but for two; the others are written. */
    method WriteKept()
      modifies this`output, this`buffersToWrite
      ensures buffersToWrite == Kept(old(buffersToWrite))
      ensures output == old(output) + Items(RoundOf(old(buffersToWrite)))
    {
      ghost var before, bs := output, buffersToWrite;
      if |buffersToWrite| > 25 {
        output := output + [Notice(|buffersToWrite| - 2)];
        buffersToWrite := buffersToWrite[..2];
      }
      ghost var notice := output[|before|..];
      assert output == before + notice;
      WriteAll(buffersToWrite);
      assert Items(RoundOf(bs)) == notice + Texts(Flatten(Kept(bs)));
      Assoc(before, notice, Texts(Flatten(Kept(bs))));
    }

    /** A spare buffer from those written, emptied. */
    method Recycle(spare: Option<Buffer>) returns (r: Option<Buffer>)
      requires spare.None? ==> buffersToWrite != []
      modifies this`buffersToWrite
      ensures (r, buffersToWrite) == Refill(spare, old(buffersToWrite)) && r.Some?
    {
      r := spare;
      if r.None? {
        r := Some([]);
        buffersToWrite := buffersToWrite[..|buffersToWrite| - 1];
      }
    }

    /** The rest of the back end's turn; the asserts of the source are proved on the way. */
    method WriteBuffers()
      requires Inv(Model()) && rest.pc == Writing
      modifies this
      ensures Model() == WriteOut(old(Model())) && Inv(Model()) && rest.pc == AtTest
    {
      ghost var s := Model();
      StepKeepsInv(s, Event.Write);
      WriteKept();
      if |buffersToWrite| > 2 {
        buffersToWrite := buffersToWrite[..2];
      }
      newBuffer1 := Recycle(newBuffer1);
      newBuffer2 := Recycle(newBuffer2);
      buffersToWrite := [];
      rest := rest.(pc := AtTest, rounds := rest.rounds + [RoundOf(s.toWrite)]);
    }

    // ----- threadFunc, with the lines appended meanwhile: a run of both threads -----

    method AppendNext(line: Line, ghost s: Log, ghost es: seq<Event>)
      requires Inv(Model()) && LogRun(s, es, Model())
      modifies this
      ensures Inv(Model()) && LogRun(s, es + [Event.Line(line)], Model()) && SameBackEnd(old(Model()), Model())
    {
      RunSnoc(s, es, Model(), Event.Line(line));
      Append(line);
    }

    method AppendAll(lines: seq<Line>, ghost s: Log, ghost es0: seq<Event>) returns (ghost es: seq<Event>)
      requires Inv(Model()) && LogRun(s, es0, Model())
      modifies this
      ensures Inv(Model()) && LogRun(s, es, Model()) && SameBackEnd(old(Model()), Model())
    {
      es := es0;
      for i := 0 to |lines|
        invariant Inv(Model()) && LogRun(s, es, Model()) && SameBackEnd(old(Model()), Model())
      {
        AppendNext(lines[i], s, es);
        es := es + [Event.Line(lines[i])];
      }
    }

    method MaybeStop(stops: bool, ghost s: Log, ghost es0: seq<Event>) returns (ghost es: seq<Event>)
      requires Inv(Model()) && LogRun(s, es0, Model())
      modifies this`rest
      ensures Inv(Model()) && LogRun(s, es, Model())
      ensures rest.pc == old(rest.pc) && rest.running == (old(rest.running) && !stops)
    {
      es := es0;
      if stops {
        RunSnoc(s, es, Model(), Event.Stop);
        es := es + [Event.Stop];
        Stop();
      }
    }

    /** One turn, with what happens before the lock is taken and while writing. */
    method RunTurn(turn: Turn, ghost s: Log, ghost es0: seq<Event>) returns (ghost es: seq<Event>)
      requires Inv(Model()) && LogRun(s, es0, Model()) && rest.pc == Ready
      modifies this
      ensures Inv(Model()) && LogRun(s, es, Model())
      ensures rest.pc == AtTest && rest.running == (old(rest.running) && !turn.stops)
    {
      es := AppendAll(turn.before, s, es0);
      RunSnoc(s, es, Model(), Event.Lock);
      es := es + [Event.Lock];
      SwapBuffers();
      es := AppendAll(turn.during, s, es);
      es := MaybeStop(turn.stops, s, es);
      RunSnoc(s, es, Model(), Event.Write);
      es := es + [Event.Write];
      WriteBuffers();
    }

    /** Turn after turn until running_ is seen to be false. */
    method ThreadFunc(running: bool, turns: seq<Turn>) returns (n: nat, ghost es: seq<Event>)
      requires Inv(Model()) && rest.pc == AtTest && running == rest.running
      modifies this
      ensures Inv(Model()) && LogRun(old(Model()), es, Model()) && n <= |turns|
      ensures if rest.running then rest.pc == AtTest && n == |turns| else rest.pc == Done
    {
      ghost var s := Model();
      var on := running;
      n, es := 0, [];
      while on && n < |turns|
        invariant n <= |turns| && Inv(Model()) && LogRun(s, es, Model()) && rest.pc == AtTest && on == rest.running
      {
        RunSnoc(s, es, Model(), Event.Test);
        es := es + [Event.Test];
        var goOn := TestRunning(on);
        es := RunTurn(turns[n], s, es);
        on := on && !turns[n].stops;
        n := n + 1;
      }
      if !on {
        RunSnoc(s, es, Model(), Event.Test);
        es := es + [Event.Test];
        var goOn := TestRunning(on);
      }
    }
  }

  datatype Turn = Turn(before: seq<Line>, during: seq<Line>, stops: bool)

  ghost predicate LogRun(s: Log, es: seq<Event>, m: Log) {
    Legal(LOGGING, s, es) && m == Exec(LOGGING, s, es)
  }

  lemma RunSnoc(s: Log, es: seq<Event>, m: Log, e: Event)
    requires LogRun(s, es, m) && Enabled(m, e)
    ensures LogRun(s, es + [e], Apply(m, e))
  {
    Snoc(LOGGING, s, es, e);
  }

  /** append() leaves the back end alone. */
  predicate SameBackEnd(s: Log, s': Log) {
    s'.pc == s.pc && s'.running == s.running
  }
}
