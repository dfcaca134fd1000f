# muduo in Dafny

A model of the hard parts of the muduo network library, with proofs of what each part promises. The
library's protocols are stated as state machines over the steps its threads take, and the properties are
proved of every run: every interleaving, every answer of the kernel, every cut of a byte stream. Its
imperative code is written as classes and methods that update the same fields, each proved equal to the
function of the specification that the properties are about.

`dafny verify dfyconfig.toml` checks the whole project.

## What is modelled

| file | part of the library |
|---|---|
| Arith, Dates, UtcTimes, TimeZones | calendar arithmetic, broken-down UTC time, the time zone table and the conversion to and from local time |
| Machines | runs of a state machine: `Legal`, `Exec`, and the rule that what every step keeps holds after every run |
| EventLoops, LoopTurns | the loop's task queue, its eventfd, and the loop itself |
| TcpConnections, TcpSends, TcpCloses, TcpConnectionClass | the life of a connection, its output path, the order of messages from all threads, the dispatch of its channel, and how it ends with either poller behind it |
| TimerLists, TimerQueues, TimerBatches, TimerRepeats, TimerCancels, TimerQueueClass | the two timer sets, the ownership of timers, the batch of expired timers and its callbacks, repetition, the one alarm, and when cancelling is final |
| AsyncLogs, AsyncLoggingClass | the double-buffered logger |
| BoundedQueues | the bounded blocking queue as a monitor |
| Pollers, PollerClasses | the poll and epoll back ends, driven side by side |
| Options, Seqs, Endian, Buffers | optional values, byte sequences, integers in network order, the gap buffer |
| Codecs | the length-prefixed protobuf frames, on top of the buffer |
| Https, HttpContextClass | the incremental HTTP request parser |
| LogStreams | integer printing into a fixed buffer |

## Where the code falls short of the plain statement

Several properties hold only under a condition. Each is proved as an if-and-only-if whose condition is known
before the call:

- A local time converts back to its second unless it lies in the first pass of a repeated stretch that is
  not the end of daylight saving by exactly an hour (`TimeZones.RoundTripAt`, `TimeZones.RoundTrip`).
- Day numbers give valid dates exactly from -32044 on (`Dates.ValidFromFirstDayOn`); the day of the week is in
  range exactly from day -1 on, and on earlier Sundays (`UtcTimes.WeekDayRange`); `tm_yday` is the ordinal date
  except in the year -4800 (`UtcTimes.YdayIsOrdinalDate`).
- The loop never sleeps on a waiting task exactly if, when it is entered, no task waits or a wakeup is written
  or owed (`EventLoops.NoLostWakeup`). A task the loop thread queues itself before `loop()` breaks this, unless
  somebody else's wakeup is there (`EventLoops.QueuedBeforeLoop`).
- `shutdown()` in the loop thread closes the write side with nothing left behind, in every later run, exactly if
  no other thread's bytes are still in the loop's queue, or the connection, still writing, is about to be closed
  (`TcpConnections.CleanShutdown`). `shutdown()` in another thread does so exactly if all that is owed is in one
  piece, the buffer or one queued message, or the connection is about to be closed
  (`TcpConnections.CleanForeignShutdown`). So `send()` and then `shutdown()` in another thread are safe exactly
  if nothing was owed before (`TcpConnections.SendThenShutdown`). Shutting down a connection that is already
  closed does not count: its bytes were lost when it was closed.
- A connection has one UP, one DOWN and one close as long as no channel that watches nothing is disabled again.
  With EPollPoller such a step, closing a connection that neither reads nor writes, or `stopRead` after the close,
  makes the kernel watch the fd for nothing; a hangup reported before the connection is destroyed then closes
  it a second time. The condition is exact step by step (`TcpCloses.OneUpOneDown`, `TcpCloses.HarmExactly`), and
  seen from the close: nothing further happens in any later run without `stopRead` exactly if something was
  watched or the poller is PollPoller, and in any later run at all exactly if it was also not reading
  (`TcpCloses.CloseIsFinal`). `TcpCloses.IdleForceCloseFails` is an input.
- The dispatch of HUP without IN together with PRI or RDHUP can close a live connection twice, and that of a HUP
  or a readable end of file closes a closed one again (`TcpConnections.HangupDispatch`). `connectDestroyed` while
  shutting down violates an assert unless nothing is watched (`TcpConnections.DestroyedWhileDisconnecting`).
- A log line is accepted exactly if it is shorter than a buffer (`AsyncLogs.AcceptsShortLines`). With nothing
  appended after `stop()`, all lines are written when the back end has returned exactly if at the call it was
  about to take the lock, or nothing waited for it (`AsyncLogs.StopWritesAll`).
- Cancelling a timer keeps it from running again exactly if the loop has inserted it; one that another thread
  has just created is not found, and fires (`TimerCancels.CancelIsFinal`).
- A bounded queue is free of deadlock exactly if its capacity is at least one (`BoundedQueues.NoDeadlock`).
- PollPoller's first update needs a non-empty mask (`Pollers.FirstUpdateNeedsEvents`). EPollPoller makes the
  kernel watch an fd for nothing exactly when an update with an empty mask is a channel's first or follows
  another one and the kernel did not do so before (`Pollers.WatchedForNothing`).
- A sent message arrives exactly if its frame is not longer than the receiver allows; the sender does not
  check (`Codecs.ArrivesIffNotTooLong`).
- After an HTTP error the next request line violates an assert exactly if the rejected line began with a known
  method (`Https.MethodSetOnce`).

Where comments and code disagree the code is followed. base/Date.h restricts years to 1900 to 2500; the
arithmetic is a bijection from 1 March -4800 on. net/http/HttpContext.cc speaks of an empty line at the
end of the headers; any line without a colon ends them (`Https.LineWithoutColonEnds`).

## Model

| member | source | states |
|---|---|---|
| Arith.Truncates | base/Date.cc:22-44 | C++ division and remainder: the quotient has the magnitude of the quotient of the magnitudes, the remainder the sign of the dividend |
| Dates.DayRoundTrip | base/Date.cc:22-44 | every day number from -32044 on becomes a valid Gregorian date that has this number |
| Dates.DateRoundTrip | base/Date.cc:22-44 | every Gregorian date from 1 March -4800 on comes back from its day number |
| Dates.NextDayIsNextNumber | base/Date.cc:22-29 | the day after, by month lengths and leap years, has the next number |
| Dates.DateIsNumbering | base/Date.cc:22-44 | the two conversions are inverse bijections between dates and numbers that count days one by one |
| Dates.DateOrder | base/Date.h:110-113 | comparing day numbers is comparing dates, in both directions |
| Dates.OnlyNumbering | base/Date.cc:22-44 | any function that counts days from 1 March -4800 agrees with the day number on every date |
| Dates.ValidFromFirstDayOn | base/Date.cc:31-44 | a day number gives a valid date if and only if it is at least -32044 |
| UtcTimes.FillHMS | base/TimeZone.cc:77-83 | hour, minute and second are in range and add up to the second of the day |
| UtcTimes.SplitDays | base/TimeZone.cc:329-335 | truncating division with its correction is flooring division, for negative seconds too |
| UtcTimes.ToUtcTime | base/TimeZone.cc:324-350 | the fields of `UtcTime`, which floors, for every second, negative ones included |
| UtcTimes.UtcRoundTrip | base/TimeZone.cc:324-365 | broken-down UTC time comes back to its second, with a valid date and clock, for every second from 1 March -4800 on |
| UtcTimes.FieldRoundTrip | base/TimeZone.cc:324-365 | every valid date and clock comes back from its second |
| UtcTimes.EpochIsJanuaryFirst1970 | base/Date.cc:46 | day 2440588 is 1 January 1970, a Thursday |
| UtcTimes.WeekDayRange | base/Date.h:97-101 | the day of the week is one of 0 to 6 if and only if the day number is at least -1 or an earlier Sunday's |
| UtcTimes.WeekDayAdvances | base/Date.h:97-101 | for every day number the next day is one further up to sevens, and comes out as the next of 0 to 6 if and only if the day number is at least -1 or the next day is a Sunday |
| UtcTimes.WdayIsWeekDay | base/TimeZone.cc:337-349 | `tm_wday` of every second counts the days from Thursday, 1 January 1970, up to sevens, as one of 0 to 6 from day -1 on and negative before but for Sundays; `tm_yday` is zero unless asked for |
| UtcTimes.YdayIsOrdinalDate | base/TimeZone.cc:338-349 | `tm_yday` counts the days since 1 January by the month lengths if and only if the year is after -4800 |
| TimeZones.BuildTransitions | base/TimeZone.cc:198-203 | each transition keeps its time and index and gets the local time its offset gives |
| TimeZones.LowerBound | base/TimeZone.cc:236-239 | binary search finds the first transition not before the key |
| TimeZones.FindLocaltime | base/TimeZone.cc:225-257 | the search yields the local time of the last transition not after the key, or the first local time before them all |
| TimeZones.ToLocalTime | base/TimeZone.cc:279-299 | the fields are those of the second shifted by the offset in force |
| TimeZones.LocalTimeOf | base/TimeZone.cc:225-299 | before all transitions the first entry of the table is in force, and from each transition up to the next the entry it names: offset, daylight saving and fields |
| TimeZones.FromLocalTime | base/TimeZone.cc:301-322 | the second that `FromLocal` gives, whose inverse property is `RoundTripAt` |
| TimeZones.SkippedLocalTime | base/TimeZone.cc:301-322 | a local time skipped by a step forward is taken by the offset before the step, and so shown later by as much as the step |
| TimeZones.LocalSearch | base/TimeZone.cc:301-309 | searching by local time stops at the transition in force, or one later exactly when that one sets the clocks back past the second |
| TimeZones.RoundTripAt | base/TimeZone.cc:279-322 | local time comes back to its second if and only if the second is not in the first pass of a repeated stretch other than the end of daylight saving |
| TimeZones.RoundTrip | base/TimeZone.cc:279-322 | all seconds come back if and only if every step back of the table is an hour from a daylight saving entry to one that is not |
| EventLoops.StepKeepsInv | net/EventLoop.cc:123-145 | every step of every thread keeps the queue's history consistent, and keeps a wakeup written or owed whenever tasks wait before poll |
| EventLoops.NoLostWakeup | net/EventLoop.cc:123-188 | no run leaves the loop in poll with tasks waiting and nothing to wake it, if and only if `loop()` is entered with none waiting or a wakeup written or owed; nor is another thread's quit ignored |
| EventLoops.QueuedBeforeLoop | net/EventLoop.cc:177-188 | a task the loop thread queues before `loop()` leaves it in the state that stalls, if and only if no wakeup is written or owed by others |
| EventLoops.RunInOrder | net/EventLoop.cc:278-295 | after any run the tasks that ran are a prefix of those queued, and each ran in a batch taken after it was queued |
| EventLoops.NextBatchTakesAll | net/EventLoop.cc:278-295 | once a further batch is over, every task queued before it has run |
| LoopTurns.RunInPushOrder | net/EventLoop.cc:177-188 | over any run the tasks that have run, are being run and wait are those pushed, by any thread, in the order of the critical sections |
| EventLoops.RunPendingEffect | net/EventLoop.cc:278-295 | doPendingFunctors runs exactly the tasks that waited; what is queued meanwhile, by them or by other threads, waits for the next batch, in order |
| EventLoops.RunPendingIsRun | net/EventLoop.cc:278-295 | doPendingFunctors as a whole is a legal run of the steps |
| EventLoops.TurnsAreRun | net/EventLoop.cc:114-149 | so is the whole loop, through any number of turns |
| EventLoops.OneTurnRunsAll | net/EventLoop.cc:114-149 | after one full turn every task queued before it, by whatever thread, has run, also if the loop quits in it |
| LoopTurns.QueueManyWrites | net/EventLoop.cc:177-188 | outside of doPendingFunctors one wakeup is written for each task of another thread, inside one for each task |
| LoopTurns.EventfdAfterTurn | net/EventLoop.cc:123-145 | after a turn that handled the wakeup channel the eventfd holds exactly what was written since it was read; otherwise that on top of what it held |
| LoopTurns.QuitEndsLoop | net/EventLoop.cc:114-161 | the loop ends exactly with the first turn in which anyone quits, and finishes that turn |
| EventLoops.EventLoop.constructor | net/EventLoop.cc:69-100 | a new loop satisfies the invariant, with nothing queued |
| EventLoops.EventLoop.HandleRead | net/EventLoop.cc:267-275 | reading the eventfd clears it |
| EventLoops.EventLoop.QueueInLoop | net/EventLoop.cc:177-188 | from another thread: one push and one wakeup, as a legal run |
| EventLoops.EventLoop.QueueInOwnLoop | net/EventLoop.cc:177-188 | from the loop thread, in a callback or outside of `loop()`: the task is appended, and the eventfd written exactly while tasks are being run |
| EventLoops.EventLoop.QuitFrom | net/EventLoop.cc:151-161 | from another thread: the flag and then a wakeup, as a legal run |
| EventLoops.EventLoop.RunFunctor | net/EventLoop.cc:289-293 | one task, with what it and other threads queue meanwhile |
| EventLoops.EventLoop.HandleChannels | net/EventLoop.cc:136-141 | the handlers of a list of active channels one after the other: what is queued by or during each, in order |
| EventLoops.EventLoop.HandleActive | net/EventLoop.cc:136-141 | the whole list, with the wakeup channel, if it was reported, in its place |
| EventLoops.EventLoop.DoPendingFunctors | net/EventLoop.cc:278-295 | the loop over the swapped vector does what `RunPending` says, tasks queued on the way, here and elsewhere, included |
| EventLoops.EventLoop.HandleEvents | net/EventLoop.cc:123-143 | poll and the handlers of one turn, of the channels before and behind the wakeup channel, in the order reported |
| EventLoops.EventLoop.RunTurn | net/EventLoop.cc:123-145 | one turn of the loop |
| EventLoops.EventLoop.NextTurn | net/EventLoop.cc:123-145 | one turn leaves the state the loop will end in the same |
| EventLoops.EventLoop.RunTurns | net/EventLoop.cc:123-145 | so does the loop itself, which stops exactly when quit is seen or the turns are over |
| EventLoops.EventLoop.LoopThrough | net/EventLoop.cc:114-149 | the main loop, entered for the first time or again, turn by turn until quit is seen; a quit from before is cleared |
| TcpConnections.WholeMessages | net/TcpConnection.cc:157-215 | a message is accepted whole behind all others, or dropped whole leaving everything as it was |
| TcpConnections.SendConserves | net/TcpConnection.cc:157-215 | sending keeps wire and buffer equal to the accepted messages, on the fast and the slow path |
| TcpConnections.WriteConserves | net/TcpConnection.cc:391-429 | so does handleWrite, whatever part the kernel takes |
| TcpConnections.StepKeepsInv | net/TcpConnection.cc:95-444 | every event, a report of a watched-for-nothing channel and a second close included, keeps byte conservation, DOWN after UP, and no assert failed before the close |
| TcpConnections.NoByteLost | net/TcpConnection.cc:157-215 | after any run the bytes on the wire followed by the buffer are the accepted messages in order; while up, the channel waits for POLLOUT exactly if the buffer is non-empty |
| TcpSends.SendExactly | net/TcpConnection.cc:157-215 | a message is dropped if and only if the connection is closed, or nothing waits before it and the kernel reports a broken connection; otherwise it is accepted, the part taken at once is on the wire and the rest behind the buffer |
| TcpSends.SendQueues | net/TcpConnection.cc:174-208 | the completion callback is queued exactly if the whole message went out at once, the high-water callback exactly if the buffer crossed the mark from below, with its new length |
| TcpSends.WriteExactly | net/TcpConnection.cc:391-429 | exactly what the kernel takes moves from the front of the buffer to the wire; the step that empties it stops writing, queues the completion callback and closes the write side of a connection shutting down |
| TcpSends.StepQueues | net/EventLoop.cc:177-188 | whatever a step queues goes behind what waits; running a task takes off the first |
| TcpSends.ForeignOrder | net/TcpConnection.cc:102-125 | over any run the messages of other threads whose turn has come, followed by those queued, are all that were given to send() while connected, in order |
| TcpSends.SentInOrder | net/TcpConnection.cc:102-215 | over any run the bytes on the wire and in the buffer are the messages in the order of their turn, those of the loop thread and those of other threads, but for what came after the close or found the connection broken |
| TcpCloses.OneUpOneDown | net/TcpConnection.cc:346-444 | after any run in which no step disables a channel that watches nothing, the callbacks are a beginning of UP, DOWN, close; removal comes after DOWN with an empty mask; no assert has failed |
| TcpCloses.HarmExactly | net/TcpConnection.cc:336-444 | after any such run, a further step makes wrong callbacks or a failed assert possible later, all later steps being harmless, if and only if it closes a connection that watches nothing or stops reading on one, with EPollPoller or on a removed channel |
| TcpCloses.CloseIsFinal | net/TcpConnection.cc:431-444 | every run from the close without a later stopRead keeps to UP, DOWN, close and violates no assert, if and only if something was watched at the close or the poller is PollPoller; every run at all, if and only if the connection was also not reading |
| TcpCloses.IdleForceCloseFails | net/TcpConnection.cc:262-292 | with EPollPoller: established, reading stopped, closed by force, and a hangup reported; the callbacks are UP, DOWN, close, DOWN, close, and the assert of handleClose fails |
| TcpCloses.WatchIsUpdate | net/Channel.h:71-79 | what the connection records of its channel is what the back end has after each update: the same mask, and watched for nothing exactly if EPollPoller left the fd in the kernel with an empty one |
| TcpConnections.HandleEventIsRun | net/Channel.cc:91-130 | the dispatch in one go is a legal run of the single callbacks, in the order close, error, read, write |
| TcpSends.EventExactly | net/Channel.cc:91-130 | one round of callbacks closes for HUP without IN and for an end of file that IN, PRI or RDHUP lead to, writes for OUT, and does nothing else |
| TcpConnections.HangupDispatch | net/Channel.cc:91-130 | no answer of read can make the close handler's assert fail, if and only if HUP without IN comes without PRI and RDHUP to a live connection, and neither to a closed one |
| TcpConnections.DestroyedWhileDisconnecting | net/TcpConnection.cc:357-368 | destroying a connection that is shutting down violates the removal assert if and only if the channel reads or bytes are buffered |
| TcpConnections.GracefulShutdown | net/TcpConnection.cc:217-236 | with calls in the loop thread the write side of a live connection is closed at most once, with every accepted byte on the wire, and at the latest by the step that drains the buffer |
| TcpSends.ShutdownHappens | net/TcpConnection.cc:217-236 | in every run after shutdown, in whatever thread, the write side of a connection still up has been closed once nothing is buffered and no shutdown waits in the queue |
| TcpSends.ForceCloseHappens | net/TcpConnection.cc:262-292 | in every run after forceClose the connection is closed once the queue has no close left |
| TcpSends.ReadingAsAsked | net/TcpConnection.cc:316-344 | of a connection that is up, startRead and stopRead switch reading and the read mask, and nothing else |
| TcpConnections.CleanShutdown | net/TcpConnection.cc:217-236 | in every run after shutdown in the loop thread the write side closes with nothing owed, if and only if the loop's queue holds no bytes of another thread's send, or the connection is writing and about to be closed |
| TcpConnections.CleanForeignShutdown | net/TcpConnection.cc:217-236 | the same after shutdown in another thread, if and only if what is owed is one piece, the buffer or one queued message, or the connection is about to be closed |
| TcpConnections.SendThenShutdown | net/TcpConnection.cc:102-125 | send and then shutdown in another thread leave nothing behind in any run, if and only if nothing was owed before or the connection is about to be closed |
| TcpConnections.UnaskedAlways | net/TcpConnection.cc:217-270 | after any run a connected connection has no shutdown and no close in the loop's queue, so the premises above hold |
| TcpConnectionClass.TcpConnection.constructor | net/TcpConnection.cc:42-70 | a new connection is connecting, with empty buffers and mask, and satisfies the invariant |
| TcpConnectionClass.TcpConnection.Update | net/Channel.cc:57-61 | the mask, and whether the poller leaves the fd watched for nothing |
| TcpConnectionClass.TcpConnection.EnableWriting | net/TcpConnection.cc:210-213 | the channel writes; the poller is told only if it did not |
| TcpConnectionClass.TcpConnection.QueueHighWater | net/TcpConnection.cc:203-208 | the callback is queued exactly if the buffer crosses the mark from below |
| TcpConnectionClass.TcpConnection.Send | net/TcpConnection.cc:102-125 | only while connected; in the loop thread at once, from another thread queued; the invariant stays |
| TcpConnectionClass.TcpConnection.WriteDirect | net/TcpConnection.cc:170-195 | how much the direct write took, and whether the connection is broken; the completion callback is queued exactly if all went out |
| TcpConnectionClass.TcpConnection.BufferRest | net/TcpConnection.cc:201-214 | the rest goes behind the buffer, writing is enabled, the high-water callback is queued when the mark is crossed |
| TcpConnectionClass.TcpConnection.AcceptMessage | net/TcpConnection.cc:197-215 | an accepted message is on the wire up to what was taken, and in the buffer from there |
| TcpConnectionClass.TcpConnection.SendInLoop | net/TcpConnection.cc:157-215 | the bytes on the wire and in the buffer grow by exactly the message, or nothing changes at all; the invariant stays |
| TcpConnectionClass.TcpConnection.ShutdownInLoop | net/TcpConnection.cc:228-236 | at most one more shutdown, exactly if the channel is not writing, with what is owed at that moment |
| TcpConnectionClass.TcpConnection.Shutdown | net/TcpConnection.cc:217-226 | only while connected; in the loop thread at once, from another thread queued; no byte is lost and the invariant stays |
| TcpConnectionClass.TcpConnection.ForceClose | net/TcpConnection.cc:262-270 | a live connection is shutting down and has its close queued; the invariant stays |
| TcpConnectionClass.TcpConnection.ForceCloseInLoop | net/TcpConnection.cc:284-292 | afterwards the connection is closed, whether it was live or not; the invariant stays |
| TcpConnectionClass.TcpConnection.HandleClose | net/TcpConnection.cc:431-444 | the callbacks made are exactly UP, DOWN, close, nothing is watched, no byte changes; the invariant stays |
| TcpConnectionClass.TcpConnection.HandleRead | net/TcpConnection.cc:370-389 | what was received is what the callback took followed by the input buffer, in order; end of file, and nothing else, closes |
| TcpConnectionClass.TcpConnection.HandleWrite | net/TcpConnection.cc:391-429 | bytes only move from the buffer to the wire; the write side is closed exactly by the step that empties the buffer of a connection shutting down; the invariant stays |
| TcpConnectionClass.TcpConnection.FinishWriting | net/TcpConnection.cc:401-412 | writing stops, the completion callback is queued, a pending shutdown is carried out |
| TcpConnectionClass.TcpConnection.HandleClosing | net/Channel.cc:96-122 | the hangup and read callbacks, for a live or a closed connection: live afterwards exactly if it was and neither closed it |
| TcpConnectionClass.TcpConnection.HandleEvent | net/Channel.cc:91-130 | one round of callbacks in the order of the source, for a live or a closed connection, keeps bytes and invariant; live afterwards exactly if it was, without hangup and end of file |
| TcpConnectionClass.TcpConnection.ConnectEstablished | net/TcpConnection.cc:346-355 | UP, as the only callback so far; the invariant stays |
| TcpConnectionClass.TcpConnection.ConnectDestroyed | net/TcpConnection.cc:357-368 | removed from the poller without violating an assert; after a connected state or a close the callbacks include UP and DOWN, and the invariant stays |
| TcpConnectionClass.TcpConnection.StartReadInLoop | net/TcpConnection.cc:321-329 | reading is on; for a live connection the invariant stays |
| TcpConnectionClass.TcpConnection.StopReadInLoop | net/TcpConnection.cc:336-344 | reading is off, also after the close, when the poller is told once more to watch nothing; no byte changes, no assert fails, and once established the invariant stays |
| TcpConnectionClass.TcpConnection.DoTask | net/TcpConnection.cc:152-292 | a task taken off the queue does what it does at the front of the queue |
| TcpConnectionClass.TcpConnection.RunTask | net/TcpConnection.cc:152-292 | the first queued task; the tasks behind it stay in order; the invariant stays |
| TcpConnectionClass.TcpConnection.RunNext | net/EventLoop.cc:289-293 | one more task extends the run by its step |
| TcpConnectionClass.TcpConnection.RunQueue | net/EventLoop.cc:289-293 | all tasks of the connection that wait, for any answers of the kernel, as a legal run of it that keeps the invariant |
| TimerLists.InsertedEntries | net/TimerQueue.cc:267-271 | insertion adds one entry, and says which is first |
| TimerLists.InsertedSorted | net/TimerQueue.cc:267-271 | insertion keeps the order by time and address |
| TimerLists.RemovedEntries | net/TimerQueue.cc:169-170 | erasing takes exactly that entry and keeps the order |
| TimerLists.DueSplits | net/TimerQueue.cc:208-210 | the sentry splits the entries into those due and those later |
| TimerQueues.StepKeepsInv | net/TimerQueue.cc:149-280 | every step keeps index agreement, single ownership, unique sequence numbers, cancellation, that a timer which has been in a batch is due exactly an interval later, and the alarm |
| TimerQueues.SizesAgree | net/TimerQueue.cc:206-221 | the two sets have the same size |
| TimerQueues.MemorySafe | net/TimerQueue.cc:160-280 | after any run the two sets describe the same timers with current expirations, no freed timer was touched, none freed twice, no assert failed |
| TimerQueues.AlarmNeverStranded | net/TimerQueue.cc:44-59 | after any run, outside handleRead, a waiting timer has the alarm set no later than its time or 100 microseconds after arming, whatever the expirations |
| TimerQueues.CancelTouchesOnlyItsOwn | net/TimerQueue.cc:160-179 | a stale id affects no other timer, also one that lives at its old address |
| TimerCancels.CancelExactly | net/TimerQueue.cc:160-179 | an active timer leaves both sets and is freed; another id is remembered while callbacks run, and forgotten otherwise |
| TimerQueues.ExpiredExactly | net/TimerQueue.cc:181-223 | the batch is exactly the timers due, in order, and only later ones stay; the alarm is used up and no cancellation is remembered from before |
| TimerBatches.EveryCallbackOnce | net/TimerQueue.cc:181-198 | whatever callbacks and other threads do meanwhile, when the callbacks are over exactly those of the timers that were due have run, once each, in order |
| TimerBatches.HandledReadIsRun | net/TimerQueue.cc:181-202 | handleRead as a whole, with what its callbacks do, is a legal run of the steps |
| TimerBatches.HandledReadRuns | net/TimerQueue.cc:181-202 | and runs exactly the callbacks of the timers due |
| TimerRepeats.AddExactly | net/TimerQueue.cc:133-158 | an added timer is due at the time given, with the interval given and the next number; nothing else changes in the sets |
| TimerRepeats.AddQueuedExactly | net/TimerQueue.cc:149-158 | so is one that another thread created, when the loop inserts it |
| TimerRepeats.ResetExactly | net/TimerQueue.cc:225-254 | a timer of the batch is active again if and only if it repeats and was not cancelled from a callback, and then due exactly an interval after the batch; otherwise it has been freed |
| TimerRepeats.ResetSpares | net/TimerQueue.cc:225-254 | reset leaves every timer alone that is not in the batch |
| TimerRepeats.RepeatsForever | net/TimerQueue.cc:225-243 | in every run from its creation in which it is not cancelled, a repeating timer is never freed: it waits, is in a batch, or is on its way into the queue |
| TimerRepeats.AlarmExactly | net/TimerQueue.cc:74-95 | a timer that becomes the earliest sets the alarm for its time, or 100 microseconds from now if that is later, and any other leaves it; so does the end of reset for the earliest valid time |
| TimerCancels.CancelIsFinal | net/TimerQueue.cc:143-179 | a cancelled timer is in no batch that starts in any later run, if and only if it is in the queue or in the batch under way |
| TimerCancels.BoundsAlways | net/TimerQueue.cc:181-201 | the premises of that hold after any run |
| TimerQueues.BatchesAreSpaced | net/TimerQueue.cc:225-243 | after any run, two batches with the same timer are at least its interval apart |
| TimerQueueClass.HowMuchTimeFromNow | net/TimerQueue.cc:44-59 | seconds and nanoseconds that make up the distance, at least 100 microseconds |
| TimerQueueClass.LowerBound | net/TimerQueue.cc:209-210 | the first entry not before the sentry |
| TimerQueues.ResetAllIsRun | net/TimerQueue.cc:225-254 | reset as a whole is a legal run of the steps |
| TimerQueueClass.TimerQueue.constructor | net/TimerQueue.cc:105-117 | an empty queue satisfies the invariant |
| TimerQueueClass.TimerQueue.ResetTimerfd | net/TimerQueue.cc:74-95 | the alarm is set that distance from now |
| TimerQueueClass.TimerQueue.Insert | net/TimerQueue.cc:256-280 | both sets get the timer; the result tells whether the earliest time changed |
| TimerQueueClass.TimerQueue.AddTimerInLoop | net/TimerQueue.cc:149-158 | inserted, and the alarm set if it is now the earliest; the invariant holds again |
| TimerQueueClass.TimerQueue.CreateTimer | net/Timer.h:32-38 | a timer with the next sequence number at an unused address, in nobody's hands but the caller's |
| TimerQueueClass.TimerQueue.AddTimer | net/TimerQueue.cc:133-158 | created and inserted in the loop thread: active afterwards, the invariant stays |
| TimerQueueClass.TimerQueue.AddQueued | net/TimerQueue.cc:149-158 | a timer another thread created is inserted: active afterwards, the invariant stays |
| TimerQueueClass.TimerQueue.CancelInLoop | net/TimerQueue.cc:160-179 | erased and freed, or remembered during a batch, or nothing; the invariant stays |
| TimerQueueClass.TimerQueue.EraseActive | net/TimerQueue.cc:214-219 | the loop takes exactly the expired timers out of the second set |
| TimerQueueClass.TimerQueue.GetExpired | net/TimerQueue.cc:204-223 | both sets lose exactly the timers due, which are returned |
| TimerQueueClass.TimerQueue.BeginHandleRead | net/TimerQueue.cc:181-192 | the batch is taken, the flag is up, no cancellation is remembered |
| TimerQueueClass.TimerQueue.Calls | net/TimerQueue.cc:194-197 | what a callback does to the queue, call by call; the invariant stays |
| TimerQueueClass.TimerQueue.RunTimer | net/TimerQueue.cc:194-197 | one callback of the batch; the invariant stays |
| TimerQueueClass.TimerQueue.RunTimers | net/TimerQueue.cc:194-197 | the loop over the expired timers runs every callback, with what it does |
| TimerQueueClass.TimerQueue.EndHandleRead | net/TimerQueue.cc:198-201 | the flag is down and the batch reset; the invariant stays |
| TimerQueueClass.TimerQueue.HandleRead | net/TimerQueue.cc:181-202 | the whole handler does what `HandledRead` says, which runs exactly the callbacks due and keeps the invariant |
| TimerQueueClass.TimerQueue.Restart | net/Timer.cc:17-27 | the timer is due an interval after now and is in both sets again |
| TimerQueueClass.TimerQueue.Delete | net/TimerQueue.cc:238-242 | the timer is gone from memory, and nothing else |
| TimerQueueClass.TimerQueue.ResetOne | net/TimerQueue.cc:229-243 | a repeating timer not cancelled is restarted and inserted, any other freed; the invariant stays |
| TimerQueueClass.TimerQueue.FinishReset | net/TimerQueue.cc:245-253 | the alarm is set for the earliest timer |
| TimerQueueClass.TimerQueue.Reset | net/TimerQueue.cc:225-254 | the loop over the batch and the arming together |
| AsyncLogs.AppendHeld | base/AsyncLogging.cc:37-63 | a line shorter than a buffer is held behind all others, through a change of buffers too |
| AsyncLogs.HandsOver | base/AsyncLogging.cc:37-63 | a buffer is handed over exactly when the line does not fit into it with a byte to spare; the spare, or a new one, takes the line |
| AsyncLogs.StepKeepsInv | base/AsyncLogging.cc:37-160 | every step of both threads keeps the spare buffers and accounts for every line |
| AsyncLogs.NoLineLost | base/AsyncLogging.cc:37-160 | after any run file, buffers in flight, buffers_ and currentBuffer_ hold every accepted line once and in order, but for dropped runs announced by a notice; no assert of the back end has failed |
| AsyncLogs.RoundHolds | base/AsyncLogging.cc:115-134 | the lines kept followed by those dropped are all lines of the round; lines are dropped only with at least 24 buffers and a notice |
| AsyncLogs.WriteExactly | base/AsyncLogging.cc:115-134 | lines are dropped if and only if more than 25 buffers wait: the file then gets a notice of all but two and the lines of the first two, otherwise all lines and no notice, one item each, in order |
| AsyncLogs.WriteRefills | base/AsyncLogging.cc:136-158 | both spare buffers are back, empty, after every round |
| AsyncLogs.AcceptsShortLines | base/AsyncLogging.cc:37-63 | a line gets into a buffer if and only if it is shorter than one |
| AsyncLogs.StopWritesAll | base/AsyncLogging.cc:66-163 | in every run without appends from stop() on in which the back end returns, every line is written or dropped behind a notice, if and only if at the call it was about to take the lock or nothing waited |
| AsyncLoggingClass.AsyncLogging.constructor | base/AsyncLogging.cc:14-34 | four empty buffers satisfy the invariant |
| AsyncLoggingClass.AsyncLogging.Append | base/AsyncLogging.cc:37-63 | the line goes into the current buffer, or the buffer is handed over and a spare or new one takes it; held behind all others exactly if shorter than a buffer; the invariant stays |
| AsyncLoggingClass.AsyncLogging.Stop | base/AsyncLogging.h:50-55 | the flag is cleared, the invariant stays |
| AsyncLoggingClass.AsyncLogging.SwapBuffers | base/AsyncLogging.cc:90-109 | the back end takes all buffers, leaves a spare as current and another as next if there was none; every line is still held, and there is something to write; the invariant stays |
| AsyncLoggingClass.AsyncLogging.WriteLines | base/AsyncLogging.cc:130-134 | the file gets the lines of a buffer in order |
| AsyncLoggingClass.AsyncLogging.WriteAll | base/AsyncLogging.cc:130-134 | the file gets the lines of all buffers in order |
| AsyncLoggingClass.AsyncLogging.WriteKept | base/AsyncLogging.cc:115-134 | the file gets a notice if buffers are dropped, and then the lines of those kept |
| AsyncLoggingClass.AsyncLogging.Recycle | base/AsyncLogging.cc:142-156 | a missing spare is taken, emptied, from the buffers written |
| AsyncLoggingClass.AsyncLogging.WriteBuffers | base/AsyncLogging.cc:115-158 | dropping, writing and recycling do what `WriteOut` says, the asserts on the way hold, the invariant stays |
| AsyncLoggingClass.AsyncLogging.TestRunning | base/AsyncLogging.cc:81-85 | the loop goes on exactly while running; the asserts at its top hold |
| AsyncLoggingClass.AsyncLogging.AppendAll | base/AsyncLogging.cc:37-63 | lines appended one after the other are a run, which leaves the back end where it is |
| AsyncLoggingClass.AsyncLogging.RunTurn | base/AsyncLogging.cc:81-159 | one turn of the back end, with lines appended before and after it takes the buffers and a stop on the way, is a run that keeps the invariant |
| AsyncLoggingClass.AsyncLogging.ThreadFunc | base/AsyncLogging.cc:66-163 | turn after turn, with appends and a stop on the way, is a run that keeps the invariant, and ends exactly when the flag is seen cleared |
| BoundedQueues.PutKeepsInv | base/BoundedBlockingQueue.h:33-43 | put, first or after a wakeup, keeps the invariant whichever consumer the notify wakes |
| BoundedQueues.TakeKeepsInv | base/BoundedBlockingQueue.h:57-69 | take likewise |
| BoundedQueues.StepKeepsInv | base/BoundedBlockingQueue.h:33-69 | every step, spurious wakeups included, keeps order, capacity and enough woken threads for what is there |
| BoundedQueues.Fifo | base/BoundedBlockingQueue.h:33-69 | after any run the queue is within capacity and what was put is what was taken followed by the queue |
| BoundedQueues.NobodyOversleeps | base/BoundedBlockingQueue.h:33-69 | after any run there are no more items than woken consumers while a consumer sleeps, and no more free slots than woken producers while a producer sleeps |
| BoundedQueues.NoDeadlock | base/BoundedBlockingQueue.h:33-69 | no run ends with producers and consumers all asleep if and only if the capacity is at least one |
| BoundedQueues.BoundedBlockingQueue.constructor | base/BoundedBlockingQueue.h:25-31 | empty, with its capacity |
| BoundedQueues.BoundedBlockingQueue.NotifyNotEmpty | base/BoundedBlockingQueue.h:42 | the consumer chosen, if it sleeps, is woken, and no other thread |
| BoundedQueues.BoundedBlockingQueue.NotifyNotFull | base/BoundedBlockingQueue.h:67 | the producer chosen, if it sleeps, is woken, and no other thread |
| BoundedQueues.BoundedBlockingQueue.PutOnce | base/BoundedBlockingQueue.h:36-42 | one test of put: it sleeps exactly if the queue is full, or the item is at the end and a consumer notified; the invariant stays |
| BoundedQueues.BoundedBlockingQueue.WaitNotFull | base/BoundedBlockingQueue.h:36-39 | a wait: asleep, whatever others do meanwhile, and back with the mutex, among no sleeping or woken threads, its item still at hand; the invariant stays, this thread counting as one more woken producer |
| BoundedQueues.BoundedBlockingQueue.Put | base/BoundedBlockingQueue.h:33-43 | the wait loop, through any interference, is a run of the monitor; it returns with the item at the end, or still waits on a full queue |
| BoundedQueues.BoundedBlockingQueue.TakeOnce | base/BoundedBlockingQueue.h:60-68 | one test of take: it sleeps exactly if the queue is empty, or has the front item and notifies a producer; the invariant stays |
| BoundedQueues.BoundedBlockingQueue.Step | base/BoundedBlockingQueue.h:33-69 | any step of any thread on the fields is the step of the monitor |
| BoundedQueues.BoundedBlockingQueue.Others | base/BoundedBlockingQueue.h:33-69 | and so are all steps others take during a wait |
| BoundedQueues.BoundedBlockingQueue.WaitNotEmpty | base/BoundedBlockingQueue.h:60-63 | a wait: asleep, whatever others do meanwhile, and back with the mutex, among no sleeping or woken threads; the invariant stays, this thread counting as one more woken consumer |
| BoundedQueues.BoundedBlockingQueue.Take | base/BoundedBlockingQueue.h:57-69 | the wait loop, through any interference, is a run of the monitor; it returns the item taken last, or still waits on an empty queue |
| Pollers.PollJoin | net/poller/PollPoller.cc:87-101 | a new channel gets a slot of its own; slots, map and indices still agree |
| Pollers.PollChange | net/poller/PollPoller.cc:102-119 | a changed mask is stored, with the fd encoded as -fd-1 if empty; the rest agrees as before |
| Pollers.PollLeave | net/poller/PollPoller.cc:123-161 | removal by swapping in the last slot keeps the agreement in both directions |
| Pollers.SlotsDiffer | net/poller/PollPoller.cc:82-161 | no two channels share a slot or an fd |
| Pollers.FirstUpdateNeedsEvents | net/poller/PollPoller.cc:87-101 | the first update of a channel keeps the agreement if and only if its mask is non-empty; with an empty one its removal violates an assert |
| Pollers.EpollJoin | net/poller/EPollPoller.cc:133-152 | ADD of an absent fd; the tag mirrors the kernel |
| Pollers.EpollChange | net/poller/EPollPoller.cc:133-172 | ADD, MOD or DEL as the tag says, each accepted by the kernel |
| Pollers.EpollLeave | net/poller/EPollPoller.cc:178-200 | DEL exactly if the kernel has the fd |
| Pollers.InvAlways | net/poller/PollPoller.cc:82-161 | after any legal sequence of updates and removals both back ends agree with what the channels ask for, no epoll_ctl and no assert has failed |
| Pollers.SameInterest | net/poller/EPollPoller.cc:125-224 | after any such sequence both watch the same fds for the same non-empty masks, those asked for |
| Pollers.WatchedForNothing | net/poller/EPollPoller.cc:125-173 | after an update the kernel watches the fd with an empty mask if and only if the update has one, is the channel's first or follows another such, and the kernel did not do so before; PollPoller's slot exactly for a first update |
| Pollers.KernelPointers | net/poller/EPollPoller.cc:99-118 | after any legal sequence of updates and removals the pointer the kernel keeps with an fd is the channel registered for it |
| PollerClasses.Channel.constructor | net/Channel.cc:25-36 | nothing watched, index -1 |
| PollerClasses.PollPoller.constructor | net/poller/PollPoller.cc:22-25 | no slots, no channels |
| PollerClasses.PollPoller.AddSlot | net/poller/PollPoller.cc:87-101 | the slot at the end, its position in the channel |
| PollerClasses.PollPoller.ChangeSlot | net/poller/PollPoller.cc:102-119 | the channel's slot and no other is rewritten |
| PollerClasses.PollPoller.UpdateChannel | net/poller/PollPoller.cc:82-120 | add or change, told apart by the index |
| PollerClasses.PollPoller.MoveLast | net/poller/PollPoller.cc:143-160 | the last slot moves into the hole and its channel alone learns its new place |
| PollerClasses.PollPoller.DropLast | net/poller/PollPoller.cc:138-142 | a channel in the last slot goes with it |
| PollerClasses.PollPoller.DropSwapped | net/poller/PollPoller.cc:143-160 | any other channel's slot is taken by the last one |
| PollerClasses.PollPoller.RemoveChannel | net/poller/PollPoller.cc:123-161 | map, slots and indices as `PollRemove` says; the index in the removed channel stays as it was |
| PollerClasses.PollPoller.FillActiveChannels | net/poller/PollPoller.cc:59-79 | exactly the channels poll reported, in slot order, each with its events; the others untouched |
| PollerClasses.EPollPoller.constructor | net/poller/EPollPoller.cc:44-53 | no channels, nothing in the kernel |
| PollerClasses.EPollPoller.AddNew | net/poller/EPollPoller.cc:133-152 | registered and added to the kernel |
| PollerClasses.EPollPoller.Change | net/poller/EPollPoller.cc:143-172 | tag and kernel change together |
| PollerClasses.EPollPoller.UpdateChannel | net/poller/EPollPoller.cc:125-173 | add or change, told apart by the tag |
| PollerClasses.EPollPoller.RemoveChannel | net/poller/EPollPoller.cc:178-200 | out of the map, out of the kernel if there, tag new |
| PollerClasses.EPollPoller.FillActiveChannels | net/poller/EPollPoller.cc:99-118 | the channels of the events in their order, each with its events; the asserts that each is the one registered hold |
| Endian.IntRoundTrip | net/Endian.h:33-62 | every integer of 1, 2, 4 or 8 bytes, or any other width, is read back as written |
| Endian.NetworkOrder | net/Endian.h:33-62 | the most significant byte comes first: each byte is the digit of its weight, in two's complement |
| Endian.WireRoundTrip | net/Buffer.h:319-352 | bytes read as an integer are written back as the same bytes |
| Buffers.MoveDown | net/Buffer.h:437-439 | a copy toward the front of the same array, overlapping or not, moves the bytes unharmed |
| Buffers.Buffer.constructor | net/Buffer.h:57-65 | empty, with eight bytes in front |
| Buffers.Buffer.RetrieveAll | net/Buffer.h:174-178 | empty, with eight bytes in front |
| Buffers.Buffer.Retrieve | net/Buffer.h:130-142 | the contents lose their first bytes |
| Buffers.Buffer.RetrieveAsString | net/Buffer.h:186-193 | what is returned followed by what is left is what was there |
| Buffers.Buffer.Grow | net/Buffer.h:426-430 | a longer array with the same contents |
| Buffers.Buffer.MoveToFront | net/Buffer.h:433-443 | the same contents, moved to behind the eight bytes |
| Buffers.Buffer.EnsureWritableBytes | net/Buffer.h:220-228 | room for the bytes, the same contents; the assert of makeSpace holds |
| Buffers.Buffer.AppendWithin | net/Buffer.h:206-212 | appended in place when there is room |
| Buffers.Buffer.Append | net/Buffer.h:206-212 | the contents followed by the data |
| Buffers.Buffer.Unwrite | net/Buffer.h:243-247 | the contents lose their last bytes |
| Buffers.Buffer.Prepend | net/Buffer.h:383-390 | the data followed by the contents |
| Buffers.Buffer.AppendInt | net/Buffer.h:252-277 | the integer's bytes in network order behind the contents |
| Buffers.Buffer.PeekInt | net/Buffer.h:319-352 | the integer whose bytes the contents begin with |
| Buffers.Buffer.ReadInt | net/Buffer.h:283-313 | the integer whose bytes, followed by what is left, were the contents |
| Buffers.Buffer.PrependInt | net/Buffer.h:357-381 | the integer's bytes before the contents |
| Buffers.Buffer.Shrink | net/Buffer.h:393-401 | a new array with the same contents and the room asked for |
| Buffers.Buffer.ReadFd | net/Buffer.cc:28-66 | all bytes read, across both pieces of memory, behind the contents, and their number; after an error its number and unchanged contents |
| Buffers.Buffer.FindCRLF | net/Buffer.h:95-100 | the first CRLF of the contents, or none |
| Buffers.AppendThenPrepend | net/Buffer.h:206-212 | through any appends a fresh buffer keeps its eight bytes, so a header still fits in front |
| Codecs.FindExtends | net/protobuf/ProtobufCodecLite.cc:62-96 | what is decided about the front of the buffer does not change when more arrives |
| Codecs.ChunkingDoesNotMatter | net/protobuf/ProtobufCodecLite.cc:58-97 | for any bytes and any cut, the messages delivered, the bytes left and the last error are those of the whole stream |
| Codecs.ParsePayload | net/protobuf/ProtobufCodecLite.cc:192-225 | checksum and tag of a written payload are accepted and the message is what its serialization parses to |
| Codecs.ChecksumIsAdler32 | net/protobuf/ProtobufCodecLite.cc:178-182 | the checksum has the 32 bits of the two sums of section 8.2 of RFC 1950, in closed form |
| Codecs.ParseExactly | net/protobuf/ProtobufCodecLite.cc:184-225 | of any payload and any trailing integer: a checksum error if and only if the integer is not the checksum, otherwise an unknown type if and only if the tag differs, otherwise a parse error or the message as the parser says |
| Codecs.FindExactly | net/protobuf/ProtobufCodecLite.cc:62-96 | of any header: exactly when the length is refused, when more is waited for, when the raw callback has the frame skipped, and how much is consumed |
| Codecs.TooShort | net/protobuf/ProtobufCodecLite.cc:62-64 | fewer bytes than the shortest frame are waited for, whatever they are |
| Codecs.OnlyFramesDelivered | net/protobuf/ProtobufCodecLite.cc:62-96 | what is delivered is an intact frame: length, tag, a body that parses to the message, and the right checksum, let through by the raw callback |
| Codecs.FramesAreDelivered | net/protobuf/ProtobufCodecLite.cc:62-96 | and every intact frame is delivered |
| Codecs.OnMessageSound | net/protobuf/ProtobufCodecLite.cc:58-97 | for any bytes: the buffer is whole frames, which yield exactly the messages delivered, followed by what is left, which is incomplete or what the error says |
| Codecs.OnMessageComplete | net/protobuf/ProtobufCodecLite.cc:58-97 | and a buffer that can be read so is read so |
| Codecs.PartWaits | net/protobuf/ProtobufCodecLite.cc:62-96 | any proper part of a frame is waited for |
| Codecs.SentIsReceived | net/protobuf/ProtobufCodecLite.cc:42-97 | frames one after another, with a part of one more, cut anywhere: exactly the messages the raw callback lets through, in order, and the part is left |
| Codecs.ArrivesIffNotTooLong | net/protobuf/ProtobufCodecLite.cc:42-69 | a sent message arrives if and only if its frame is not longer than the maximum; otherwise the length is reported invalid |
| Codecs.FillEmptyBuffer | net/protobuf/ProtobufCodecLite.cc:42-56 | the buffer holds the frame: length, tag, message, checksum |
| Codecs.Examine | net/protobuf/ProtobufCodecLite.cc:62-95 | one turn of the loop decides as `Find` does |
| Codecs.HandleMessages | net/protobuf/ProtobufCodecLite.cc:58-97 | the loop terminates and delivers, leaves and reports what `OnMessage` says |
| Https.TwoCalls | net/http/HttpContext.cc:60-118 | parsing in two calls is parsing at once; after the end or an error later bytes are untouched |
| Https.TimeOnlyStamps | net/http/HttpContext.cc:60-118 | the time of a call affects nothing but the receive time |
| Https.ChunkingDoesNotMatter | net/http/HttpContext.cc:60-118 | for any text, any cut and any arrival times: the same verdict, state, request and leftover, but for the receive time |
| Https.MethodSetOnce | net/http/HttpRequest.h:53-82 | the assert of setMethod holds through any calls without error; after an error it fails if and only if the rejected line began with a known method |
| Https.ErrorExactly | net/http/HttpContext.cc:60-118 | a call reports an error if and only if it waits for a request line and the first whole line is not one; the text stays in the buffer |
| Https.ReadsLines | net/http/HttpContext.cc:60-118 | a call without error reads whole lines from the front of the text, each as its state demands, up to the end of the headers or of the last whole line; the rest stays |
| Https.RequestLineRoundTrip | net/http/HttpContext.cc:16-57 | method, path, query and version of a printed request line come back |
| Https.MethodExactly | net/http/HttpRequest.h:53-82 | a method is known if and only if it is GET, POST, HEAD, PUT or DELETE |
| Https.VersionExactly | net/http/HttpContext.cc:38-53 | a version is known if and only if it is HTTP/1.0 or HTTP/1.1 |
| Https.RequestLineExactly | net/http/HttpContext.cc:16-57 | a line is accepted if and only if it is a known method, a target without spaces and a known version with one space between them |
| Https.RejectedLine | net/http/HttpContext.cc:16-57 | which fields a refused line has set, in each of the four ways to be refused |
| Https.ValueRoundTrip | net/http/HttpRequest.h:135-149 | a header value comes back without the white space around it |
| Https.HeaderLineExactly | net/http/HttpRequest.h:135-149 | of any line with a colon: the field before the first colon, the value behind it without the white space around |
| Https.HeadersRoundTrip | net/http/HttpContext.cc:88-111 | printed headers come back as a map, the last of a repeated field |
| Https.PrintedIsParsed | net/http/HttpContext.cc:16-118 | a printed request line and headers, per sections 3.1.1 and 3.2 of RFC 7230, come back whole; what follows stays in the buffer |
| Https.LineWithoutColonEnds | net/http/HttpContext.cc:93-105 | any line without a colon ends the headers |
| HttpContextClass.HttpContext.constructor | net/http/HttpContext.h:36-39 | waiting for a request line, with an empty request |
| HttpContextClass.HttpContext.Reset | net/http/HttpContext.h:49-54 | as new |
| HttpContextClass.HttpContext.SetMethod | net/http/HttpRequest.h:53-82 | the result tells whether the word is one of the five methods, which is then set; otherwise the method is invalid |
| HttpContextClass.HttpContext.AddHeader | net/http/HttpRequest.h:135-149 | the two trimming loops give the trimmed value |
| HttpContextClass.HttpContext.SetTarget | net/http/HttpContext.cc:27-36 | the target is cut at the first question mark, which stays with the query |
| HttpContextClass.HttpContext.ProcessRequestLine | net/http/HttpContext.cc:16-57 | success and fields as `RequestLine` says, on failure too |
| HttpContextClass.HttpContext.TakeLine | net/http/HttpContext.cc:66-106 | one whole line in the present state |
| HttpContextClass.HttpContext.Turn | net/http/HttpContext.cc:64-116 | one turn of the loop leaves the final outcome the same and shortens the buffer, or has it |
| HttpContextClass.HttpContext.ParseRequest | net/http/HttpContext.cc:60-118 | the loop terminates with what the specification says |
| LogStreams.NumeralValue | base/LogStream.cc:47-89 | the canonical numeral has the value it was made from |
| LogStreams.CanonicalUnique | base/LogStream.cc:47-89 | every numeral without leading zeros is the canonical numeral of its value |
| LogStreams.DecimalRoundTrip | base/LogStream.cc:47-71 | the decimal text of every integer, negative ones included, reads back as the integer |
| LogStreams.DecimalLength | base/LogStream.cc:240-253 | at most 20 characters for every signed or unsigned 64-bit value |
| LogStreams.HexLength | base/LogStream.cc:303-316 | at most 16 hexadecimal digits for every 64-bit value |
| LogStreams.LastDigit | base/LogStream.cc:38-59 | with truncating division the mirrored table gives the right digit for negative numbers too, the minimum included |
| LogStreams.Reverse | base/LogStream.cc:68 | exactly that part of the array is reversed |
| LogStreams.WriteDigits | base/LogStream.cc:54-59 | the loop writes the digits, last one first, and nothing else |
| LogStreams.Convert | base/LogStream.cc:47-71 | the canonical decimal text and its terminator, and nothing else is touched |
| LogStreams.ConvertHex | base/LogStream.cc:73-89 | the canonical hexadecimal text and its terminator, and nothing else is touched |
| LogStreams.FixedBuffer.constructor | base/LogStream.h:32-37 | empty, of the given size |
| LogStreams.FixedBuffer.Reset | base/LogStream.h:66 | empty |
| LogStreams.FixedBuffer.Append | base/LogStream.h:46-54 | all of the text with a byte to spare, or nothing |
| LogStreams.FixedBuffer.FormatInteger | base/LogStream.cc:244-253 | the decimal text of any 64-bit value, never past the end; nothing with fewer than 32 bytes free |
| LogStreams.FixedBuffer.FormatPointer | base/LogStream.cc:303-316 | 0x and the hexadecimal text, never past the end; nothing with fewer than 32 bytes free |

## Left out

- Integer widths: dates, seconds and counters are unbounded; overflow of 32-bit day numbers, of `time_t`, of indices and of sequence numbers is not modelled. 64-bit values matter to LogStreams and 32-bit ones to Codecs, and are stated there.
- TimeZones: `gmtime_r` and `timegm` are a parameter of which the second undoes the first; reading the TZif file (section 3.2 of RFC 8536), zone names and `tm_zone` are not modelled. The tables are those ascending in UTC and local time whose repeated stretches end before the next transition.
- System calls: sockets, epoll, poll, timerfd, eventfd and files appear as the answers they give; their failures other than those the code acts on are not modelled.
- EventLoops: one wakeup write is one step that succeeds; a full eventfd counter is not modelled. `runInLoop` in the loop thread is a plain call.
- EventLoops.EventLoop.HandleEvents: a channel's handler is reduced to what is queued while it runs, here and elsewhere; a quit comes after the last of them.
- EventLoops.EventLoop.DoPendingFunctors: another thread's push and wakeup come together while a task runs; their separation, at any moment, is the subject of the run properties.
- EventLoops.EventLoop.LoopThrough: the same holds of it, turn by turn.
- TcpConnections: `state_` changes atomically, and user callbacks act as further events, not within a step. What error handling logs is not modelled.
- TcpConnectionClass.TcpConnection.HandleRead: the message callback is reduced to how many bytes it takes off the input buffer.
- TcpConnections: a poll reports HUP without IN not together with PRI or RDHUP, and RDHUP only to a channel that watches something; `TcpConnections.HangupDispatch` is about the first.
- TcpConnectionClass.TcpConnection.HandleEvent: the reports and answers under which the source violates its assert are excluded; `TcpConnections.HangupDispatch` and `TcpCloses.HarmExactly` are about them.
- TcpConnectionClass.TcpConnection.StopReadInLoop: PollPoller with a removed channel, where the source indexes a slot that is gone, is excluded; `TcpCloses.HarmExactly` counts it as a failure.
- TimerQueues: one clock for expirations and alarm, where the source sets a monotonic timer from wall-clock differences; intervals are real numbers, without the rounding of double. Timers added by other threads may be inserted in any order.
- TimerQueueClass.TimerQueue.HandleRead: a callback is reduced to the timers it adds and cancels, and the clock stands still in it; with the clock running, callbacks are the subject of the run properties.
- AsyncLogs: files hold lines and notices, not bytes; rolling, flushing and the three-second wait are not modelled, the back end may take its lock at any time.
- BoundedQueues.BoundedBlockingQueue.Put: what other threads do during a wait is an argument, and so is how often they let it wait.
- BoundedQueues.BoundedBlockingQueue.Take: the same holds of it.
- The growth of EPollPoller's event array when it is full: it changes no channel.
- Channel's enable and disable operations: the pair of flags `TcpConnections.Mask` stands for the two bit groups, which are only set and cleared whole.
- HttpContextClass.HttpContext.Turn: called in a state other than the request line or headers the source's loop never ends; these states are excluded. Characters stand for bytes.
- HttpContextClass.HttpContext.ParseRequest: the same states are excluded.
- Codecs: serializing and parsing a message and the raw callback are parameters; `Sendable` asks that parsing undoes serializing.
- Buffer's findEOL, swap and retrieve variants repeat what is modelled; LogStream's formatSI, formatIEC and floating point, and Timestamp text, rest on snprintf.
- Connector, TcpClient, TcpServer, Acceptor, RpcChannel, ThreadPool, BlockingQueue, CountDownLatch, LogFile, Logging, inspect and the wrappers around system types: not part of this model.
