# A verified model of the reactor, its codecs and its clocks

The repository is a web and FastCGI server built on a reactor: an event loop with timers, pollers and TCP connections,
a byte buffer with an HTTP and a FastCGI parser on top, an asynchronous logger, a thread pool, and calendar and
time-zone arithmetic. This project models those parts in Dafny and proves what they promise, for every input and over
every run or interleaving.

Each stateful component comes in two layers. A specification gives the state as a value and every atomic step as a
function; the theorems are about its runs. A class with the fields and methods of the source is proved, method by
method, to make exactly those steps. Pure code (the calendar, the search in a zone) is modelled directly.

| files | component |
|---|---|
| `Calendar.dfy`, `UtcTime.dfy`, `TimeZone.dfy` | day numbers, UTC fields, local time |
| `TimerSpec.dfy`, `TimerOwnership.dfy`, `TimerRuns.dfy`, `TimerEffects.dfy`, `TimerQueue.dfy` | the timer queue |
| `EventLoop.dfy` | handing functors to the loop thread |
| `TcpSpec.dfy`, `TcpTheorems.dfy`, `TcpEffects.dfy`, `TcpConnection.dfy` | output stream and close protocol of a connection |
| `Pollers.dfy` | PollPoller and EPollPoller |
| `NetworkOrder.dfy`, `NetBuffer.dfy` | integers in network order, the sliding buffer |
| `FastCgiSpec.dfy`, `FastCgiTheorems.dfy`, `FastCgiPipelining.dfy`, `FastCgiLiterals.dfy`, `FastCgiCodec.dfy` | the FastCGI codec |
| `HttpSpec.dfy`, `HttpServing.dfy`, `HttpContext.dfy` | the HTTP request parser, and the server's use of it |
| `AsyncLogging.dfy`, `ThreadPool.dfy` | the logger and the thread pool |
| `CMath.dfy`, `Options.dfy` | truncating division, optional values |

## What the code does not promise

Some statements one would expect are false of the code. For each the model has the failing input and the exact condition
under which the code does meet it.

- Local time does not convert back for every zone. Among zones whose repeated stretches of local time do not meet
  (`WellSeparated`), it does exactly when every step back of the clocks ends summer time by one hour
  (`RoundTripExactly`, `RoundTripForZone`); summer time of half an hour fails (`HalfHourIsNotExact`).
- Before 1 March -4800 the day number is right exactly in March-based years that are leap years, and one too large in
  the others (`RightExactly`, `StartIsSharp`). `tm_yday` is one short in the rest of year -4800 (`YearDayIsExact`), and
  the weekday is negative for most days before day -1 (`WeekDayAdvances`).
- Cancelling a live timer takes effect exactly if its insertion has run; before that the cancel is lost and the timer
  fires (`CancelTakesEffect`, `CancelBeforeAddIsLost`).
- A push by the loop thread is safe exactly from inside its callbacks, or, outside loop(), while someone is going to
  wake it anyway (`EventLoops.StepExactly`, `LostExactly`, `LoopThreadPushBeforePollBlocks`). A quit() can be forgotten
  exactly if it comes outside loop() (`QuitLostExactly`, `QuitBeforeLoopIsLost`).
- A connection can report DOWN twice. `startRead` after the connection is down does it (`ReopenedGoesDownTwice`), and
  so does closing a connection that has stopped reading: `disableAll` on a channel without interest adds the fd to the
  epoll instance again (`DeafGoesDownTwice`). `SafeExactly` gives the exact condition for every step.
- `stopWrite` with output buffered lets a shutdown close the write side over that output (`StrandedOutput`,
  `StepDrainsExactly`). A send of another thread can come after the write side is shut (`CrossSendComesLate`); it is
  taken over exactly if startWrite has been called since (`KeptExactly`, `StepFinalExactly`, `StartWriteTakesLate`), so
  otherwise every write-shutdown is still final (`ShutdownIsFinalForAll`). Output is abandoned by the closes that
  `AbandonsExactly` lists, among them an end of file that is reported a second time (`SecondEndOfFileAbandons`).
- A channel first registered in a PollPoller without interest cannot be removed (`DisabledIsRemovable`). One that has
  been removed can be registered again exactly if its index is negative and its fd free (`RegistersExactly`); PollPoller
  leaves the index, so it cannot (`ReturnToPoll`), and EPollPoller resets it, so it can (`ReturnToEpoll`).
- The FastCGI callback runs once for every request exactly if no message completes two (`CallbacksExactly`,
  `PipelinedRequestsMerge`), and for any chunks it gets what `FeedIsFold` says. Requests get their own arguments if no
  message has complete records after the end of a request (`EachGetsItsOwn`); where one has, `CutInParamsExactly` and
  `CutInBodyExactly` say exactly when both requests still do, and `CrossingLosesParams` gives a failure.
- A request line that names a method and then fails leaves the method set, so the next message fails the assertion of
  `setMethod`. Over any messages to the server it fails exactly if one comes while a method is set (`FailsExactly`,
  `SetExactly`, `NextCallPasses`); for instance after a request for an unknown version, at first or later
  (`UnknownVersionAborts`, `LaterBadVersionAborts`).
- The HTTP server serves at most one request for a message. All that are complete are served exactly if after no message
  the rest of them complete more requests than they are (`AllServedExactly`); two in one message are not
  (`TwoInOneMessage`).
- A header line ends the headers exactly if it has no colon, not only if it is empty as a comment in the code says
  (`HeadersEndExactly`, `EmptyLineEndsExactly`).
- A blocked producer of the thread pool is released exactly by a worker that takes a task, or spuriously, never by
  `stop` (`ReleasedExactly`). In a stopped pool it can still get out exactly if there is room or a worker that can still
  take (`EscapesExactly`, `BlockedForEver`); stop shuts it in exactly if the queue is full and no worker sleeps or is
  about to take (`StopBlocksProducers`, `StopLeavesProducersBlocked`).
- Lines appended before stop are all swapped out exactly if the backend had already tested `running_` in its round or
  there was nothing left to swap (`SavedExactly`); the rest is never written (`NothingAfterExit`, `StopLosesLine`).

## Model

| member | source | states |
|---|---|---|
| `Calendar.ClosedForm` | base/time/Date.cpp:18-25 | from 1 March -4800 on, the truncating closed form is a count of days by March-based years and months |
| `Calendar.RightExactly` | base/time/Date.cpp:18-25 | for every date, the closed form is the count of days from the start if and only if the March-based year is not negative or is a leap year, and one more otherwise |
| `Calendar.YearLength` | base/time/Date.cpp:18-25 | a March-based year has 366 days exactly if the February that ends it is a leap one |
| `Calendar.DayNumberAdvances` | base/time/Date.cpp:18-25 | the next day of the calendar has the next day number |
| `Calendar.DayNumberCountsDays` | base/time/Date.cpp:18-25 | the closed form equals stepping through the Gregorian calendar one day at a time from 1 March -4800 |
| `Calendar.DateRoundTrip` | base/time/Date.cpp:18-40 | getYearMonthDay inverts getJulianDayNumber on every date from the start |
| `Calendar.DayNumberRoundTrip` | base/time/Date.cpp:27-40 | every day number from -32044 on names one valid date, the one reached by counting, and gives that number back |
| `Calendar.StartIsSharp` | base/time/Date.cpp:18-25 | the instance just before the start: 29 February and 1 March -4800 share a day number |
| `Calendar.WeekDayAdvances` | base/time/Date.h:94-97 | the weekday advances by one modulo 7 every day, and is in 0..6 exactly from day -1 on, or where the day after is a multiple of 7 |
| `UtcTime.EpochDay` | base/time/Date.cpp:42-42 | the epoch constant is the day number of 1 January 1970, a Thursday |
| `UtcTime.FillHMS` | base/time/TimeZone.cpp:74-80 | hours, minutes and seconds of a number of seconds |
| `UtcTime.ToUtcTime` | base/time/TimeZone.cpp:320-346 | with C++ division and its correction for negative times, computes the fields given by floor division |
| `UtcTime.SecondsRoundTrip` | base/time/TimeZone.cpp:320-361 | every second from the start converts to valid fields and back to itself |
| `UtcTime.FieldsRoundTrip` | base/time/TimeZone.cpp:320-361 | all valid fields convert to seconds and back to themselves |
| `UtcTime.WeekDayOfNextDay` | base/time/TimeZone.cpp:320-346 | one day later the weekday has advanced by one modulo 7 |
| `UtcTime.WeekDayExactly` | base/time/TimeZone.cpp:320-346 | from day -1 on tm_wday counts from Thursday 1 January 1970, Sunday being 0 |
| `UtcTime.YearDayOnRequest` | base/time/TimeZone.cpp:338-344 | tm_yday is zero unless asked for, and nothing else depends on that |
| `UtcTime.YearDayByMonth` | base/time/TimeZone.cpp:338-344 | the difference of day numbers to 1 January is the sum of the lengths of the months before |
| `UtcTime.YearDayIsExact` | base/time/TimeZone.cpp:320-346 | tm_yday is in 0..365 and is the true day of the year exactly for years after -4800, one short in that year |
| `TimeZone.LowerBound` | base/time/TimeZone.cpp:221-253 | the binary search finds the boundary between smaller and not smaller keys |
| `TimeZone.FindLocaltime` | base/time/TimeZone.cpp:221-253 | returns the type of the last transition at or before the time, or the first type before them all |
| `TimeZone.ToLocalTime` | base/time/TimeZone.cpp:275-295 | local fields, summer-time flag and offset by the segment of UTC that the time is in |
| `TimeZone.FromLocalTime` | base/time/TimeZone.cpp:297-318 | lookup by local time and the one-hour adjustment give the specified seconds |
| `TimeZone.OffsetIsGiven` | base/time/TimeZone.cpp:275-295 | the seconds of the local fields less the offset given with them are the time, in any zone |
| `TimeZone.TypeInForce` | base/time/TimeZone.cpp:275-295 | offset and summer-time flag are those of the transition that came last, or of the first type before them all |
| `TimeZone.UnskippedExactly` | base/time/TimeZone.cpp:297-318 | a local time that no transition skips is taken one hour earlier if and only if it is flagged as summer time and the lookup finds standard time |
| `TimeZone.SkippedExactly` | base/time/TimeZone.cpp:297-318 | one that a transition skips, by a minute to a minute less than a day, is never adjusted, since the clock shows another hour or minute |
| `TimeZone.BothSearchesApply` | base/time/TimeZone.cpp:221-253 | if repeated stretches do not meet, the transitions ascend by local time as well |
| `TimeZone.LocalLookup` | base/time/TimeZone.cpp:297-318 | outside first passes the lookup by local time finds the segment the time is in |
| `TimeZone.FirstPassLookup` | base/time/TimeZone.cpp:297-318 | in the first pass of a repeated stretch it finds exactly the next segment |
| `TimeZone.SecondPass` | base/time/TimeZone.cpp:297-318 | the repeat of a first pass belongs to the segment after the transition |
| `TimeZone.RoundTripExactly` | base/time/TimeZone.cpp:275-318 | in a zone whose repeated stretches do not meet, t converts to local time and back to t if and only if it is not in a first pass or the transition ends summer time by one hour |
| `TimeZone.RoundTripForZone` | base/time/TimeZone.cpp:275-318 | such a zone converts back every time if and only if every step back ends summer time by one hour |
| `TimeZone.HalfHourIsNotExact` | base/time/TimeZone.cpp:297-318 | in a zone with summer time of half an hour, its last second comes back half an hour early |
| `TimeZone.SummerTimeRoundTrip` | base/time/TimeZone.cpp:275-318 | transitions over two hours apart and steps back that end summer time by one hour: every time round-trips, the repeated autumn hour included |
| `TimerSpec.HowMuchTimeFromNow` | netLayer/timer/TimerQueue.cpp:32-46 | the interval is exact to the microsecond, never below 100 microseconds, and normalised |
| `TimerSpec.Ordered` | netLayer/timer/TimerQueue.cpp:171-190 | the batch holds exactly the due entries in order of time and address |
| `TimerOwnership.StepKeepsInv` | netLayer/timer/TimerQueue.cpp:121-247 | every step keeps: both indexes hold the same live timers under their current expirations, every live timer has one owner, sequence numbers are freed once |
| `TimerRuns.EveryRun` | netLayer/timer/TimerQueue.cpp:121-247 | over every run with re-entrant callbacks ownership, call counts and the alarm stay right |
| `TimerRuns.IndexSizesAgree` | netLayer/timer/TimerQueue.cpp:223-247 | timers_ and activeTimers_ have the same size, as the code asserts |
| `TimerRuns.StepKeepsCallInv` | netLayer/timer/TimerQueue.cpp:132-210 | every step keeps the tie between call-backs, cancels and deletions |
| `TimerRuns.OneShotFiresOnce` | netLayer/timer/TimerQueue.cpp:152-210 | a one-shot timer is called at most once, and a timer that was not cancelled in the queue is deleted only as a one-shot called once |
| `TimerRuns.CancelTakesEffect` | netLayer/timer/TimerQueue.cpp:132-150 | cancelling any live timer deletes it at once or marks it to leave with the batch if and only if its insertion is no longer queued |
| `TimerRuns.CancelBeforeAddIsLost` | netLayer/timer/TimerQueue.cpp:105-150 | a run in which the loop thread cancels a timer whose insertion is still queued, and the timer fires |
| `TimerRuns.CancelledNeverFires` | netLayer/timer/TimerQueue.cpp:132-210 | a timer cancelled once the queue had it is never called after the batch in progress, over any run |
| `TimerRuns.StaysGone` | netLayer/timer/TimerQueue.cpp:132-247 | a deleted timer is neither live nor called again, whoever gets its address |
| `TimerRuns.GoneForGood` | netLayer/timer/TimerQueue.cpp:132-247 | the same over every run |
| `TimerRuns.CancelTouchesOnlyItsTimer` | netLayer/timer/TimerQueue.cpp:132-150 | cancelling leaves every timer with another identifier as it was, even at the same address |
| `TimerRuns.StaleCancelIsHarmless` | netLayer/timer/TimerQueue.cpp:132-150 | a stale identifier, or one whose timer is not in the queue yet, changes no timer and neither index, and is noted only while a batch is being called back |
| `TimerRuns.ArmedInTime` | netLayer/timer/TimerQueue.cpp:59-71 | the timerfd is set for the expiration, or for 100 microseconds from now if that is later, and so covers the timer |
| `TimerRuns.RestartIsLater` | netLayer/timer/Timer.cpp:12-22 | a restarted timer is due one interval after the batch, to the microsecond and never before it, under the same interval and sequence number |
| `TimerRuns.StepKeepsAlarm` | netLayer/timer/TimerQueue.cpp:121-221 | every step keeps the alarm set for each queued timer, although cancelling never sets it |
| `TimerRuns.NoMissedTimer` | netLayer/timer/TimerQueue.cpp:32-71 | over every run, between expiries, the timerfd is set for no later than max(expiration, arming time + 100 microseconds) of any queued timer |
| `TimerEffects.RestartsOneIntervalLater` | netLayer/timer/TimerQueue.cpp:196-210 | a round of reset leaves a repeating timer that is not being cancelled in the queue, due one interval after the batch, and deletes any other |
| `TimerEffects.EndRestarts` | netLayer/timer/TimerQueue.cpp:192-221 | the same for every timer of the batch over all of reset: back in the queue one interval after the batch, or no longer live |
| `TimerEffects.BeginTakesDue` | netLayer/timer/TimerQueue.cpp:152-190 | the batch is exactly the timers due by now, in order of expiration, and the queue keeps exactly the others |
| `TimerEffects.NeverEarly` | netLayer/timer/TimerQueue.cpp:152-190 | over every run no timer is called back before its expiration |
| `TimerEffects.CalledInOrder` | netLayer/timer/TimerQueue.cpp:162-166 | while a batch is called back, its timers are called once each in order, whatever the callbacks add or cancel |
| `TimerEffects.CreatedAsAsked` | netLayer/timer/Timer.h:23-29 | a timer starts with the expiration and interval asked for, and no other timer changes |
| `TimerEffects.ExpirationStays` | netLayer/timer/TimerQueue.cpp:121-190 | no step but the end of a batch changes a timer |
| `TimerEffects.AddArmsExactly` | netLayer/timer/TimerQueue.cpp:121-130 | adding a timer sets the timerfd if and only if it is earlier than all the others |
| `TimerEffects.EndArmsForEarliest` | netLayer/timer/TimerQueue.cpp:212-220 | after a batch the timerfd is set for the earliest timer with a valid expiration, and otherwise left alone |
| `TimerQueues.TimerQueue.NewTimer` | netLayer/timer/Timer.h:23-29 | a new timer gets the next sequence number, at any free address |
| `TimerQueues.TimerQueue.InsertTimer` | netLayer/timer/TimerQueue.cpp:223-247 | inserts into both indexes, the entries being new, and tells whether the earliest expiration changed |
| `TimerQueues.TimerQueue.AddTimerInLoop` | netLayer/timer/TimerQueue.cpp:121-130 | the step of adding a timer, setting the timerfd if it became the earliest |
| `TimerQueues.TimerQueue.CancelInLoop` | netLayer/timer/TimerQueue.cpp:132-150 | the step of cancelling; the entry to erase is always there |
| `TimerQueues.TimerQueue.GetExpired` | netLayer/timer/TimerQueue.cpp:171-190 | moves the due entries, in order, out of both indexes |
| `TimerQueues.TimerQueue.ResetRound` | netLayer/timer/TimerQueue.cpp:196-210 | restarts and re-inserts, or deletes, one expired timer |
| `TimerQueues.TimerQueue.Reset` | netLayer/timer/TimerQueue.cpp:192-221 | the whole loop of reset, then the timerfd |
| `TimerQueues.TimerQueue.SetTimerfd` | netLayer/timer/TimerQueue.cpp:212-220 | the timerfd is set for the earliest timer, if any |
| `TimerQueues.TimerQueue.RunCallback` | netLayer/timer/TimerQueue.cpp:162-166 | the calls that a callback makes are the steps of the run |
| `TimerQueues.TimerQueue.HandleRead` | netLayer/timer/TimerQueue.cpp:152-169 | handleRead with any re-entrant callbacks is the run of steps begin, fire and calls, end |
| `EventLoops.StepKeepsInv` | netLayer/event/eventloop/EventLoop.cpp:99-166 | every such covered step keeps order and wakeups |
| `EventLoops.StepExactly` | netLayer/event/eventloop/EventLoop.cpp:99-168 | a step of the loop or of another thread keeps order and wakeups if and only if it is not a push by the loop thread before loop() or after it has returned, with nobody about to wake it |
| `EventLoops.LostExactly` | netLayer/event/eventloop/EventLoop.cpp:157-168 | outside loop(), a push by the loop thread is left pending in a blocked poll, once loop() is entered, if and only if nobody is about to wake it |
| `EventLoops.RunKeepsInv` | netLayer/event/eventloop/EventLoop.cpp:99-166 | the same over every interleaving |
| `EventLoops.NoLostWakeup` | netLayer/event/eventloop/EventLoop.cpp:132-168 | whenever the loop blocks in poll with functors pending or quit set, the counter is positive or a thread is about to wake it |
| `EventLoops.RunInPushOrder` | netLayer/event/eventloop/EventLoop.cpp:157-266 | over every run, the functors run, in the batch and pending are those passed to queueInLoop from any thread, in order |
| `EventLoops.BatchDrains` | netLayer/event/eventloop/EventLoop.cpp:251-266 | from any point of a batch the loop can finish it by itself |
| `EventLoops.RoundTakesPending` | netLayer/event/eventloop/EventLoop.cpp:107-126 | every return from poll leads to a batch of everything that was pending |
| `EventLoops.CounterIsExact` | netLayer/event/eventloop/EventLoop.cpp:231-249 | over every run the eventfd counter is the number of wakeups since it was last read, so after a read nothing but a new wakeup ends a poll |
| `EventLoops.LoopThreadPushBeforePollBlocks` | netLayer/event/eventloop/EventLoop.cpp:157-168 | a functor pushed by the loop thread before loop() is left pending in a blocked poll |
| `EventLoops.QuitLostExactly` | netLayer/event/eventloop/EventLoop.cpp:99-142 | a quit() can be reset before any test has seen it if and only if it comes outside loop() |
| `EventLoops.QuitIsHeeded` | netLayer/event/eventloop/EventLoop.cpp:99-142 | while quit_ is set and loop() is not entered again it stays set, and the loop has returned once it has tested, over every run |
| `EventLoops.QuitStopsTheLoop` | netLayer/event/eventloop/EventLoop.cpp:99-142 | after quit(), from another thread or its own, the loop has returned once it has tested, over every run that does not enter loop() again |
| `EventLoops.OnlyQuitStops` | netLayer/event/eventloop/EventLoop.cpp:99-142 | no other step sets quit_, and a test that finds it clear goes on to poll |
| `EventLoops.QuitBeforeLoopIsLost` | netLayer/event/eventloop/EventLoop.cpp:104-107 | a quit() of another thread before loop() is forgotten and the loop polls |
| `EventLoops.EventLoop.QueueInLoop` | netLayer/event/eventloop/EventLoop.cpp:157-168 | the locked push of another thread, which then always calls wakeup |
| `EventLoops.EventLoop.QueueFromLoop` | netLayer/event/eventloop/EventLoop.cpp:157-168 | a push by the loop thread, from anywhere, calls wakeup exactly while functors are being run, and keeps the invariant exactly if it is covered |
| `EventLoops.EventLoop.EnterLoop` | netLayer/event/eventloop/EventLoop.cpp:99-105 | the beginning of loop(), which resets quit_ |
| `EventLoops.EventLoop.TestQuit` | netLayer/event/eventloop/EventLoop.cpp:107-107 | the test of the loop |
| `EventLoops.EventLoop.Quit` | netLayer/event/eventloop/EventLoop.cpp:132-142 | quit() of another thread, which sets the flag, up to its wakeup |
| `EventLoops.EventLoop.QuitFromLoop` | netLayer/event/eventloop/EventLoop.cpp:132-142 | quit() of the loop thread, which sets the flag and wakes nobody |
| `EventLoops.EventLoop.Wakeup` | netLayer/event/eventloop/EventLoop.cpp:231-239 | adds one to the counter |
| `EventLoops.EventLoop.HandleRead` | netLayer/event/eventloop/EventLoop.cpp:241-249 | takes the counter to zero |
| `EventLoops.EventLoop.RunFunctor` | netLayer/event/eventloop/EventLoop.cpp:261-264 | runs one functor that queues any others, each with its wakeup |
| `EventLoops.EventLoop.RunBatch` | netLayer/event/eventloop/EventLoop.cpp:261-264 | the loop over the batch |
| `EventLoops.EventLoop.DoPendingFunctors` | netLayer/event/eventloop/EventLoop.cpp:251-266 | runs exactly what was pending, in order; what the functors queue stays pending with one wakeup each |
| `TcpSpec.CloseIs` | netLayer/tcp/TcpConnection.cpp:193-216 | the recursion of handleClose, shutdown and shutdownInLoop ends, in one of four outcomes given outright |
| `TcpTheorems.StepIntact` | netLayer/tcp/TcpConnection.cpp:138-191 | every step keeps socket bytes ++ output buffer equal to the messages taken over |
| `TcpTheorems.OutputIntegrity` | netLayer/tcp/TcpConnection.cpp:138-447 | the same over every run of short writes, errors, start, stop and close |
| `TcpTheorems.StepLog` | netLayer/tcp/TcpConnection.cpp:138-191 | a step offers at most one message, and drops it whole only when down or on EPIPE/ECONNRESET |
| `TcpTheorems.NothingDropped` | netLayer/tcp/TcpConnection.cpp:138-191 | without those errors every message is taken over as long as the connection is not down |
| `TcpTheorems.StepIsForward` | netLayer/tcp/TcpConnection.cpp:193-279 | no step moves the state backwards |
| `TcpTheorems.NeverBackwards` | netLayer/tcp/TcpConnection.cpp:193-469 | no run does, whatever the calls |
| `TcpTheorems.StepExactly` | netLayer/tcp/TcpConnection.cpp:193-469 | a step keeps the invariant of the close protocol if and only if it does not switch interest outside the life of the connection, destroy it while disconnecting with interest left, or close it with none |
| `TcpTheorems.SafeExactly` | netLayer/tcp/TcpConnection.cpp:193-469 | that condition is exact for the assertions too: without it one fails in the step or in a close reported right after it, with it none does |
| `TcpEffects.CloseProtocol` | netLayer/tcp/TcpConnection.cpp:193-469 | over every behaved run no assertion fails, DOWN comes once, the close callback with it unless the owner destroys the connection, and never twice, and the channel is off afterwards |
| `TcpTheorems.PlainIsBehaved` | netLayer/tcp/TcpConnection.cpp:193-279 | any mix of sends, shutdowns, forced and delayed closes and closes by the peer is behaved |
| `TcpEffects.PlainCloseProtocol` | netLayer/tcp/TcpConnection.cpp:193-279 | so all of it holds over any mix of sends, shutdowns, forced and delayed closes and closes by the peer, from any thread |
| `TcpTheorems.DownAgain` | netLayer/tcp/TcpConnection.cpp:449-469 | a hang-up reported to a closed connection that is still watched gives another DOWN |
| `TcpTheorems.ReopenedGoesDownTwice` | netLayer/tcp/TcpConnection.cpp:303-316 | a run with startRead after the close that reports DOWN twice |
| `TcpTheorems.DeafGoesDownTwice` | netLayer/tcp/TcpConnection.cpp:332-345 | a run with stopRead before the close that does |
| `TcpTheorems.StepDrainsExactly` | netLayer/tcp/TcpConnection.cpp:323-359 | output stays waited for and shutdowns stay due after a step if and only if it is not a stopWrite that strands them |
| `TcpTheorems.ShutdownWaitsForOutput` | netLayer/tcp/TcpConnection.cpp:193-216 | without stopWrite a write-shutdown before kDisconnected finds the buffer empty, none is forgotten, and a connection whose peer has closed stays only while its channel is writing |
| `TcpTheorems.StrandedOutput` | netLayer/tcp/TcpConnection.cpp:347-359 | after stopWrite over buffered output, shutdown closes the write side over it |
| `TcpTheorems.ShutdownIsFinal` | netLayer/tcp/TcpConnection.cpp:193-216 | with sends from the loop thread, a write-shutdown before kDisconnected comes after every byte the connection ever takes over |
| `TcpTheorems.StepFinalExactly` | netLayer/tcp/TcpConnection.cpp:138-216 | a step keeps every such shutdown after the last byte taken over if and only if it does not take a queued message over after it |
| `TcpTheorems.ShutdownIsFinalForAll` | netLayer/tcp/TcpConnection.cpp:86-216 | with sends from any thread it is, if a shut socket answers EPIPE and startWrite is not called |
| `TcpTheorems.KeptExactly` | netLayer/tcp/TcpConnection.cpp:138-191 | a message is taken over, unless the peer breaks the pipe, if and only if the connection is not down and the write side is not both shut and free to write |
| `TcpTheorems.StartWriteTakesLate` | netLayer/tcp/TcpConnection.cpp:318-330 | after startWrite on a shut connection a queued message is taken over for nothing |
| `TcpTheorems.CrossSendComesLate` | netLayer/tcp/TcpConnection.cpp:91-109 | the run in which a send of another thread is offered, and dropped, after the write side is shut |
| `TcpTheorems.AbandonsExactly` | netLayer/tcp/TcpConnection.cpp:372-469 | a step takes the connection down over buffered output if and only if it is a forced close, connectDestroyed, or a close by the peer after closeFlag_ is set or with the output not waited for |
| `TcpTheorems.SecondEndOfFileAbandons` | netLayer/tcp/TcpConnection.cpp:388-469 | an end of file reported twice takes the connection down over a message that was taken over |
| `TcpTheorems.WatchedByEpoll` | netLayer/poller/EpollPoller.cpp:102-165 | the connection model watches an fd exactly when the EPollPoller model has the kernel watch it |
| `TcpEffects.SocketGains` | netLayer/tcp/TcpConnection.cpp:138-191 | a step adds to the socket exactly the bytes that write(2) took of the message, or of the buffer, that it was given, and no other step adds any |
| `TcpEffects.WriteInterestExactly` | netLayer/tcp/TcpConnection.cpp:409-447 | handleWrite drops what was written from the front of the buffer, and write interest is on afterwards if and only if something is left |
| `TcpEffects.GoesDownExactly` | netLayer/tcp/TcpConnection.cpp:372-469 | a live connection goes down if and only if it is destroyed while connected, force-closed, closed by the peer with nothing to wait for, or drained for a peer that has closed; DOWN is reported then and only then, and the close callback called with it except by connectDestroyed |
| `TcpEffects.OwnerIsTold` | netLayer/tcp/TcpConnection.cpp:449-469 | over every behaved run without connectDestroyed the close callback comes once if the connection is down and not otherwise |
| `TcpEffects.ClosingStopsSends` | netLayer/tcp/TcpConnection.cpp:86-262 | after any close, immediate or to come, further sends and shutdowns change nothing |
| `TcpEffects.DestroyIsFinal` | netLayer/tcp/TcpConnection.cpp:372-386 | connectDestroyed takes the fd out of the poller and leaves a connection that is not connected |
| `TcpEffects.ForceCloseIsCarriedOut` | netLayer/tcp/TcpConnection.cpp:242-279 | over every behaved run after a forced close, delayed or not, the connection is down once no call of it is queued or delayed |
| `TcpEffects.ForceFlagExactly` | netLayer/tcp/TcpConnection.cpp:264-279 | a live connection has forceFlag_ after a step if and only if the step carries out a forced close |
| `TcpEffects.ShutdownIsCarriedOut` | netLayer/tcp/TcpConnection.cpp:193-216 | over every behaved run after a shutdown, without stopWrite, the connection is down, its write side is shut, the call is queued, or it waits for output |
| `TcpEffects.DelaysExactly` | netLayer/tcp/TcpConnection.cpp:252-262 | the delays outstanding are one more after a delayed close of a live connection, one less after a delay ends, and otherwise unchanged |
| `TcpEffects.CallsRunInOrder` | netLayer/tcp/TcpConnection.cpp:91-262 | over every run the calls queued in the loop, by other threads or by forced closes, run once each in the order they were queued |
| `TcpConnections.TcpConnection.Send` | netLayer/tcp/TcpConnection.cpp:91-109 | sends at once in the loop thread, queues a copy from another, does nothing unless connected |
| `TcpConnections.TcpConnection.SendInLoop` | netLayer/tcp/TcpConnection.cpp:138-191 | the message goes to the socket, the buffer or nowhere as specified, and writing is enabled for a rest |
| `TcpConnections.TcpConnection.WriteDirectly` | netLayer/tcp/TcpConnection.cpp:149-173 | writes at once only if nothing is waiting, and sees the fatal errors |
| `TcpConnections.TcpConnection.AppendOutput` | netLayer/tcp/TcpConnection.cpp:176-190 | buffers the rest and enables writing |
| `TcpConnections.TcpConnection.HandleWrite` | netLayer/tcp/TcpConnection.cpp:409-447 | drains the buffer, stops writing when it is empty and continues a pending shutdown |
| `TcpConnections.TcpConnection.Shutdown` | netLayer/tcp/TcpConnection.cpp:193-203 | the step of shutdown, from either thread |
| `TcpConnections.TcpConnection.ShutdownInLoop` | netLayer/tcp/TcpConnection.cpp:205-216 | shuts the write side down unless output waits, and closes if the peer has |
| `TcpConnections.TcpConnection.HandleClose` | netLayer/tcp/TcpConnection.cpp:449-469 | closes, or begins the close that the peer asked for |
| `TcpConnections.TcpConnection.HandleRead` | netLayer/tcp/TcpConnection.cpp:388-407 | the end of file closes; data and errors leave this state alone |
| `TcpConnections.TcpConnection.ForceClose` | netLayer/tcp/TcpConnection.cpp:242-250 | the step of forceClose |
| `TcpConnections.TcpConnection.ForceCloseWithDelay` | netLayer/tcp/TcpConnection.cpp:252-262 | the step of forceCloseWithDelay |
| `TcpConnections.TcpConnection.ForceCloseInLoop` | netLayer/tcp/TcpConnection.cpp:264-279 | sets both flags and closes a connection that lives |
| `TcpConnections.TcpConnection.StartReadInLoop` | netLayer/tcp/TcpConnection.cpp:308-316 | the step of startRead |
| `TcpConnections.TcpConnection.StopReadInLoop` | netLayer/tcp/TcpConnection.cpp:337-345 | the step of stopRead |
| `TcpConnections.TcpConnection.StartWriteInLoop` | netLayer/tcp/TcpConnection.cpp:323-330 | the step of startWrite |
| `TcpConnections.TcpConnection.StopWriteInLoop` | netLayer/tcp/TcpConnection.cpp:352-359 | the step of stopWrite |
| `TcpConnections.TcpConnection.ConnectEstablished` | netLayer/tcp/TcpConnection.cpp:361-370 | reading is enabled and UP reported |
| `TcpConnections.TcpConnection.ConnectDestroyed` | netLayer/tcp/TcpConnection.cpp:372-386 | a connected one goes down first; the channel is removed |
| `TcpConnections.TcpConnection.RunQueued` | netLayer/event/eventloop/EventLoop.cpp:261-264 | the loop runs the call that was queued first |
| `TcpConnections.TcpConnection.PerformAll` | netLayer/tcp/TcpConnection.cpp:86-469 | any run of calls and events takes the object where the specification goes |
| `Pollers.UpdateKeepsBijection` | netLayer/poller/PollPoller.cpp:70-105 | after an update slots and channel indices are still in bijection |
| `Pollers.RemoveKeepsBijection` | netLayer/poller/PollPoller.cpp:107-135 | so they are after swap-remove, and every other channel keeps its slot's contents |
| `Pollers.PollWatches` | netLayer/poller/PollPoller.cpp:70-105 | poll(2) watches exactly the non-empty interest of the registered channels |
| `Pollers.EpollStepHolds` | netLayer/poller/EpollPoller.cpp:102-165 | every update and removal makes an epoll_ctl call that succeeds and keeps the interest list right |
| `Pollers.EpollWatchesExactly` | netLayer/poller/EpollPoller.cpp:102-144 | an update leaves the fd watched if and only if it asks for something or was not watched before, and every other fd as it was |
| `Pollers.StepHolds` | netLayer/poller/PollPoller.cpp:70-135 | every legal operation keeps both pollers on the same map, and passes the assertions of removal |
| `Pollers.PollersAgree` | netLayer/poller/EpollPoller.cpp:102-187 | over every legal run both pollers have the kernel watch the same non-empty interest, the one the channels ask for |
| `Pollers.DisabledIsRemovable` | netLayer/poller/PollPoller.cpp:107-117 | a disabled channel passes removal's assertion if and only if it was registered before it was disabled |
| `Pollers.PollPoller.UpdateChannel` | netLayer/poller/PollPoller.cpp:70-105 | the update of slots and indices as specified, passing the source's assertions |
| `Pollers.PollPoller.RegistersExactly` | netLayer/poller/PollPoller.cpp:70-92 | a channel that is not registered passes the assertions of updateChannel if and only if its index is negative and its fd is free |
| `Pollers.PollPoller.RemoveChannel` | netLayer/poller/PollPoller.cpp:107-135 | swap-remove as specified; the removed channel keeps its index and does not pass updateChannel again |
| `Pollers.PollPoller.SwapOut` | netLayer/poller/PollPoller.cpp:124-134 | the last slot takes the place of the removed one, and its channel learns its new index |
| `Pollers.ReturnToPoll` | netLayer/poller/PollPoller.cpp:107-135 | a channel registered, disabled and removed fails the assertions of updateChannel, whatever its fd |
| `Pollers.PollPoller.FillActiveChannels` | netLayer/poller/PollPoller.cpp:50-68 | the channels of exactly the slots with events, in slot order, each told its events |
| `Pollers.ReadyIsPrefix` | netLayer/poller/PollPoller.cpp:53-67 | once as many channels are found as poll(2) counted, no later slot has events |
| `Pollers.EPollPoller.CallControl` | netLayer/poller/EpollPoller.cpp:167-187 | the interest list after an epoll_ctl call that the kernel accepts |
| `Pollers.EPollPoller.UpdateChannel` | netLayer/poller/EpollPoller.cpp:102-144 | ADD, MOD or DEL by the state of the channel, always one that succeeds |
| `Pollers.EPollPoller.RemoveChannel` | netLayer/poller/EpollPoller.cpp:146-165 | removes the channel and its interest, and lets it be registered again |
| `Pollers.ReturnToEpoll` | netLayer/poller/EpollPoller.cpp:146-165 | with EPollPoller it passes them |
| `NetworkOrder.IntRoundTrip` | netLayer/Buffer.h:214-241 | every signed integer reads back from its network-order bytes |
| `NetworkOrder.FromToBytes` | netLayer/Buffer.h:279-316 | every byte string is the writing of the integer it reads as |
| `NetworkOrder.FirstCountsMost` | netLayer/Buffer.h:279-316 | a byte in front of n others counts 256 to the n |
| `NetworkOrder.LiteralIntegers` | netLayer/Buffer.h:214-241 | 0x01020304 and -2, byte by byte |
| `NetBuffers.FindCrlf` | netLayer/Buffer.h:73-78 | the first CRLF, or none |
| `NetBuffers.Buffer.constructor` | netLayer/Buffer.h:41-50 | an empty buffer with room to prepend and to write |
| `NetBuffers.Buffer.FindCRLF` | netLayer/Buffer.h:73-78 | the search finds the first CRLF of the contents |
| `NetBuffers.Buffer.Retrieve` | netLayer/Buffer.h:106-117 | drops a prefix of the contents |
| `NetBuffers.Buffer.RetrieveAll` | netLayer/Buffer.h:146-150 | drops the contents and restores the room to prepend |
| `NetBuffers.Buffer.RetrieveAsString` | netLayer/Buffer.h:157-163 | returns and drops a prefix |
| `NetBuffers.Buffer.RetrieveAllAsString` | netLayer/Buffer.h:152-155 | returns and drops everything |
| `NetBuffers.Buffer.MakeSpace` | netLayer/Buffer.h:382-402 | growth or compaction makes the room and never changes the contents; the assertion always holds |
| `NetBuffers.Buffer.EnsureWritableBytes` | netLayer/Buffer.h:187-194 | the room is there and the contents unchanged |
| `NetBuffers.Buffer.Append` | netLayer/Buffer.h:175-180 | contents ++ bytes |
| `NetBuffers.Buffer.Unwrite` | netLayer/Buffer.h:208-212 | drops a suffix |
| `NetBuffers.Buffer.Prepend` | netLayer/Buffer.h:347-353 | bytes ++ contents |
| `NetBuffers.Buffer.Shrink` | netLayer/Buffer.h:355-362 | the contents unchanged, with the room asked for |
| `NetBuffers.Buffer.ReadFd` | netLayer/Buffer.cpp:20-52 | whatever is read is appended in order, over both areas; errors change nothing |
| `NetBuffers.Buffer.AppendInt` | netLayer/Buffer.h:214-241 | appends an integer in network order |
| `NetBuffers.Buffer.PrependInt` | netLayer/Buffer.h:318-345 | prepends one |
| `NetBuffers.Buffer.ReadInt` | netLayer/Buffer.h:243-277 | returns whatever integer was written at the front, and drops it |
| `NetBuffers.ReadsBack` | netLayer/Buffer.h:243-277 | whatever integer the contents start with reads back |
| `NetBuffers.Buffer.PerformAll` | netLayer/Buffer.h:41-402 | any run of operations acts on the contents as on a plain byte sequence |
| `FastCgiSpec.RecordRoundTrip` | cgiServer/fastcgi.cpp:226-264 | the head of any stream that starts with a record decodes to it |
| `FastCgiSpec.DecodeEncode` | cgiServer/fastcgi.cpp:226-264 | any records, with an incomplete rest, decode to themselves and the rest |
| `FastCgiSpec.LengthsAreSafe` | cgiServer/fastcgi.cpp:98-123 | a length is below 2^31, so never the sentinel, and two never wrap in 32 bits; failure consumes nothing |
| `FastCgiSpec.NoLengthExactly` | cgiServer/fastcgi.cpp:98-123 | a length is refused if and only if the stream is too short for the one it begins with |
| `FastCgiSpec.LengthRoundTrip` | cgiServer/fastcgi.cpp:98-123 | every length reads back in either encoding |
| `FastCgiSpec.PairsRoundTrip` | cgiServer/fastcgi.cpp:74-123 | any pairs, in any mix of encodings, decode to the map where the last value wins |
| `FastCgiSpec.CutPairIsRefused` | cgiServer/fastcgi.cpp:74-123 | a pair cut off anywhere is refused, and the pairs before it stay assigned |
| `FastCgiSpec.OtherRecordsIgnored` | cgiServer/fastcgi.cpp:226-289 | records of other kinds, and begin records that are short or of another role, change nothing |
| `FastCgiSpec.ParseIsDecode` | cgiServer/fastcgi.cpp:226-264 | parsing is decoding followed by the records in order |
| `FastCgiSpec.ParseInPieces` | cgiServer/fastcgi.cpp:226-264 | parsing in two pieces is parsing at once, wherever the stream is cut |
| `FastCgiTheorems.NotYet` | cgiServer/fastcgi.cpp:62-72 | no strict prefix of a request completes it |
| `FastCgiTheorems.AnyFragmentation` | cgiServer/fastcgi.h:29-46 | for any chunks of one request the callback runs once, on the last, with the same arguments |
| `FastCgiTheorems.RequestEffect` | cgiServer/fastcgi.cpp:48-72 | a request's pairs, spread over any PARAMS records, and its body, over any STDIN records, are gathered |
| `FastCgiTheorems.RequestReachesCallback` | cgiServer/fastcgi.h:29-46 | every well-formed request, in any chunks, reaches the callback once with its pairs and body |
| `FastCgiLiterals.LiteralRequest` | cgiServer/fastcgi.cpp:226-289 | a request for a=b with body hi, given as bytes, reaches the callback as just that, and asks for the connection to be kept if and only if its flags are 1 |
| `FastCgiTheorems.PipelinedRequestsMerge` | cgiServer/fastcgi.h:29-46 | the instance of two whole requests in one message: one callback |
| `FastCgiPipelining.DecodeInPieces` | cgiServer/fastcgi.cpp:226-264 | decoding in two pieces is decoding at once |
| `FastCgiPipelining.CallbacksExactly` | cgiServer/fastcgi.h:29-46 | for any bytes in any chunks there are at most as many callbacks as completed requests, and as many if and only if no chunk completes two |
| `FastCgiPipelining.RequestsCalledExactly` | cgiServer/fastcgi.h:29-46 | the same for any stream of requests |
| `FastCgiPipelining.AlignedIsServed` | cgiServer/fastcgi.h:29-46 | if no chunk has a complete record after the end of a request, the session is that of a codec that serves each request at its end |
| `FastCgiPipelining.EachGetsItsOwn` | cgiServer/fastcgi.h:29-46 | then every well-formed request gets its own parameters, body and close; the converse, cut by cut, is CutInParamsExactly and CutInBodyExactly |
| `FastCgiPipelining.CutAtEndsIsServed` | cgiServer/fastcgi.h:29-46 | in particular if every request end is a chunk end |
| `FastCgiPipelining.FeedIsFold` | cgiServer/fastcgi.h:29-46 | for any bytes in any chunks the session is the fold, over the records that each chunk completes, of all its records, at most one callback and the reset |
| `FastCgiPipelining.TwoCallbacks` | cgiServer/fastcgi.h:29-46 | a message with one request and the head of the next, and the rest in any chunks: the first callback gets what both leave, the second what comes later |
| `FastCgiPipelining.CutInParamsExactly` | cgiServer/fastcgi.h:29-46 | cut among the parameters of the second request, both get their own arguments if and only if the KEEP_CONN flags agree and the rest of the parameter stream gives the same map |
| `FastCgiPipelining.CutInBodyGives` | cgiServer/fastcgi.h:29-46 | cut after them, the first callback gets them too with the body records that came, and the second only the rest of the body |
| `FastCgiPipelining.CutInBodyExactly` | cgiServer/fastcgi.h:29-46 | so both get their own if and only if the second has no parameters, no body record came early and the flags agree |
| `FastCgiPipelining.CrossingLosesParams` | cgiServer/fastcgi.h:36-40 | parameters that come with the end of the request before are lost, so the request gets its own if and only if it has none |
| `FastCgiTheorems.StdoutFraming` | cgiServer/fastcgi.cpp:169-220 | the STDOUT payloads are the output, all of 65535 bytes but the last, which is not empty |
| `FastCgiTheorems.ResponseFraming` | cgiServer/fastcgi.cpp:127-224 | a response decodes to STDOUT records with the output, or the default page for none, then one empty STDOUT and one END_REQUEST of eight zeros; every record has version 1, id 1 and a multiple of 8 bytes, and all but the last payload have 65535 |
| `FastCgiTheorems.StdoutRecordIs` | cgiServer/fastcgi.cpp:169-183 | a STDOUT record is padded with the fewest zeros that make its size a multiple of 8 |
| `FastCgiTheorems.DefaultLength` | cgiServer/fastcgi.cpp:159-167 | the default page announces the 13 bytes of its body |
| `FastCgiLiterals.LiteralResponse` | cgiServer/fastcgi.cpp:127-224 | the response to hi, record by record and byte by byte |
| `FastCgiCodecs.FastCgiCodec.ReadLen` | cgiServer/fastcgi.cpp:98-123 | reads a length off the params stream as specified |
| `FastCgiCodecs.FastCgiCodec.ParseAllParams` | cgiServer/fastcgi.cpp:74-96 | the loop fills params as specified, malformed streams included |
| `FastCgiCodecs.FastCgiCodec.OnParams` | cgiServer/fastcgi.cpp:48-60 | gathers the stream, and parses it on the empty record |
| `FastCgiCodecs.FastCgiCodec.OnStdin` | cgiServer/fastcgi.cpp:62-72 | gathers the body, and completes the request on the empty record |
| `FastCgiCodecs.FastCgiCodec.OnBeginRequest` | cgiServer/fastcgi.cpp:273-290 | takes keepConn from a responder's record only |
| `FastCgiCodecs.FastCgiCodec.ParseRequest` | cgiServer/fastcgi.cpp:226-264 | the loop consumes the complete records of the buffer as specified |
| `FastCgiCodecs.FastCgiCodec.OnMessage` | cgiServer/fastcgi.h:29-46 | parses, runs the callback on a complete request and resets |
| `FastCgiCodecs.FastCgiCodec.Respond` | cgiServer/fastcgi.cpp:157-224 | appends the encoding of the specified records |
| `FastCgiCodecs.FastCgiCodec.RespondInPieces` | cgiServer/fastcgi.cpp:184-220 | the loop over full records and the rest appends the framed output |
| `FastCgiCodecs.FastCgiCodec.EndStdout` | cgiServer/fastcgi.cpp:127-139 | appends the empty STDOUT record |
| `FastCgiCodecs.FastCgiCodec.EndRequest` | cgiServer/fastcgi.cpp:141-155 | appends the END_REQUEST record |
| `HttpSpec.ParseInPieces` | netLayer/http/HttpContext.cpp:55-113 | parsing in two pieces is parsing at once, wherever the bytes are cut; after a failure the bad line stays in front |
| `HttpSpec.AnyChunks` | netLayer/http/HttpContext.cpp:55-113 | up to the end of the first request, any bytes in any chunks, one call for each and after a failure too, end where one parse does, and the assertion of setMethod fails if and only if a call comes after a failure that has named a method |
| `HttpSpec.FailsAgain` | netLayer/http/HttpContext.cpp:55-82 | a failed parser called again fails in the same way with the same fields, and trips over the method exactly if the line has a space and a method is set |
| `HttpSpec.NextCallPasses` | netLayer/http/HttpRequest.h:47-50 | after a failed parse of a new connection the next call passes the assertion if and only if the first line names no method |
| `HttpSpec.BadVersionAborts` | netLayer/http/HttpContext.cpp:33-51 | any known method with any unknown version, and any message after it, fail the assertion |
| `HttpSpec.UnknownVersionAborts` | netLayer/http/HttpContext.cpp:33-51 | for instance GET / HTTP/9.9 and one more byte |
| `HttpSpec.HeadersEndExactly` | netLayer/http/HttpContext.cpp:83-106 | a line ends the headers, adding nothing, if and only if it has no colon |
| `HttpSpec.EmptyLineEndsExactly` | netLayer/http/HttpContext.cpp:93-99 | the comment that an empty line ends them is right about a line if and only if it is empty or has a colon; Host alone ends them |
| `HttpSpec.LineRoundTrip` | netLayer/http/HttpContext.cpp:11-52 | a request line sets exactly the method, path, query and version it was written with |
| `HttpSpec.HeadersRoundTrip` | netLayer/http/HttpContext.cpp:84-104 | headers sent as name, colon, blanks, value and blanks fill the map with the values, the last of a name winning, up to the empty line |
| `HttpSpec.TrimExactly` | netLayer/http/HttpRequest.h:129-143 | trimming takes bytes 9 to 13 and 32 off both ends, all of them and nothing else |
| `HttpSpec.TrimmedIsUnique` | netLayer/http/HttpRequest.h:129-143 | any value between such bytes, not itself beginning or ending with one, is what is stored |
| `HttpSpec.WordsExactly` | netLayer/http/HttpRequest.h:47-76 | exactly the words of the five methods and the two versions are recognised |
| `HttpSpec.MethodBytes` | netLayer/http/HttpRequest.h:47-76 | the words of the five methods, byte by byte |
| `HttpSpec.BadLineSets` | netLayer/http/HttpContext.cpp:11-52 | a bad line sets what comes before its fault: all but the version, only the method, or nothing |
| `HttpSpec.LiteralRequest` | netLayer/http/HttpContext.cpp:55-113 | GET /a?b HTTP/1.1 with Host: x, given as bytes, parses to just those fields |
| `HttpSpec.RequestInAnyChunks` | netLayer/http/HttpContext.cpp:55-113 | every well-formed request in any chunks reaches kGotAll with its fields, and leaves what follows |
| `HttpSpec.WholeRequest` | netLayer/http/HttpContext.cpp:55-113 | one parse of a well-formed request gives its fields and leaves what follows it |
| `HttpServing.ServedInOrder` | netLayer/http/HttpServer.cpp:60-77 | for any bytes in any messages, what is served and what waits in the buffer are the requests of the whole stream, in order |
| `HttpServing.OneForEachMessage` | netLayer/http/HttpServer.cpp:60-77 | a message serves one request if one is complete and not served yet, and never two |
| `HttpServing.RejectsExactly` | netLayer/http/HttpServer.cpp:60-77 | a message is answered with 400 if and only if a request line is expected and the first line in the buffer is a bad one |
| `HttpServing.ServedExactly` | netLayer/http/HttpServer.cpp:60-77 | the number served is the least, over all points, of the requests complete there plus the messages since |
| `HttpServing.AllServedExactly` | netLayer/http/HttpServer.cpp:60-77 | all complete requests are served if and only if after no message the rest complete more requests than they are |
| `HttpServing.RequestsAreMeanings` | netLayer/http/HttpContext.cpp:55-113 | the requests of a stream of well-formed requests are those they were written as |
| `HttpServing.ServesMeanings` | netLayer/http/HttpServer.cpp:60-77 | so in any messages they are what is served, up to those that still wait |
| `HttpServing.TwoInOneMessage` | netLayer/http/HttpServer.cpp:60-77 | two whole requests in one message: one served, one left waiting |
| `HttpServing.MessageFailsExactly` | netLayer/http/HttpServer.cpp:60-77 | a message fails the assertion of setMethod if and only if it finds a method set where a request line is expected |
| `HttpServing.SetExactly` | netLayer/http/HttpContext.cpp:61-82 | a message leaves a method set if and only if it is rejected for what follows one |
| `HttpServing.FailsExactly` | netLayer/http/HttpServer.cpp:60-77 | over any bytes in any messages, requests served before included, the assertion fails if and only if a message comes when a method is set |
| `HttpServing.LaterBadVersionAborts` | netLayer/http/HttpServer.cpp:60-77 | a good request, one for an unknown version and any further message: the third message fails the assertion |
| `HttpContexts.HttpContext.SetMethod` | netLayer/http/HttpRequest.h:47-76 | the five methods by their names, anything else invalid; whether the assertion held is recorded |
| `HttpContexts.HttpContext.AddHeader` | netLayer/http/HttpRequest.h:129-143 | the two trimming loops store the value as HttpSpec.TrimExactly describes it |
| `HttpContexts.HttpContext.SetTarget` | netLayer/http/HttpContext.cpp:22-31 | splits the target at the question mark |
| `HttpContexts.HttpContext.SetVersion` | netLayer/http/HttpContext.cpp:33-48 | accepts exactly HTTP/1.0 and HTTP/1.1 |
| `HttpContexts.HttpContext.ProcessRequestLine` | netLayer/http/HttpContext.cpp:11-52 | sets the fields as specified; those set before a failure stay set |
| `HttpContexts.HttpContext.TakeRequestLine` | netLayer/http/HttpContext.cpp:61-82 | the context after a request line, good or bad |
| `HttpContexts.HttpContext.TakeHeaderLine` | netLayer/http/HttpContext.cpp:83-101 | the context after a header line, or after the line that ends the headers |
| `HttpContexts.HttpContext.ParseLine` | netLayer/http/HttpContext.cpp:59-112 | one round of the loop makes one step of the specified parse |
| `HttpContexts.HttpContext.ParseRequest` | netLayer/http/HttpContext.cpp:55-113 | the loop over the buffer computes the specified parse |
| `HttpContexts.HttpConnection.OnMessage` | netLayer/http/HttpServer.cpp:60-77 | parses once, rejects a bad request, serves a complete one and resets, as specified |
| `AsyncLoggings.FixedBuffer.Append` | base/log/LogStream.h:38-46 | appends all of the bytes, or nothing if no byte would be spare |
| `AsyncLoggings.StepKeepsInv` | base/log/AyncLogging.cpp:40-142 | every step keeps lines, file and spare buffers right, and the spares can be refilled |
| `AsyncLoggings.RunKeepsInv` | base/log/AyncLogging.cpp:40-142 | the same over every interleaving |
| `AsyncLoggings.LinesAreConserved` | base/log/AyncLogging.cpp:40-142 | in every interleaving, the last swap after stop included: batches ++ buffers_ ++ currentBuffer_ are the lines passed to append that fit a buffer, in order, and the file holds every batch, or a notice and the first two buffers of one of more than 25 |
| `AsyncLoggings.DropsExactly` | base/log/AyncLogging.cpp:99-115 | a batch of more than 25 buffers gives a notice of all but two and its first two buffers, any other all of its buffers |
| `AsyncLoggings.FileBytes` | base/log/AyncLogging.cpp:99-115 | over every run the bytes of the file are, batch by batch, all of it or those of its first two buffers if it has more than 25 |
| `AsyncLoggings.AppendRetiresExactly` | base/log/AyncLogging.cpp:40-62 | a line joins the current buffer if and only if a byte is left to spare; otherwise the buffer is retired and the line starts the next, unless it is as long as one |
| `AsyncLoggings.SwapTakesAll` | base/log/AyncLogging.cpp:82-95 | a swap takes every buffer, the current one last, and leaves no byte behind |
| `AsyncLoggings.WriteKeepsWritten` | base/log/AyncLogging.cpp:99-115 | what is left to recycle are the buffers written |
| `AsyncLoggings.SparesAreThere` | base/log/AyncLogging.cpp:78-137 | no assertion of the backend fails, and nextBuffer_ null implies buffers_ non-empty |
| `AsyncLoggings.NothingLost` | base/log/AyncLogging.cpp:40-142 | while no batch exceeds 25 buffers, the file and the buffers hold every byte of the lines passed to append that fit, in order |
| `AsyncLoggings.LastSwap` | base/log/AyncLogging.cpp:76-95 | after stop the backend swaps at most once more, and only if it had already tested running_ |
| `AsyncLoggings.NothingAfterExit` | base/log/AyncLogging.cpp:76-142 | once it has left its loop nothing more is written |
| `AsyncLoggings.SavedExactly` | base/log/AyncLogging.cpp:76-95 | from stop on, everything appended so far is swapped out by the time the backend leaves if and only if it had already tested running_ in its round or nothing was left to swap |
| `AsyncLoggings.StopLosesLine` | base/log/AyncLogging.cpp:76-95 | a run in which a line appended before stop is never written |
| `AsyncLoggings.AsyncLogging.TestRunning` | base/log/AyncLogging.cpp:76-80 | the test of the loop, apart from the swap that follows it |
| `AsyncLoggings.AsyncLogging.AppendLine` | base/log/AyncLogging.cpp:40-62 | appends to the current buffer, or retires it and takes the spare or a new one |
| `AsyncLoggings.AsyncLogging.SwapBuffers` | base/log/AyncLogging.cpp:82-95 | the locked section of the backend |
| `AsyncLoggings.AsyncLogging.WriteBatch` | base/log/AyncLogging.cpp:99-115 | writes the batch, or a notice and its first two buffers |
| `AsyncLoggings.AsyncLogging.Recycle` | base/log/AyncLogging.cpp:117-139 | refills both spares from the batch |
| `ThreadPools.StepKeepsInv` | base/thread/ThreadPool.cpp:41-115 | every locked section and every spurious wakeup keeps bound, order and notifications |
| `ThreadPools.RunKeepsInv` | base/thread/ThreadPool.cpp:41-115 | the same over every interleaving of any workers and producers |
| `ThreadPools.BoundedAndInOrder` | base/thread/ThreadPool.cpp:80-106 | the queue respects the bound it was given, and tasks leave once, in the order they came |
| `ThreadPools.NoLostNotification` | base/thread/ThreadPool.cpp:41-115 | tasks never outnumber signalled workers while a worker sleeps unsignalled, nor free slots signalled producers; after stop no worker sleeps unsignalled |
| `ThreadPools.PutQueuesExactly` | base/thread/ThreadPool.cpp:94-105 | a producer through put has left its task at the end of the queue; it waits, still offering it, if and only if the queue is full |
| `ThreadPools.TakePopsExactly` | base/thread/ThreadPool.cpp:80-92 | a worker through take has the first task, or none of an empty stopped pool; it waits if and only if the queue is empty and the pool runs |
| `ThreadPools.LeavesExactly` | base/thread/ThreadPool.cpp:51-63 | a worker between two tasks goes on if and only if the pool runs |
| `ThreadPools.LeftForGood` | base/thread/ThreadPool.cpp:51-63 | one that has left takes no part in any run |
| `ThreadPools.ReleasedExactly` | base/thread/ThreadPool.cpp:80-105 | a step releases a blocked producer if and only if a worker takes a task and wakes it, or it wakes spuriously |
| `ThreadPools.TakesAfterStop` | base/thread/ThreadPool.cpp:51-63 | after stop the workers that can still take do so at most once each |
| `ThreadPools.BlockedForEver` | base/thread/ThreadPool.cpp:94-105 | on a stopped full pool without such workers a blocked producer stays in put over every run, spurious wakeups included |
| `ThreadPools.EscapesExactly` | base/thread/ThreadPool.cpp:41-105 | a producer blocked in a stopped pool can still get out in some run if and only if the queue has room or a worker can still take |
| `ThreadPools.StopBlocksProducers` | base/thread/ThreadPool.cpp:41-49 | stop shuts a blocked producer in for ever if and only if the queue is full and no worker sleeps or is about to take |
| `ThreadPools.StopLeavesProducersBlocked` | base/thread/ThreadPool.cpp:41-49 | a run that stops a full pool with a producer blocked and no worker about to take |
| `ThreadPools.ThreadPool.TestRunning` | base/thread/ThreadPool.cpp:56-63 | a worker goes on to take or leaves, as isRunning_ says |
| `ThreadPools.ThreadPool.TakeHoldingLock` | base/thread/ThreadPool.cpp:80-92 | waits, returns the first task, or returns nothing after stop |
| `ThreadPools.ThreadPool.TakeFirst` | base/thread/ThreadPool.cpp:80-92 | the first section of take |
| `ThreadPools.ThreadPool.TakeAfterWait` | base/thread/ThreadPool.cpp:80-92 | a section of take after its wait |
| `ThreadPools.ThreadPool.PutHoldingLock` | base/thread/ThreadPool.cpp:94-105 | waits while full, or queues its task |
| `ThreadPools.ThreadPool.PutFirst` | base/thread/ThreadPool.cpp:94-105 | the first section of put |
| `ThreadPools.ThreadPool.PutAfterWait` | base/thread/ThreadPool.cpp:94-105 | a section of put after its wait |
| `ThreadPools.ThreadPool.StopPool` | base/thread/ThreadPool.cpp:41-49 | stops and signals every worker |

## Left out

- System calls (sockets, poll, epoll, timerfd, eventfd, files): their results are parameters or steps that may come at
  any time, held only to their documented contracts.
- Clocks and randomness: the current time is a parameter of every step that reads it.
- Integer widths: day numbers, years, seconds and buffer indices are unbounded, so overflow of a 32-bit `int` is not
  modelled; the FastCGI lengths, the network-order integers and truncating division are modelled as they are.
- Floating point: timer intervals are real numbers, so the rounding of `double` in addTime is not modelled.
- TimeZone::readTimeZoneFile: the transition and local-type tables are given; gmtime_r and timegm are parameters of
  which only timegm(gmtime(s)) = s is used, and for skipped times that gmtime shows hour and minute.
- The order of std::set is that of its elements; the sets are mathematical sets with an ordered iteration.
- The timerfd's period (it_interval equals it_value, netLayer/timer/TimerQueue.cpp:65): only the first expiry of a
  setting is used, which is what a missed timer depends on.
- TcpConnection: the input buffer, the context, writeCompleteCallback_ and highWaterMarkCallback_ (they only queue user
  callbacks), the linger options and the final socket close; the output buffer is the byte sequence that
  `NetBuffers.Buffer` is proved to be. state_ is unsynchronised in the source; each method is one atomic step here.
- The kernel's interest in a connection follows EPollPoller, the default; with PollPoller a channel without interest is
  never reported, so `DeafGoesDownTwice` does not arise.
- TcpServer, TcpClient and EventLoopThread: which owner calls connectEstablished and connectDestroyed is a step of the
  environment; shared_ptr lifetimes and raw `this` binds are not modelled.
- EventLoop::runInLoop from the loop thread calls the functor at once and adds nothing to the hand-off; iteration
  counts and logging are not modelled.
- EPollPoller::fillActiveChannels and the growth of its event array would only add easy members.
- The asynchronous logger's buffers are owned values, so moving them is assignment; lines as long as a buffer are
  dropped by the code and are excluded from the accepted bytes. File rolling, flushing and the text of the notice are
  not modelled.
- The thread pool's put runs its argument itself when there are no threads (base/thread/ThreadPool.cpp:95-96), which is
  not modelled. Starting and joining threads are left out.
- HTTP: receive times, and kExpectBody, which the code never enters. Responses, and the shutdown after a bad request or
  the last one, are not modelled: the server goes on parsing what is read, as the code does.
- FastCGI: records of kinds other than BEGIN_REQUEST, PARAMS and STDIN are skipped as the code skips them; log messages
  are not modelled.
- Mutex, Condition and Atomic internals, LogStream formatting, redis, zlib, configuration, the CGI worker processes and
  the web pages are not part of this model.
