# linux-web-audio-capture in Dafny

The library records what a desktop plays and hands it to a caller one fixed-size frame
at a time. A capture thread reads the monitor of a sink and pushes frames into a bounded
ring; `weba_capture_read_frame` takes them out at a fixed rate, fills gaps with silence,
and tells the caller with every frame what was lost or reopened before it. This project
models that path and proves what the library promises about it.

| file | what it holds |
|---|---|
| `Bytes.dfy`, `Options.dfy`, `Targets.dfy` | bytes, frames, integer widths; the option type; what a capture records |
| `FrameLog.dfy` | the frame queue as a log of accepted frames and a cursor, and its histories |
| `FrameRing.dfy` | the ring itself: slots in one byte array, drop-oldest, proved against the log |
| `Configuration.dfy` | what `create` accepts, and accepted configurations that break a premise |
| `FramePeriod.dfy`, `DurationText.dfy` | the duration of a frame; printing it and reading it back |
| `Pacing.dfy` | the deadline arithmetic and what it does to any run of deliveries |
| `Delivery.dfy`, `DeliveryProofs.dfy`, `DeliveryTheorems.dfy`, `AudioCadence.dfy` | the reading side as a machine of atomic steps against a free environment, its invariants, its promises |
| `Punctuality.dfy` | how long calls take, and which stamps they get |
| `DeliveryLimits.dfy` | runs that show where those promises end, and the exact conditions |
| `ReadFrame.dfy` | `read_frame` as a loop over the ring, the pacing fields and the caller's buffer, proved to be a run of that machine |
| `ReadSession.dfy` | a caller that reads frame after frame, and what it can conclude from what it gets |
| `CaptureSystem.dfy`, `CaptureProofs.dfy`, `CaptureTheorems.dfy` | capture thread, reader and control calls side by side; announcements, sink following, and the reading promises lifted to the whole program |
| `CaptureLimits.dfy` | a run in which one reopening is announced twice |
| `CaptureLoop.dfy` | `capture_loop` as a loop over the ring and the shared fields, proved to follow that machine |
| `Lifecycle.dfy` | start, stop and destroy against capture threads that may have to be abandoned |
| `HandleControl.dfy` | the three calls on the fields of the handle, proved to follow that machine |
| `Waiting.dfy`, `QueueWaiting.dfy` | the condition-variable waits on a flag and on the frame queue, cut at lock, test, block and notify |
| `Alarms.dfy`, `Queries.dfy` | the one-shot alarm and the control queries built on it |
| `Wav.dfy`, `WavFile.dfy` | the example program's WAV file, its reader, and its writer with the two patches |

## How the model is built

Times are integer nanoseconds. Each clock sample of the source is a separate event, and
the clock only moves forward. Sleeps may end early or late. A run is a sequence of events
each of which is possible when its turn comes; theorems speak about every run.

The reading machine of `Delivery` leaves the rest of the program free: anything may be
pushed, flagged or closed between two of its steps. `CaptureSystem` adds the capture
thread, with free answers from the audio server; a run of the whole program projects onto
a run of the reading machine, so what holds of every run there holds here. `ReadFrame` is
the code of `read_frame` on concrete data; what other threads do between its actions is a
parameter, and the code is proved to follow the machine. `CaptureLoop` and `HandleControl`
do the same for the capture thread and the control calls: they execute any given run of
their machine on concrete fields and are proved to be where the machine is all along.

Histories (`out`, `ended`, the `Ledger`) record what happened; no step reads them.

Premises, all visible in the statements:

- there is one reader (`include/webacapture.h:11-14`), which alone uses the pacing fields; the hand-off of frames itself is safe with any number (`QueueWaiting.NoFrameUnattended`);
- the rate bound needs a period of at least a microsecond, which `create` does not enforce; `AudioCadence.BoundedExactly` says exactly which configurations have one;
- the ring's storage size does not wrap 64 bits, which `create` does not enforce either; `FrameRing.StorageExact` says exactly when the storage is right and `Configuration.StorageWraps` names an accepted configuration for which it is not;
- `dropped_frames` is the exact gap unless the gap needs more than 32 bits (`DeliveryTheorems.GapAccounting`).

Where code and comments differ, the code is modelled:

- `src/capture.cpp:257-260` says the exit notification cannot be lost. It can (`Waiting.ExitNotifyLost`), because `running` is stored without the lock; the last test at the timeout is what saves the result (`Waiting.LastTestSees`).
- `src/capture.cpp:249-251` suggests one report per reopen. A read failure and the reopen after it are flagged separately and can be reported by two deliveries (`CaptureLimits.ReopenReportedTwice`); they share one exactly when the reader did not exchange the flags in between (`CaptureTheorems.SharedDelivery`). A moved sink is flagged once, as the comment says (`CaptureTheorems.ReopenCauses`).
- A caller hears of an announcement exactly when the delivery that took it was asked for information. Without fixed rate that is always so; at fixed rate a call without an information structure takes the flags and loses them (`CaptureTheorems.HeardExactly`).

## Model

| member | source | states |
|---|---|---|
| `FrameLog.DropsOnlyWhenFull` | src/frame_queue.h:88-125 | a non-zero drop counter implies a full queue, so a pop that finds nothing reports no drop and loses none |
| `FrameLog.PushEffect` | src/frame_queue.h:82-103 | an accepted push appends, and gives up the oldest frame and counts it exactly when the queue was full |
| `FrameLog.PopEffect` | src/frame_queue.h:115-132 | a pop takes the oldest frame with the pending drop count, or from an empty queue changes nothing and says whether it is closed |
| `FrameLog.HistoryAccounted` | src/frame_queue.h:82-132 | over any history every popped frame is the accepted frame with index previous + 1 + reported drops, bytes untouched |
| `FrameLog.Conservation` | src/frame_queue.h:49-132 | accepted = delivered + reported drops + pending drops + queued, over any history |
| `FrameLog.LogOnlyGrows` | src/frame_queue.h:82-141 | accepted frames are never rewritten, and a closed queue accepts none |
| `FrameRing.FrameQueue.Init` | src/frame_queue.h:49-67 | sizes and empties the ring, raises capacity 0 to 1, refuses empty slots and failed allocation without a change |
| `FrameRing.FrameQueue.Push` | src/frame_queue.h:82-103 | the ring after a push stands for the log with the frame appended; returns the frames discarded |
| `FrameRing.FrameQueue.Pop` | src/frame_queue.h:115-132 | hands out the head of the log window and the cursor skip, or 0 or -1; copies exactly one slot into the buffer |
| `FrameRing.FrameQueue.Close` | src/frame_queue.h:135-141 | refuses further pushes and keeps what is queued |
| `FrameRing.FrameQueue.Size` | src/frame_queue.h:144-147 | the number of frames in the log window |
| `FrameRing.PushWithRoom` | src/frame_queue.h:96-98 | writing the slot after the queued ones leaves every queued frame's bytes alone |
| `FrameRing.PushWhenFull` | src/frame_queue.h:89-98 | in a full ring the oldest slot is the one overwritten, the others keep their frames, and the drop counter follows the log |
| `FrameRing.PopSome` | src/frame_queue.h:119-131 | the slot at the read index holds the frame the log owes, and the drop counter is the cursor skip |
| `FrameRing.SlotsDisjoint` | src/frame_queue.h:97-128 | different slots share no byte |
| `FrameRing.WrapIsRemainder` | src/frame_queue.h:90-96 | the remainder the ring computes is the wrap-around position |
| `FrameRing.StorageExact` | src/frame_queue.h:55-55 | the storage has room for every slot if and only if the product does not wrap 64 bits |
| `Configuration.AcceptedFrames` | src/capture.cpp:128-140 | accepted configurations have frames of at least two bytes a sample frame, and their size does not wrap |
| `Configuration.StorageForSettings` | src/capture.cpp:317-317 | the ring of an accepted configuration has its storage if and only if frame size times queue length stays below 2^64 |
| `Configuration.StorageWraps` | src/capture.cpp:306-317 | 2^30 stereo float samples a frame and 2^31 frames pass every test of `create` and leave the ring without storage |
| `FramePeriod.PeriodFits` | src/capture.cpp:56-58 | the product behind the period fits a signed 64-bit integer for every 32-bit sample count |
| `FramePeriod.PeriodBelow` | src/capture.cpp:56-58 | the period is below 2^42 milliseconds for every 32-bit input |
| `FramePeriod.PeriodPositive` | src/capture.cpp:56-58 | the period is at least a microsecond if and only if the samples last that long |
| `FramePeriod.PeriodsTrailAudio` | src/capture.cpp:48-58 | n periods trail n frames of audio by less than n microseconds, and by nothing exactly when the rate divides the samples |
| `FramePeriod.OpusShortFrame` | src/capture.cpp:51-54 | a 2.5 ms frame is exactly 2500 microseconds at every rate where it is a whole number of samples (section 2.1.4 of RFC 6716) |
| `DurationText.PeriodText` | src/capture.cpp:61-78 | the printed duration reads back as exactly the period and has no trailing zero or dot |
| `DurationText.MillisText` | src/capture.cpp:63-77 | the same for every number of microseconds |
| `DurationText.TrimZeros` | src/capture.cpp:71-76 | trimming cuts exactly the trailing zeros of the fraction |
| `DurationText.DigitTable` | src/capture.cpp:65-68 | digits are printed and read as the characters 0 to 9 |
| `DurationText.CanonicalUnique` | src/capture.cpp:61-78 | a period has one canonical text, so different periods print differently |
| `DurationText.DoubleRoundsBack` | src/capture.cpp:68-68 | for every 32-bit input the double nearest to the quotient rounds to the exact thousandth |
| `Pacing.AdvanceBounds` | src/capture.cpp:453-459 | after a due frame the deadline lies between the stamp and one period past it: a period on, or a period from the stamp exactly if that was past |
| `Pacing.SleepSettles` | src/capture.cpp:420-431 | a sleep of full length leaves nothing to sleep for, in spite of truncation to microseconds |
| `Pacing.SleepBounded` | src/capture.cpp:420-431 | a sleep is to end at the caller's deadline or 1 ms past the frame's, whichever is first, to a microsecond |
| `Pacing.QueueWaitBounded` | src/capture.cpp:388-393 | without fixed rate the queue is waited on for what is left of the timeout, to a microsecond |
| `Pacing.GiveUpIsLate` | src/capture.cpp:420-428 | a read gives up only less than a microsecond before its own deadline or later |
| `Pacing.WindowBound` | src/capture.cpp:411-459 | any window of time holds at most length / period + 2 deliveries |
| `Pacing.WindowBoundAttained` | src/capture.cpp:453-459 | the bound is attained at every period and for every length of window |
| `Pacing.NoDrift` | src/capture.cpp:453-459 | the deadline after n deliveries is exactly n periods on if and only if none was fetched more than a period late |
| `DeliveryProofs.InvStep` | src/capture.cpp:361-480 | every step of reader and environment keeps gap accounting, pacing, patience and flags |
| `DeliveryTheorems.GapAccounting` | src/capture.cpp:382-479 | without the silent frames, what was delivered is captured audio in order with exact bytes, each index the previous + 1 + dropped frames; every overflow is accounted for |
| `DeliveryTheorems.RateBound` | src/capture.cpp:411-459 | the window bound for every fixed-rate run, clock and burst |
| `DeliveryTheorems.DeadlineNearby` | src/capture.cpp:411-459 | after each delivery the deadline is within a period of its stamp, and never more than a period ahead of the clock |
| `DeliveryTheorems.EachDue` | src/capture.cpp:453-459 | each frame is due a period after the one before, or a period after that one's stamp if it was more than a period late |
| `DeliveryTheorems.CadenceHolds` | src/capture.cpp:453-459 | no drift over whole runs, with the exact condition |
| `AudioCadence.CadenceTracksAudio` | src/capture.cpp:48-58 | n punctual frames keep the pacer within n microseconds of the audio handed over |
| `DeliveryTheorems.CallsArePatient` | src/capture.cpp:376-431 | no call is too quick: it slept at most once more than it was woken early, and timed out only at its own deadline |
| `Punctuality.CallsArePrompt` | src/capture.cpp:376-431 | nor too slow: if no sleep or wait overruns by more than a slack, every call ends by its own deadline plus it, and a fixed-rate one delivers by 1 ms past the frame's or at once |
| `Punctuality.RecheckDecides` | src/capture.cpp:402-407 | a read without fixed rate that found nothing times out at the first look at or past its deadline, and goes on at any before |
| `Punctuality.StampsInOrder` | src/capture.cpp:461-474 | over every run stamps do not decrease and none is ahead of the clock |
| `Punctuality.StampIsSample` | src/capture.cpp:454-474 | the stamp is the clock sample taken after the frame was |
| `DeliveryTheorems.NoSpuriousTimeout` | src/capture.cpp:376-431 | a fixed-rate read that waits a period and a microsecond never times out, unless it armed the pacer |
| `DeliveryLimits.ShortTimeoutInVain` | src/capture.cpp:421-428 | at every period, a timeout no longer than it can be in vain although no sleep was cut short |
| `DeliveryLimits.TimeoutExactly` | src/capture.cpp:376-431 | among whole-millisecond timeouts and whole-microsecond periods, exactly the timeouts longer than the period are never in vain, and at a period of zero all of them |
| `DeliveryLimits.ZeroPeriodBurst` | src/capture.cpp:411-459 | with a period of zero any number of frames can be delivered in one instant |
| `DeliveryLimits.RateBoundedExactly` | src/capture.cpp:411-459 | the rate is bounded if and only if the period is not zero |
| `AudioCadence.BoundedExactly` | src/capture.cpp:306-306 | it is bounded exactly for the configurations whose frames last a microsecond |
| `Configuration.OneSampleBursts` | src/capture.cpp:306-315 | one sample at 2 MHz passes every test of `create` and has no bound |
| `DeliveryTheorems.PopDecides` | src/capture.cpp:395-450 | a due read hands over the oldest frame queued, silence from an empty open queue, and is refused by an empty closed one; without fixed rate it tries again instead of synthesizing |
| `DeliveryTheorems.FlagsSound` | src/capture.cpp:442-451 | silence, underrun and a synthesized frame coincide; a discontinuity is exactly an announcement or a gap |
| `DeliveryTheorems.HealthyRun` | tests/webaudio_selftest.cpp:177-177 | nothing announced and no overflow: no discontinuity |
| `DeliveryTheorems.CloseIsFinal` | src/frame_queue.h:84-126 | after close, delivered and still owed together never change: a frame already in hand, then the frames queued, in order and once each, and nothing new |
| `DeliveryTheorems.DeliveredAfterClose` | src/capture.cpp:435-451 | each delivery after close is the frame owed at its place, and silence only if the read in progress had decided on it before |
| `ReadFrame.CaptureHandle.constructor` | src/capture.cpp:283-323 | a created handle paces by the frame period of its configuration |
| `ReadFrame.CaptureHandle.LookFixed` | src/capture.cpp:411-431 | arms the pacer; finds the frame due exactly at or past its deadline, and otherwise sleeps to the earlier of the caller's deadline and 1 ms past the frame's, or gives up, as the machine does |
| `ReadFrame.CaptureHandle.LookAny` | src/capture.cpp:388-393 | without fixed rate leaves the rest of the timeout to the queue |
| `ReadFrame.CaptureHandle.TakeDue` | src/capture.cpp:433-450 | takes the head of the ring into the buffer or zeroes it |
| `ReadFrame.CaptureHandle.ReturnDue` | src/capture.cpp:442-467 | exchanges the flags after the pop, advances or resyncs the deadline, fills in the information |
| `ReadFrame.CaptureHandle.TakeAny` | src/capture.cpp:387-409 | without fixed rate waits on the ring and takes what comes |
| `ReadFrame.CaptureHandle.ReturnAny` | src/capture.cpp:470-479 | stamps first, with the clock of that moment, then takes the flags, and only for a caller that asked |
| `ReadFrame.CaptureHandle.TurnAny` | src/capture.cpp:387-409 | one turn without fixed rate: it times out at or past the call's deadline, and there is another turn only before it |
| `ReadFrame.CaptureHandle.Turns` | src/capture.cpp:384-468 | the loop of the call, turn by turn |
| `ReadFrame.CaptureHandle.Read` | src/capture.cpp:361-480 | every execution is a run of the reading machine, of one call with the timeout asked for in milliseconds from its first clock sample; 1, 0 and the error codes mean what the machine says; a running handle refuses only when its queue is closed, and a refused call changes nothing |
| `ReadSession.ReadAll` | src/capture.cpp:361-480 | a caller that makes any list of calls is served or times out unless the handle is not running or the queue is closed, and at fixed rate a timeout a microsecond longer than the period is in vain only for the first call that reaches the pacer; it receives what was delivered, and by its own count of frames and drops every buffer is the captured frame at its place or silence, at a bounded rate |
| `ReadSession.ReadOne` | src/capture.cpp:361-480 | the same of one call, in terms of its timeout in milliseconds |
| `ReadSession.CountsExplain` | src/capture.cpp:461-477 | counting frames and `dropped_frames` locates every frame received in the capture |
| `CaptureProofs.Projection` | src/capture.cpp:180-263 | the reading side of any run of the program is a run of the reading machine |
| `CaptureProofs.SysInvStep` | src/capture.cpp:180-263 | every step of capture thread, reader and control calls keeps all invariants |
| `CaptureTheorems.ReopenNeverLate` | src/capture.cpp:219-236 | when a frame of a reopened stream is delivered and its flags exchanged, it or an earlier delivery announces that very reopening |
| `CaptureTheorems.ReinitExactly` | src/capture.cpp:203-233 | a frame says REINIT exactly when a failure or reopen was flagged since the exchange before |
| `CaptureTheorems.AnnouncementsConserved` | src/capture.cpp:203-233 | failures and reopens are flagged in order, and what was flagged is, in order, what the deliveries took one after the other, what a read in progress holds and what is pending |
| `CaptureTheorems.HeardExactly` | src/capture.cpp:442-477 | an announcement is under way or filed with exactly one delivery, and a caller hears of it if and only if that delivery was asked for information, as it always is without fixed rate |
| `CaptureTheorems.SharedDelivery` | src/capture.cpp:219-233 | two announcements share a delivery if and only if the reader did not exchange the flags between them |
| `CaptureTheorems.ReopenCauses` | src/capture.cpp:219-254 | from one stream to the next there is one reopening to announce, and one read failure exactly if the stream ended in one rather than in a moved sink |
| `CaptureLimits.ReopenReportedTwice` | src/capture.cpp:219-233 | a run with one reopening and two deliveries that say REINIT, seen by the caller or by nobody |
| `CaptureTheorems.HealthyCapture` | tests/webaudio_selftest.cpp:177-177 | no failure, reopen or overflow: no discontinuity |
| `CaptureTheorems.CaptureGaps` | src/capture.cpp:382-479 | gap accounting in every interleaving with the capture thread |
| `CaptureTheorems.CaptureRate` | src/capture.cpp:411-459 | the rate bound in every interleaving with the capture thread |
| `CaptureTheorems.StopIsFinal` | src/capture.cpp:495-507 | once stop has closed the queue, whatever is called later, another start included, delivers only the frame in hand and the frames queued, in order and once each |
| `CaptureTheorems.StopCloses` | src/capture.cpp:500-507 | a stop run to its end has closed the queue, and the loop is left only on request |
| `CaptureTheorems.SinkFollowed` | src/capture.cpp:167-254 | the open stream is the published one up to 255 bytes of name; an unpinned loop never starts a read with its latest clock sample a recheck interval past its last poll |
| `CaptureTheorems.PollFollows` | src/capture.cpp:243-254 | a poll that names another monitor than the one recorded ends the stream; one that names the same, or fails, leaves it alone |
| `CaptureTheorems.MovesFollowed` | src/capture.cpp:243-254 | over any run streams end in a move exactly as often as a poll named another monitor |
| `CaptureTheorems.StreamsAccounted` | src/capture.cpp:189-254 | every stream opened is open or ended in one way, and a pinned one never by a moved sink |
| `CaptureSystem.TruncatedIsLongest` | src/capture.cpp:173-174 | a published name is the longest beginning of the name of at most 255 bytes |
| `CaptureSystem.EveryAnswerPossible` | src/capture.cpp:180-263 | wherever the capture thread is, its next action is possible with every answer, and stop and reader can always go on |
| `Delivery.NothingRuledOut` | src/capture.cpp:361-480 | the reader is never stuck, and frames, flags, close and time can come at any point |
| `CaptureLoop.CaptureThread.ResolveTarget` | src/capture.cpp:193-201 | publishes the target it found, or nothing |
| `CaptureLoop.CaptureThread.OpenStream` | src/capture.cpp:203-217 | a stream opened sets the monitor and the next poll; a failed one leads to a flag |
| `CaptureLoop.CaptureThread.Acquire` | src/capture.cpp:189-223 | ends with a stream to read from, back at the top, or leaving, with every field where the machine has it: published target, monitor, next poll, and flags raised on a failed open or a reopen |
| `CaptureLoop.CaptureThread.Transfer` | src/capture.cpp:225-255 | ends without a stream after a failed read, otherwise with the frame pushed and the poll done, with ring, flags and fields where the machine has them |
| `CaptureLoop.CaptureThread.FollowSink` | src/capture.cpp:247-253 | drops the stream if the answer names another monitor than the current one, and keeps it on the same or no answer |
| `CaptureLoop.CaptureThread.Poll` | src/capture.cpp:238-255 | ends at the top of the loop, with the stream dropped exactly if a poll in it named another monitor |
| `CaptureLoop.CaptureThread.Start` | src/capture.cpp:344-353 | publishes the target, clears the stop request, sets `running` and begins a thread without a stream |
| `CaptureLoop.CaptureThread.CaptureLoop` | src/capture.cpp:180-263 | at every moment the ring and the shared fields are those of the machine; the thread clears `running` last |
| `CaptureLoop.CaptureThread.Live` | src/capture.cpp:180-354 | executing any run of the program, through any number of starts and stops, ends in the machine's state |
| `Lifecycle.HandleIsSafe` | src/capture.cpp:495-554 | freed only with every thread finished and never once abandoned; no joinable thread overwritten; no exited thread abandoned; no join on a thread still in its loop |
| `Lifecycle.RunningIsExact` | src/capture.cpp:188-260 | `running` says exactly whether a capture thread is active, and two never are |
| `Lifecycle.StopSettles` | src/capture.cpp:509-539 | stop leaves nothing joinable and, unless it abandoned a thread, nothing running; a second stop changes nothing |
| `HandleControl.Handle.Start` | src/capture.cpp:325-359 | refused exactly when a capture thread is active; a failed start leaves thread and stop request alone |
| `HandleControl.Handle.Spawn` | src/capture.cpp:353-353 | the thread object it assigns was not joinable |
| `HandleControl.Handle.Stop` | src/capture.cpp:495-539 | leaves the queue closed and nothing to join, and nothing running unless a thread was abandoned |
| `HandleControl.Handle.Destroy` | src/capture.cpp:541-554 | frees the handle exactly when no thread was ever abandoned, and then every thread has finished |
| `HandleControl.Handle.Live` | src/capture.cpp:325-554 | executing any run of control calls and capture threads ends in the machine's state |
| `Waiting.NoStuckWaiter` | src/primitives.h:50-99 | a flag stored under the lock with everyone notified never leaves a waiter asleep with its condition true |
| `QueueWaiting.NoFrameUnattended` | src/frame_queue.h:82-141 | for any number of consumers and producers, while one sleeps the frames are no more than the consumers on their way and the notices to come, and a close has its notice still to come |
| `QueueWaiting.CountIsQueueLength` | src/frame_queue.h:82-141 | over any such run the count is the length of the queue pushed, popped and closed in the same order |
| `Waiting.ExitNotifyLost` | src/capture.cpp:257-260 | a store without the lock can leave a waiter asleep with its condition true |
| `Waiting.StuckStep` | src/capture.cpp:519-521 | a waiter gets stuck exactly when it blocks on a test out of date, with its condition true and every notification given |
| `Waiting.StuckOnlySo` | src/capture.cpp:257-260 | in any run a stuck waiter got stuck at such a step |
| `Waiting.LastTestSees` | src/capture.cpp:519-532 | even so, a wait whose last test comes after the store does not end empty-handed |
| `Waiting.TimeoutReleases` | src/capture.cpp:519-521 | in every run a blocked waiter with a timeout can get away, with the truth of its condition, once whoever holds the lock lets go |
| `Alarms.Alarm.Ring` | src/primitives.h:50-57 | delivers a value, replacing one that is pending |
| `Alarms.Alarm.TryRing` | src/primitives.h:68-79 | delivers a value if and only if none is pending |
| `Alarms.Alarm.Wait` | src/primitives.h:88-99 | takes the pending value and clears the alarm, or leaves the variable alone |
| `Alarms.Alarm.Reset` | src/primitives.h:107-110 | discards a pending value |
| `Alarms.NeverTwice` | src/primitives.h:50-110 | over any history no rung value is consumed twice, and values are consumed in the order rung |
| `Alarms.NothingLost` | src/primitives.h:60-99 | with `try_ring` and `wait` alone, every value accepted has been consumed or is pending |
| `Queries.Control.Callback` | src/pulse_control.cpp:50-91 | the first callback with something to say rings with the name or the fault it carries; end of list does not |
| `Queries.Control.Query` | src/pulse_control.cpp:230-278 | succeeds with a name if and only if the first callback in time that is not end of list carries it, and fails with a fault if and only if that callback reports it, none came, or the request was not issued; writes its output only on success |
| `Queries.OutcomeExactly` | src/pulse_control.cpp:50-91 | what the asking thread learns is what the callbacks say, for every sequence of them |
| `Queries.Control.ResolveTarget` | src/pulse_control.cpp:280-305 | succeeds if and only if connected, the sink asked for or a named default was found, and the lookup of that sink gave a monitor, and returns those two names; otherwise leaves the target alone and records the first fault |
| `Queries.QueryIsFirstAnswer` | src/pulse_control.cpp:66-91 | waiting longer cannot change an answer |
| `Wav.RecordingRoundTrip` | examples/webacap-dump.c:122-190 | the finished file reads back as the same format and exactly the frames written, if and only if it fits the 32-bit sizes |
| `Wav.DescriptionRoundTrip` | examples/webacap-dump.c:43-50 | rate, channels and sample format are recovered from the format code, the width and the block size |
| `Wav.ByteRateExact` | examples/webacap-dump.c:133-133 | the byte-rate field is right if and only if it fits 32 bits |
| `Wav.FieldRoundTrip` | examples/webacap-dump.c:24-34 | a little-endian field reads back as the value cut to its width |
| `WavFile.OuterBytes` | examples/webacap-dump.c:126-137 | where the tags, spelled out, the sizes and the samples lie |
| `WavFile.DescriptionBytes` | examples/webacap-dump.c:130-135 | the six fields that describe the samples, byte by byte: code 3 or 1, channels, rate, bytes a second, bytes a block, bits |
| `WavFile.File.PutU32` | examples/webacap-dump.c:24-29 | writes the four low bytes at the file position, over what is there or beyond |
| `WavFile.File.PutU16` | examples/webacap-dump.c:31-34 | the same for two bytes |
| `WavFile.File.WriteHeader` | examples/webacap-dump.c:122-138 | the header with placeholder sizes |
| `WavFile.File.WriteFrames` | examples/webacap-dump.c:148-182 | the frames one after the other |
| `WavFile.File.Patch` | examples/webacap-dump.c:184-189 | fills in both sizes, computed in 32 bits |
| `WavFile.File.Record` | examples/webacap-dump.c:122-190 | the whole recording is the file the round trip is about |
| `WavFile.PatchesTouchSizesOnly` | examples/webacap-dump.c:186-189 | the two patches change the two size fields and nothing else |

## Left out

- libpulse, its main-loop thread, stream creation and channel maps: their answers are free choices of the events.
- `control_t::init` and connection-state callbacks beyond a yes or no, and reuse of a connection across restarts.
- Callbacks that fire after a query has timed out, and the lifetime of the alarm they would ring.
- The binary digits of the double inside `%.3f`: only that it is the nearest one is used (`DurationText.DoubleRoundsBack`).
- Logging, error strings, `weba_strerror`, version strings, configuration defaults and argument checks other than those of `read_frame`: one branch each.
- The reporting loop and flag names of the example program.
- `scope_guard_t` and the `pa_simple` deleter.
