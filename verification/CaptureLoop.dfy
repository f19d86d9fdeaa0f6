/** The capture thread as the program runs it: a loop over its own variables, the shared
    fields of the handle and the byte ring.

    `world` is one run of the whole program: the answers the capture thread gets from the
    audio server and the clock, and between them whatever the reader and the control
    calls do. The code reads its answers from there and does the rest itself; it is proved
    to be, at every moment, in the state that the machine of module CaptureSystem is in at
    that point of the run. Nothing is asked of the run but that it is possible, so the
    theorems about every run are about this code.
 */
module CaptureLoop {
  import opened Bytes
  import opened Options
  import opened FrameLog
  import opened FrameRing
  import opened Delivery
  import opened CaptureSystem
  import opened Targets

  /** Steps of the reader and of a stop in progress. */
  predicate OfOthers(e: SysEvent) {
    e.RequestStop? || e.CloseQueue? || e.Reader?
  }

  /** The event that the thread is waiting for. */
  predicate Awaits(pc: LoopPc, e: SysEvent) {
    match pc
    case Off => e.Start?
    case Top => e.Check?
    case Resolving => e.Resolved?
    case Opening(_) => e.Opened?
    case Raising(_) => e.RaiseFlags?
    case Backoff => e.BackoffEnds?
    case Reading => e.Read?
    case Pushing(_) => e.PushFrame?
    case Polling => e.PollClock?
    case Rearming => e.Rearm?
    case PollResolving => e.PollResolved?
    case Leaving => e.Leave?
  }

  /** A step that is not another thread's is the one the thread is waiting for. */
  lemma {:induction false} OwnStep(s: Sys, e: SysEvent)
    requires Possible(s, e) && !OfOthers(e)
    ensures Awaits(s.loop.pc, e)
  {
  }

  // ---------------------------------------------------------------------------------
  // Moving along a run
  // ---------------------------------------------------------------------------------

  /** `s` is where the run `world` of `s0` is after its first `at` events. */
  ghost predicate Reached(s0: Sys, world: seq<SysEvent>, at: nat, s: Sys) {
    && at <= |world|
    && s0.chan.queue.Valid() && LegalSys(s0, world[..at]) && s == RunSys(s0, world[..at])
    && LegalSys(s, world[at..])
  }

  lemma {:induction false} ReachedNext(s0: Sys, world: seq<SysEvent>, at: nat, s: Sys)
    requires Reached(s0, world, at, s) && at < |world|
    ensures Possible(s, world[at]) && SysStep(s, world[at]).chan.queue.Valid()
    ensures Reached(s0, world, at + 1, SysStep(s, world[at]))
  {
    var e := world[at];
    assert world[at..][0] == e && world[at..][1..] == world[at + 1..];
    RunOne(s, e);
    RunJoin(s0, world[..at], [e]);
    assert world[..at + 1] == world[..at] + [e];
    SysKeepsQueueValid(s, e);
  }

  lemma {:induction false} ReachedStart(s0: Sys, world: seq<SysEvent>)
    requires s0.chan.queue.Valid() && LegalSys(s0, world)
    ensures Reached(s0, world, 0, s0)
  {
    assert world[..0] == [] && world[0..] == world;
  }

  /** No poll is answered between two points of the run. */
  ghost predicate NoPoll(world: seq<SysEvent>, from: nat, to: nat) {
    forall k | from <= k < to && k < |world| :: !world[k].PollResolved?
  }

  /** Between two points of the run a poll named another monitor. */
  ghost predicate NamedAnother(world: seq<SysEvent>, from: nat, to: nat, monitor: string) {
    exists k :: from <= k < to && k < |world| && world[k].PollResolved? && world[k].result.Some?
                && world[k].result.value.monitor != monitor
  }

  lemma {:induction false} NamedLater(world: seq<SysEvent>, from: nat, mid: nat, to: nat, monitor: string)
    requires from <= mid <= to && NoPoll(world, from, mid)
    ensures NamedAnother(world, from, to, monitor) <==> NamedAnother(world, mid, to, monitor)
  {
    if NamedAnother(world, mid, to, monitor) {
      var k :| mid <= k < to && k < |world| && world[k].PollResolved? && world[k].result.Some?
               && world[k].result.value.monitor != monitor;
      assert from <= k < to;
    }
  }

  lemma {:induction false} NamedHere(world: seq<SysEvent>, k: nat, monitor: string)
    requires k < |world| && world[k].PollResolved?
    ensures NamedAnother(world, k, k + 1, monitor) <==>
            world[k].result.Some? && world[k].result.value.monitor != monitor
  {
  }

  /** What a step leaves in the fields that the threads share. */
  function QueueAfter(s: Sys, e: SysEvent): Queue<Frame>
    requires s.chan.queue.Valid() && Possible(s, e)
  {
    match e
    case PushFrame => s.chan.queue.Push(s.loop.pc.frame)
    case CloseQueue => s.chan.queue.Close()
    case Reader(Pop) => s.chan.queue.Pop()
    case _ => s.chan.queue
  }

  function PendingAfter(s: Sys, e: SysEvent): set<Flag> {
    match e
    case RaiseFlags => s.chan.pending + ANNOUNCEMENT
    case Reader(Exchange) => {}
    case _ => s.chan.pending
  }

  function ClockAfter(s: Sys, e: SysEvent): int {
    match e
    case Opened(ok, t) => if ok then t else s.chan.clock
    case PollClock(t) => t
    case Rearm(t) => t
    case Reader(event) => if event.Pop? || event.Exchange? || !event.OfReader() then s.chan.clock else event.t
    case _ => s.chan.clock
  }

  lemma {:induction false} SharedAfter(s: Sys, e: SysEvent)
    requires s.chan.queue.Valid() && Possible(s, e)
    ensures var c := SysStep(s, e).chan;
            && c.cfg == s.chan.cfg
            && c.queue == QueueAfter(s, e) && c.pending == PendingAfter(s, e) && c.clock == ClockAfter(s, e)
  {
    if e.Reader? {
      SharedAfterReader(s, e.event);
    }
  }

  lemma {:induction false} SharedAfterReader(s: Sys, e: Event)
    requires s.chan.queue.Valid() && Possible(s, Reader(e))
    ensures var c := Delivery.Step(s.chan, e);
            && c.cfg == s.chan.cfg
            && c.queue == QueueAfter(s, Reader(e)) && c.pending == PendingAfter(s, Reader(e))
            && c.clock == ClockAfter(s, Reader(e))
  {
    ReaderKeepsLog(s.chan, e);
  }

  /** The next event of the run, and what it does. */
  lemma {:induction false} Moves(s0: Sys, world: seq<SysEvent>, at: nat, s: Sys) returns (s': Sys)
    requires Reached(s0, world, at, s) && at < |world|
    ensures Possible(s, world[at]) && s.chan.queue.Valid()
    ensures Reached(s0, world, at + 1, s')
    ensures s'.setup == s.setup && s'.chan.cfg == s.chan.cfg
    ensures s'.loop == LoopStep(s, world[at]) && s'.published == PublishedAfter(s, world[at])
    ensures s'.stopRequested == (!world[at].Start? && (s.stopRequested || world[at].RequestStop?))
    ensures s'.running == (world[at].Start? || (s.running && !world[at].Leave?))
    ensures s'.chan.queue == QueueAfter(s, world[at])
    ensures s'.chan.pending == PendingAfter(s, world[at])
    ensures s'.chan.clock == ClockAfter(s, world[at])
  {
    ReachedNext(s0, world, at, s);
    SharedAfter(s, world[at]);
    s' := SysStep(s, world[at]);
  }

  // ---------------------------------------------------------------------------------
  // The thread
  // ---------------------------------------------------------------------------------

  /** How part of a turn ended: with a stream to read from, with another turn to come, with
      the end of the loop, or with the end of the run while the thread was waiting. */
  datatype Turned = Goes | Again | Break | RunEnds

  /** The stream the thread holds, its only other variable being `hadStream`. */
  type Stream = Option<string>

  class CaptureThread {
    const setup: Setup
    const frameBytes: nat
    const queue: FrameQueue
    var pending: set<Flag>
    var clock: int
    var stopRequested: bool
    var running: bool
    var published: string
    var currentMonitor: string
    var nextSinkCheck: int

    const world: seq<SysEvent>
    var at: nat
    ghost const begun: Sys
    ghost var sys: Sys

    /** The shared fields say what the machine says. */
    ghost predicate Valid()
      reads this, queue, queue.storage
    {
      && queue.Valid() && queue.slotBytes == frameBytes == sys.chan.cfg.frameBytes && queue.capacity > 0
      && sys.setup == setup
      && sys.chan.queue == queue.model
      && sys.chan.pending == pending
      && sys.chan.clock == clock
      && sys.stopRequested == stopRequested
      && sys.running == running
      && sys.published == published
      && sys.loop.currentMonitor == currentMonitor
      && sys.loop.nextCheck == nextSinkCheck
      && Reached(begun, world, at, sys)
    }

    /** The thread is at `pc`, and its own variables say what the machine says. */
    ghost predicate Here(pc: LoopPc, mic: Stream, hadStream: bool)
      reads this
    {
      sys.loop.pc == pc && sys.loop.mic == mic && sys.loop.hadStream == hadStream
    }

    /** The next event is the thread's own. */
    ghost predicate MyTurn()
      reads this
    {
      at < |world| && Awaits(sys.loop.pc, world[at])
    }

    /** A created handle at the beginning of a run. */
    constructor (begun: Sys, queue: FrameQueue, world: seq<SysEvent>)
      requires Created(begun) && LegalSys(begun, world)
      requires queue.Valid() && queue.capacity > 0 && queue.model == begun.chan.queue
      requires queue.slotBytes == begun.chan.cfg.frameBytes
      ensures Valid() && at == 0 && sys == begun
      ensures this.begun == begun && this.world == world && this.queue == queue
    {
      ReachedStart(begun, world);
      this.begun, this.sys, this.queue, this.world, this.at := begun, begun, queue, world, 0;
      setup, frameBytes := begun.setup, queue.slotBytes;
      pending, clock := {}, begun.chan.clock;
      stopRequested, running := false, false;
      published, currentMonitor, nextSinkCheck := begun.published, begun.loop.currentMonitor, begun.loop.nextCheck;
    }

    /** The other threads go on until it is this thread's turn, or to the end of the run. */
    method Others() returns (mine: bool)
      requires Valid()
      modifies this`pending, this`clock, this`stopRequested, this`at, this`sys, queue
      ensures Valid() && sys.loop == old(sys).loop && queue.storage == old(queue.storage)
      ensures at >= old(at) && currentMonitor == old(currentMonitor)
      ensures NoPoll(world, old(at), at)
      ensures mine ==> MyTurn()
      ensures !mine ==> at == |world|
    {
      while at < |world| && OfOthers(world[at])
        invariant Valid() && sys.loop == old(sys).loop && queue.storage == old(queue.storage)
        invariant at >= old(at) && NoPoll(world, old(at), at)
        decreases |world| - at
      {
        if world[at].Reader? {
          Consumer();
        } else {
          Stopper();
        }
      }
      mine := at < |world|;
      if mine {
        ReachedNext(begun, world, at, sys);
        OwnStep(sys, world[at]);
      }
    }

    /** A step of a stop in progress. */
    method Stopper()
      requires Valid() && at < |world| && (world[at].RequestStop? || world[at].CloseQueue?)
      modifies this`stopRequested, this`at, this`sys, queue
      ensures Valid() && sys.loop == old(sys).loop && queue.storage == old(queue.storage)
      ensures at == old(at) + 1
    {
      ghost var next := Moves(begun, world, at, sys);
      if world[at].RequestStop? {
        stopRequested := true;
      } else {
        queue.Close();
      }
      sys, at := next, at + 1;
    }

    /** A step of the reader. */
    method Consumer()
      requires Valid() && at < |world| && world[at].Reader?
      modifies this`pending, this`clock, this`at, this`sys, queue
      ensures Valid() && sys.loop == old(sys).loop && queue.storage == old(queue.storage)
      ensures at == old(at) + 1
    {
      ghost var next := Moves(begun, world, at, sys);
      ReaderActs(world[at].event);
      sys, at := next, at + 1;
    }

    /** What a step of the reader does to the fields it shares with the thread. */
    method ReaderActs(event: Event)
      requires queue.Valid() && queue.capacity > 0 && event.OfReader()
      modifies this`pending, this`clock, queue
      ensures queue.Valid() && queue.storage == old(queue.storage) && queue.slotBytes == old(queue.slotBytes)
      ensures queue.model == if event.Pop? then old(queue.model).Pop() else old(queue.model)
      ensures pending == if event.Exchange? then {} else old(pending)
      ensures clock == if event.Pop? || event.Exchange? then old(clock) else event.t
    {
      if event.Pop? {
        var out := new byte[queue.slotBytes](_ => 0);
        var _, _ := queue.Pop(out);
      } else if event.Exchange? {
        pending := {};
      } else {
        clock := event.t;
      }
    }

    // -------------------------------------------------------------------------------
    // The thread's own actions
    // -------------------------------------------------------------------------------

    /** The test of the loop. */
    method TestStop(ghost mic: Stream, ghost hadStream: bool) returns (stop: bool)
      requires Valid() && MyTurn() && Here(Top, mic, hadStream)
      modifies this`at, this`sys
      ensures Valid() && at == old(at) + 1 && stop == stopRequested
      ensures Here(if stop then Leaving else if mic.None? then Resolving else Reading, mic, hadStream)
    {
      ghost var next := Moves(begun, world, at, sys);
      stop := stopRequested;
      sys, at := next, at + 1;
    }

    /** Ask for the sink to record, and publish the answer. */
    method ResolveTarget(ghost hadStream: bool) returns (target: Option<Target>)
      requires Valid() && MyTurn() && Here(Resolving, None, hadStream)
      modifies this`published, this`at, this`sys
      ensures Valid() && at == old(at) + 1
      ensures target.Some? ==> published == Truncated(target.value.monitor)
      ensures target.None? ==> published == old(published)
      ensures Here(if target.Some? then Opening(target.value) else Backoff, None, hadStream)
    {
      ghost var next := Moves(begun, world, at, sys);
      target := world[at].result;
      published := if target.Some? then Truncated(target.value.monitor) else published;
      sys, at := next, at + 1;
    }

    /** Open the stream; on success remember its monitor and when to look for another. */
    method OpenStream(target: Target, ghost hadStream: bool) returns (mic: Stream)
      requires Valid() && MyTurn() && Here(Opening(target), None, hadStream)
      modifies this`clock, this`currentMonitor, this`nextSinkCheck, this`at, this`sys
      ensures Valid() && at == old(at) + 1
      ensures mic == None || mic == Some(target.monitor)
      ensures mic.None? ==> Here(Raising(OpenFailed), None, hadStream)
      ensures mic.Some? ==>
                && Here(if hadStream then Raising(Reopened) else Reading, mic, true)
                && currentMonitor == target.monitor
                && nextSinkCheck == clock + setup.recheck
    {
      if world[at].ok {
        Opened(target, hadStream);
        mic := Some(target.monitor);
      } else {
        NotOpened(target, hadStream);
        mic := None;
      }
    }

    method Opened(target: Target, ghost hadStream: bool)
      requires Valid() && MyTurn() && Here(Opening(target), None, hadStream) && world[at].ok
      modifies this`clock, this`currentMonitor, this`nextSinkCheck, this`at, this`sys
      ensures Valid() && at == old(at) + 1
      ensures Here(if hadStream then Raising(Reopened) else Reading, Some(target.monitor), true)
      ensures currentMonitor == target.monitor && nextSinkCheck == clock + setup.recheck
    {
      ghost var next := Moves(begun, world, at, sys);
      currentMonitor := target.monitor;
      clock := world[at].t;
      nextSinkCheck := clock + setup.recheck;
      sys, at := next, at + 1;
    }

    method NotOpened(ghost target: Target, ghost hadStream: bool)
      requires Valid() && MyTurn() && Here(Opening(target), None, hadStream) && !world[at].ok
      modifies this`at, this`sys
      ensures Valid() && at == old(at) + 1 && Here(Raising(OpenFailed), None, hadStream)
    {
      ghost var next := Moves(begun, world, at, sys);
      sys, at := next, at + 1;
    }

    /** `fetch_or` on the pending flags. */
    method Announce(ghost cause: Cause, ghost mic: Stream, ghost hadStream: bool)
      requires Valid() && MyTurn() && Here(Raising(cause), mic, hadStream)
      modifies this`pending, this`at, this`sys
      ensures Valid() && at == old(at) + 1 && pending == old(pending) + ANNOUNCEMENT
      ensures Here(if cause.Reopened? then Reading else Backoff, mic, hadStream)
    {
      ghost var next := Moves(begun, world, at, sys);
      pending := pending + ANNOUNCEMENT;
      sys, at := next, at + 1;
    }

    /** `wait_for_stop`. */
    method WaitForStop(ghost mic: Stream, ghost hadStream: bool) returns (stop: bool)
      requires Valid() && MyTurn() && Here(Backoff, mic, hadStream)
      modifies this`at, this`sys
      ensures Valid() && at == old(at) + 1 && stop == stopRequested
      ensures Here(if stop then Leaving else Top, mic, hadStream)
    {
      ghost var next := Moves(begun, world, at, sys);
      stop := stopRequested;
      sys, at := next, at + 1;
    }

    /** What `pa_simple_read` leaves in the buffer. */
    method Fill(buffer: array<byte>, data: Frame)
      requires buffer.Length == |data|
      modifies buffer
      ensures buffer[..] == data
    {
      for i := 0 to buffer.Length
        invariant buffer[..i] == data[..i]
      {
        buffer[i] := data[i];
      }
    }

    /** A blocking read of one frame; on failure the stream is dropped. */
    method ReadStream(buffer: array<byte>, mic: Stream, ghost hadStream: bool) returns (mic': Stream)
      requires Valid() && MyTurn() && Here(Reading, mic, hadStream) && mic.Some?
      requires buffer.Length == frameBytes && buffer != queue.storage
      modifies this`at, this`sys, buffer
      ensures Valid() && at == old(at) + 1
      ensures mic' == None || mic' == mic
      ensures mic'.None? ==> Here(Raising(ReadFailed), None, hadStream)
      ensures mic'.Some? ==> Here(Pushing(buffer[..]), mic, hadStream)
    {
      ghost var next := Moves(begun, world, at, sys);
      var data := world[at].data;
      mic' := None;
      if data.Some? {
        mic' := mic;
        Fill(buffer, data.value);
      }
      sys, at := next, at + 1;
    }

    /** Hand the frame to the ring. */
    method PushBuffer(buffer: array<byte>, ghost mic: Stream, ghost hadStream: bool)
      requires Valid() && MyTurn() && Here(Pushing(buffer[..]), mic, hadStream)
      requires buffer.Length == frameBytes && buffer != queue.storage
      modifies this`at, this`sys, queue, queue.storage
      ensures Valid() && at == old(at) + 1 && queue.storage == old(queue.storage) && Here(Polling, mic, hadStream)
      ensures queue.model == old(queue.model).Push(buffer[..])
    {
      ghost var next := Moves(begun, world, at, sys);
      var _ := queue.Push(buffer);
      sys, at := next, at + 1;
    }

    /** Look at the clock. */
    method PollIsDue(ghost mic: Stream, ghost hadStream: bool) returns (due: bool)
      requires Valid() && MyTurn() && Here(Polling, mic, hadStream)
      modifies this`clock, this`at, this`sys
      ensures Valid() && at == old(at) + 1
      ensures due == (!setup.pinned && setup.recheck > 0 && clock >= nextSinkCheck)
      ensures Here(if due then Rearming else Top, mic, hadStream)
    {
      ghost var next := Moves(begun, world, at, sys);
      clock := world[at].t;
      due := !setup.pinned && setup.recheck > 0 && clock >= nextSinkCheck;
      sys, at := next, at + 1;
    }

    /** Look again, and set the time of the next poll. */
    method SetNextPoll(ghost mic: Stream, ghost hadStream: bool)
      requires Valid() && MyTurn() && Here(Rearming, mic, hadStream)
      modifies this`clock, this`nextSinkCheck, this`at, this`sys
      ensures Valid() && at == old(at) + 1 && nextSinkCheck == clock + setup.recheck
      ensures Here(PollResolving, mic, hadStream)
    {
      ghost var next := Moves(begun, world, at, sys);
      clock := world[at].t;
      nextSinkCheck := clock + setup.recheck;
      sys, at := next, at + 1;
    }

    /** Ask which sink is the default now; drop the stream if it is another one. */
    method FollowSink(mic: Stream, ghost hadStream: bool) returns (mic': Stream)
      requires Valid() && MyTurn() && Here(PollResolving, mic, hadStream)
      modifies this`at, this`sys
      ensures Valid() && at == old(at) + 1 && Here(Top, mic', hadStream)
      ensures var answer := world[old(at)].result;
              && (answer.None? || answer.value.monitor == currentMonitor ==> mic' == mic)
              && (answer.Some? && answer.value.monitor != currentMonitor ==> mic' == None)
    {
      ghost var next := Moves(begun, world, at, sys);
      var target := world[at].result;
      mic' := mic;
      if target.Some? && target.value.monitor != currentMonitor {
        mic' := None;
      }
      sys, at := next, at + 1;
    }

    /** Out of the loop. */
    method Leave(ghost mic: Stream, ghost hadStream: bool)
      requires Valid() && MyTurn() && Here(Leaving, mic, hadStream)
      modifies this`running, this`at, this`sys
      ensures Valid() && at == old(at) + 1 && !running && Here(Off, None, hadStream)
    {
      ghost var next := Moves(begun, world, at, sys);
      running := false;
      sys, at := next, at + 1;
    }

    // -------------------------------------------------------------------------------
    // The loop
    // -------------------------------------------------------------------------------

    /** Where the thread is after part of a turn. */
    ghost predicate After(turned: Turned, mic: Stream, hadStream: bool)
      reads this
    {
      match turned
      case Goes => Here(Reading, mic, hadStream) && mic.Some?
      case Again => Here(Top, mic, hadStream)
      case Break => Here(Leaving, mic, hadStream)
      case RunEnds => at == |world|
    }

    /** Pause before another attempt, unless a stop is requested. */
    method Pause(mic: Stream, hadStream: bool) returns (turned: Turned)
      requires Valid() && Here(Backoff, mic, hadStream)
      modifies this, queue
      ensures Valid() && queue.storage == old(queue.storage) && at >= old(at)
      ensures !turned.Goes? && After(turned, mic, hadStream)
    {
      var mine := Others();
      if !mine {
        return RunEnds;
      }
      var stop := WaitForStop(mic, hadStream);
      turned := if stop then Break else Again;
    }

    /** A failure: flag it, then pause. */
    method Fail(ghost cause: Cause, hadStream: bool) returns (turned: Turned)
      requires Valid() && Here(Raising(cause), None, hadStream) && !cause.Reopened?
      modifies this, queue
      ensures Valid() && queue.storage == old(queue.storage) && at >= old(at)
      ensures !turned.Goes? && After(turned, None, hadStream)
    {
      var mine := Others();
      if !mine {
        return RunEnds;
      }
      Announce(cause, None, hadStream);
      turned := Pause(None, hadStream);
    }

    /** Without a stream: resolve, publish, open, and flag a reopen. */
    method Acquire(hadStream: bool) returns (turned: Turned, mic: Stream, hadStream': bool)
      requires Valid() && Here(Resolving, None, hadStream)
      modifies this, queue
      ensures Valid() && queue.storage == old(queue.storage) && at >= old(at)
      ensures After(turned, mic, hadStream')
    {
      mic, hadStream' := None, hadStream;
      var mine := Others();
      if !mine {
        return RunEnds, mic, hadStream';
      }
      var target := ResolveTarget(hadStream);
      if target.None? {
        turned := Pause(None, hadStream);
        return;
      }
      mine := Others();
      if !mine {
        return RunEnds, mic, hadStream';
      }
      mic := OpenStream(target.value, hadStream);
      if mic.None? {
        turned := Fail(OpenFailed, hadStream);
        return;
      }
      hadStream' := true;
      if hadStream {
        mine := Others();
        if !mine {
          return RunEnds, mic, hadStream';
        }
        Announce(Reopened, mic, true);
      }
      turned := Goes;
    }

    /** After a frame: if it is time, see whether the default sink has moved. The stream is
        dropped exactly if the poll named another monitor. */
    method Poll(mic: Stream, hadStream: bool) returns (turned: Turned, mic': Stream)
      requires Valid() && Here(Polling, mic, hadStream)
      modifies this, queue
      ensures Valid() && queue.storage == old(queue.storage) && at >= old(at) && currentMonitor == old(currentMonitor)
      ensures !turned.Goes? && After(turned, mic', hadStream)
      ensures turned.Again? ==> mic' == if NamedAnother(world, old(at), at, currentMonitor) then None else mic
    {
      mic' := mic;
      var mine := Others();
      if !mine {
        return RunEnds, mic';
      }
      var due := PollIsDue(mic, hadStream);
      ghost var mid := at;
      assert NoPoll(world, old(at), mid);
      if due {
        turned, mic' := Repoll(mic, hadStream);
      } else {
        turned := Again;
      }
      NamedLater(world, old(at), mid, at, currentMonitor);
    }

    /** The poll is due: set the time of the next one, and ask. */
    method Repoll(mic: Stream, hadStream: bool) returns (turned: Turned, mic': Stream)
      requires Valid() && Here(Rearming, mic, hadStream)
      modifies this, queue
      ensures Valid() && queue.storage == old(queue.storage) && at >= old(at) && currentMonitor == old(currentMonitor)
      ensures !turned.Goes? && After(turned, mic', hadStream)
      ensures turned.Again? ==> mic' == if NamedAnother(world, old(at), at, currentMonitor) then None else mic
    {
      mic' := mic;
      var mine := Others();
      if !mine {
        return RunEnds, mic';
      }
      SetNextPoll(mic, hadStream);
      ghost var mid := at;
      assert NoPoll(world, old(at), mid);
      turned, mic' := Requery(mic, hadStream);
      NamedLater(world, old(at), mid, at, currentMonitor);
    }

    method Requery(mic: Stream, hadStream: bool) returns (turned: Turned, mic': Stream)
      requires Valid() && Here(PollResolving, mic, hadStream)
      modifies this, queue
      ensures Valid() && queue.storage == old(queue.storage) && at >= old(at) && currentMonitor == old(currentMonitor)
      ensures !turned.Goes? && After(turned, mic', hadStream)
      ensures turned.Again? ==> mic' == if NamedAnother(world, old(at), at, currentMonitor) then None else mic
    {
      mic' := mic;
      var mine := Others();
      if !mine {
        return RunEnds, mic';
      }
      ghost var asked := at;
      mic' := FollowSink(mic, hadStream);
      turned := Again;
      NamedLater(world, old(at), asked, at, currentMonitor);
      NamedHere(world, asked, currentMonitor);
    }

    /** With a stream: read a frame, push it, and follow the sink. */
    method Transfer(buffer: array<byte>, mic: Stream, hadStream: bool) returns (turned: Turned, mic': Stream)
      requires Valid() && Here(Reading, mic, hadStream) && mic.Some?
      requires buffer.Length == frameBytes && buffer != queue.storage
      modifies this, queue, queue.storage, buffer
      ensures Valid() && queue.storage == old(queue.storage) && at >= old(at)
      ensures !turned.Goes? && After(turned, mic', hadStream)
    {
      mic' := mic;
      var mine := Others();
      if !mine {
        return RunEnds, mic';
      }
      mic' := ReadStream(buffer, mic, hadStream);
      if mic'.None? {
        turned := Fail(ReadFailed, hadStream);
        return;
      }
      mine := Others();
      if !mine {
        return RunEnds, mic';
      }
      PushBuffer(buffer, mic', hadStream);
      turned, mic' := Poll(mic', hadStream);
    }

    /** One turn of the loop. */
    method Turn(buffer: array<byte>, mic: Stream, hadStream: bool)
      returns (turned: Turned, mic': Stream, hadStream': bool)
      requires Valid() && Here(Top, mic, hadStream)
      requires buffer.Length == frameBytes && buffer != queue.storage
      modifies this, queue, queue.storage, buffer
      ensures Valid() && queue.storage == old(queue.storage)
      ensures !turned.Goes? && After(turned, mic', hadStream')
      ensures turned.RunEnds? || at > old(at)
    {
      mic', hadStream' := mic, hadStream;
      var mine := Others();
      if !mine {
        return RunEnds, mic', hadStream';
      }
      var stop := TestStop(mic, hadStream);
      if stop {
        return Break, mic', hadStream';
      }
      if mic.None? {
        turned, mic', hadStream' := Acquire(hadStream);
        if !turned.Goes? {
          return;
        }
      }
      turned, mic' := Transfer(buffer, mic', hadStream');
    }

    /** The whole thread: `while (!stop_requested)` and the exit. */
    method CaptureLoop() returns (left: bool)
      requires Valid() && Here(Top, None, false)
      modifies this, queue, queue.storage
      ensures Valid() && queue.storage == old(queue.storage)
      ensures left ==> at > old(at) && sys.loop.pc.Off? && !running
      ensures !left ==> at == |world|
    {
      var buffer := new byte[frameBytes](_ => 0);
      var mic: Stream, hadStream := None, false;
      var turned := Again;
      while turned.Again?
        invariant Valid() && queue.storage == old(queue.storage)
        invariant buffer.Length == frameBytes && fresh(buffer)
        invariant !turned.Goes? && After(turned, mic, hadStream) && at >= old(at)
        decreases |world| - at, turned.Again?
      {
        turned, mic, hadStream := Turn(buffer, mic, hadStream);
      }
      if turned.RunEnds? {
        return false;
      }
      left := Exit(mic, hadStream);
    }

    /** After the loop. */
    method Exit(mic: Stream, hadStream: bool) returns (left: bool)
      requires Valid() && Here(Leaving, mic, hadStream)
      modifies this, queue
      ensures Valid() && queue.storage == old(queue.storage) && at >= old(at)
      ensures left ==> at > old(at) && sys.loop.pc.Off? && !running
      ensures !left ==> at == |world|
    {
      left := Others();
      if left {
        Leave(mic, hadStream);
      }
    }

    /** `start`: publish, clear the stop request, set `running`; the thread begins. */
    method Start()
      requires Valid() && MyTurn() && sys.loop.pc.Off?
      modifies this`published, this`stopRequested, this`running, this`at, this`sys
      ensures Valid() && at == old(at) + 1 && Here(Top, None, false)
      ensures !old(running) && running && !stopRequested
      ensures published == Truncated(world[old(at)].target.monitor)
    {
      ghost var next := Moves(begun, world, at, sys);
      published := Truncated(world[at].target.monitor);
      stopRequested := false;
      running := true;
      sys, at := next, at + 1;
    }

    /** The program from the created handle to the end of the run, through any number of
        starts and stops: the shared fields end up as the machine says. */
    method Live()
      requires Valid() && sys.loop.pc.Off? && at == 0
      modifies this, queue, queue.storage
      ensures Valid() && at == |world|
      ensures begun.chan.queue.Valid() && LegalSys(begun, world) && sys == RunSys(begun, world)
    {
      while true
        invariant Valid() && queue.storage == old(queue.storage) && sys.loop.pc.Off?
        decreases |world| - at
      {
        var mine := Others();
        if !mine {
          break;
        }
        Start();
        var left := CaptureLoop();
        if !left {
          break;
        }
      }
      assert world[..at] == world;
    }
  }
}
