/** `read_frame` as the program runs it: on the byte ring, the pacing fields and the
    caller's buffer, in a loop.

    What the other threads and the clock do between two actions of the reader is given by
    `world`, one `Gap` before each action; the call is still waiting if the list ends
    first. Every execution is proved to be a run of the machine in module Delivery, so
    all that is proved there of every run holds of this code.
 */
module ReadFrame {
  import opened Bytes
  import opened FrameLog
  import opened FramePeriod
  import opened FrameRing
  import opened Pacing
  import opened Delivery

  datatype Act = ActPush(frame: Frame) | ActRaise | ActClose

  /** What happens between two actions of the reader. */
  datatype Gap = Gap(acts: seq<Act>, elapsed: nat)

  /** The return value: 1, 0, two of the error codes, or none yet. */
  datatype Status = One | Zero | ErrState | ErrInval | StillWaiting

  datatype FrameInfo = FrameInfo(timestamp: int, flags: set<Flag>, droppedFrames: nat)

  ghost predicate Sized(acts: seq<Act>, frameBytes: nat) {
    forall i | 0 <= i < |acts| && acts[i].ActPush? :: |acts[i].frame| == frameBytes
  }

  ghost predicate AllSized(world: seq<Gap>, frameBytes: nat) {
    forall i | 0 <= i < |world| :: Sized(world[i].acts, frameBytes)
  }

  function EventOf(act: Act): Event {
    match act
    case ActPush(frame) => Push(frame)
    case ActRaise => Raise
    case ActClose => Close
  }

  /** What the acts of the other threads, all of them and in order, make of a state. */
  ghost function Acted(s: State, acts: seq<Act>): (r: State)
    requires s.queue.Valid() && Sized(acts, s.cfg.frameBytes)
    ensures r.queue.Valid() && r.cfg == s.cfg
  {
    if acts == [] then s else Step(Acted(s, acts[..|acts| - 1]), EventOf(acts[|acts| - 1]))
  }

  /** `trace` leads from `s0` to `s`. */
  ghost predicate Leads(s0: State, trace: seq<Event>, s: State) {
    s0.queue.Valid() && Legal(s0, trace) && s == Run(s0, trace)
  }

  lemma {:induction false} LeadsOn(s0: State, trace: seq<Event>, s: State, e: Event)
    requires Leads(s0, trace, s) && Enabled(s, e)
    ensures Leads(s0, trace + [e], Step(s, e))
    decreases |trace|
  {
    if trace == [] {
      assert trace + [e] == [e];
      assert [e][1..] == [];
      StepKeepsQueueValid(s, e);
    } else {
      StepKeepsQueueValid(s0, trace[0]);
      assert (trace + [e])[0] == trace[0] && (trace + [e])[1..] == trace[1..] + [e];
      LeadsOn(Step(s0, trace[0]), trace[1..], s, e);
    }
  }

  /** The same call, however far it has come. */
  predicate SameCall(a: Call, b: Call) {
    a.begun == b.begun && a.timeout == b.timeout && a.info == b.info
  }

  /** A call as it is entered. */
  function NewCall(begun: int, timeout: nat, info: bool): Call {
    Call(begun, timeout, info, false, 0, 0, 0)
  }

  /** A negative timeout counts as none. */
  function TimeoutNanos(timeoutMs: int): nat {
    if timeoutMs < 0 then 0 else timeoutMs * MILLI
  }

  /** The call that a caller asks for: it begins at its first look at the clock. */
  function Asked(world: seq<Gap>, clock: int, timeoutMs: int, info: bool): Call
    requires world != []
  {
    NewCall(clock + world[0].elapsed, TimeoutNanos(timeoutMs), info)
  }

  class CaptureHandle {
    const frameSamples: nat
    const cfg: Config
    const queue: FrameQueue
    var pending: set<Flag>
    var nextDeadline: int
    var deadlineValid: bool
    var running: bool
    /** The clock all threads see. */
    var clock: int
    ghost var chan: State

    ghost predicate Valid()
      reads this, queue, queue.storage
    {
      && queue.Valid() && queue.slotBytes == cfg.frameBytes && queue.capacity > 0
      && chan.cfg == cfg
      && chan.queue == queue.model
      && chan.pending == pending
      && chan.pacer == Pacer(nextDeadline, deadlineValid)
      && chan.clock == clock
    }

    /** A created handle, around a queue that `Init` has just sized. */
    constructor (frameSamples: nat, sampleRate: nat, queue: FrameQueue, fixedRate: bool)
      requires sampleRate > 0
      requires queue.Valid() && queue.capacity > 0 && queue.model == Fresh(queue.capacity)
      ensures Valid() && Initial(chan) && !running
      ensures this.frameSamples == frameSamples && this.queue == queue
      ensures cfg == Config(PeriodMicros(frameSamples, sampleRate) * 1_000, queue.slotBytes, fixedRate)
    {
      var period := PeriodMicros(frameSamples, sampleRate) * MICRO;
      this.frameSamples := frameSamples;
      this.queue := queue;
      cfg := Config(period, queue.slotBytes, fixedRate);
      pending, nextDeadline, deadlineValid, running, clock := {}, 0, false, false, 0;
      chan := State(Config(period, queue.slotBytes, fixedRate), queue.model, {}, Pacer(0, false), 0, Idle, [], [], 0);
    }

    /** What `start` does to the reader's side: calls are no longer turned away. */
    method MarkRunning()
      requires Valid()
      modifies this`running
      ensures Valid() && running && chan == old(chan)
    {
      running := true;
    }

    /** The other threads act, then time passes. */
    method Interfere(gap: Gap, ghost s0: State, ghost before: seq<Event>) returns (ghost trace: seq<Event>)
      requires Valid() && Leads(s0, before, chan) && Sized(gap.acts, cfg.frameBytes)
      modifies this`pending, this`clock, this`chan, queue, queue.storage
      ensures Valid() && Leads(s0, trace, chan)
      ensures chan.pc == old(chan).pc && chan.out == old(chan).out && chan.ended == old(chan).ended
      ensures queue.storage == old(queue.storage)
      ensures clock == old(clock) + gap.elapsed
    {
      trace := ActAll(gap.acts, s0, before);
      LeadsOn(s0, trace, chan, Tick(clock + gap.elapsed));
      trace := trace + [Tick(clock + gap.elapsed)];
      clock := clock + gap.elapsed;
      chan := Step(chan, Tick(clock));
    }

    /** Everything that the other threads do, in order. */
    method ActAll(acts: seq<Act>, ghost s0: State, ghost before: seq<Event>) returns (ghost trace: seq<Event>)
      requires Valid() && Leads(s0, before, chan) && Sized(acts, cfg.frameBytes)
      modifies this`pending, this`chan, queue, queue.storage
      ensures Valid() && Leads(s0, trace, chan) && queue.storage == old(queue.storage)
      ensures chan.pc == old(chan).pc && chan.out == old(chan).out && chan.ended == old(chan).ended
      ensures chan == Acted(old(chan), acts)
    {
      trace := before;
      for i := 0 to |acts|
        invariant Valid() && Leads(s0, trace, chan) && queue.storage == old(queue.storage)
        invariant chan.pc == old(chan).pc && chan.out == old(chan).out && chan.ended == old(chan).ended
        invariant chan == Acted(old(chan), acts[..i])
      {
        assert acts[..i + 1][..i] == acts[..i];
        trace := PerformAct(acts[i], s0, trace);
      }
      assert acts[..|acts|] == acts;
    }

    method PerformAct(act: Act, ghost s0: State, ghost before: seq<Event>) returns (ghost trace: seq<Event>)
      requires Valid() && Leads(s0, before, chan)
      requires act.ActPush? ==> |act.frame| == cfg.frameBytes
      modifies this`pending, this`chan, queue, queue.storage
      ensures Valid() && Leads(s0, trace, chan)
      ensures chan.pc == old(chan).pc && chan.out == old(chan).out && chan.ended == old(chan).ended
      ensures queue.storage == old(queue.storage) && chan == Step(old(chan), EventOf(act))
    {
      match act
      case ActPush(frame) =>
        var buffer := new byte[|frame|](i requires 0 <= i < |frame| => frame[i]);
        assert buffer[..] == frame;
        var _ := queue.Push(buffer);
        LeadsOn(s0, before, chan, Push(frame));
        trace := before + [Push(frame)];
        chan := Step(chan, Push(frame));
      case ActRaise =>
        pending := pending + ANNOUNCEMENT;
        LeadsOn(s0, before, chan, Raise);
        trace := before + [Raise];
        chan := Step(chan, Raise);
      case ActClose =>
        queue.Close();
        LeadsOn(s0, before, chan, Close);
        trace := before + [Close];
        chan := Step(chan, Close);
    }

    /** Top of the loop at fixed rate: arm the pacer, then sleep, give up or find the
        frame due. */
    method LookFixed(callDeadline: int, ghost s0: State, ghost before: seq<Event>)
      returns (verdict: Verdict, ghost trace: seq<Event>)
      requires Valid() && Leads(s0, before, chan) && cfg.fixedRate
      requires chan.pc.Looking? && chan.pc.call.Deadline() == callDeadline
      modifies this`nextDeadline, this`deadlineValid, this`chan
      ensures Valid() && Leads(s0, trace, chan) && chan == LookStep(old(chan), clock)
      ensures verdict == Judge(chan.pacer, clock, callDeadline) && deadlineValid
      ensures verdict.Due? <==> clock >= nextDeadline
      ensures verdict.Sleep? ==>
                var until := clock + verdict.micros * 1_000;
                until <= Min(callDeadline, nextDeadline + 1_000_000) < until + 1_000
    {
      var now := clock;
      LeadsOn(s0, before, chan, Look(now));
      trace := before + [Look(now)];
      chan := Step(chan, Look(now));
      if !deadlineValid {
        nextDeadline := now + cfg.period;
        deadlineValid := true;
      }
      if now < nextDeadline {
        var wait := TruncMicros(nextDeadline - now) + 1000;
        var untilCallDeadline := TruncMicros(callDeadline - now);
        if untilCallDeadline < wait {
          wait := untilCallDeadline;
        }
        if wait <= 0 {
          verdict := GiveUp;
          return;
        }
        verdict := Sleep(wait);
        SleepBounded(chan.pacer, now, callDeadline);
        return;
      }
      verdict := Due;
    }

    /** Take a frame off the ring, or find none. */
    method Take(dst: array<byte>, ghost s0: State, ghost before: seq<Event>)
      returns (result: int, discarded: nat, ghost trace: seq<Event>)
      requires Valid() && Leads(s0, before, chan) && chan.pc.Popping?
      requires dst != queue.storage && dst.Length >= cfg.frameBytes
      modifies this`chan, queue, dst
      ensures Valid() && Leads(s0, trace, chan) && chan == PopStep(old(chan))
      ensures queue.storage == old(queue.storage)
      ensures discarded == old(chan).queue.PopResult().discarded
      ensures result == (match old(chan).queue.PopResult()
                         case Got(_, _, _) => 1
                         case Empty(_) => 0
                         case Refused(_) => -1)
      ensures result == 1 ==> |old(chan).queue.PopResult().frame| == cfg.frameBytes
                              && dst[..cfg.frameBytes] == old(chan).queue.PopResult().frame
    {
      ghost var was := dst[..];
      ghost var got := queue.model.PopResult();
      result, discarded := queue.Pop(dst);
      if result == 1 {
        OverwritePrefix(was, got.frame);
      }
      LeadsOn(s0, before, chan, Pop);
      trace := before + [Pop];
      chan := Step(chan, Pop);
    }

    /** Take the pending flags and build the flags of a due frame. */
    method TakeFlags(totalDiscarded: nat, silent: bool, ghost s0: State, ghost before: seq<Event>)
      returns (flags: set<Flag>, ghost trace: seq<Event>)
      requires Valid() && Leads(s0, before, chan) && chan.pc.Exchanging?
      requires chan.pc.call.discarded == totalDiscarded && silent == chan.pc.taken.source.Silent?
      modifies this`pending, this`chan
      ensures Valid() && Leads(s0, trace, chan) && chan == ExchangeStep(old(chan))
      ensures flags == chan.pc.flags
    {
      LeadsOn(s0, before, chan, Exchange);
      trace := before + [Exchange];
      chan := Step(chan, Exchange);
      flags := pending;
      pending := {};
      if totalDiscarded > 0 {
        flags := flags + {Discontinuity};
      }
      if silent {
        flags := flags + {Silence, Underrun};
      }
    }

    /** Advance the deadline by a period, or resync it, and stamp the frame. */
    method StampFixed(ghost s0: State, ghost before: seq<Event>) returns (after: int, ghost trace: seq<Event>)
      requires Valid() && Leads(s0, before, chan) && chan.pc.Stamping? && deadlineValid
      modifies this`nextDeadline, this`chan
      ensures Valid() && Leads(s0, trace, chan) && chan == StampStep(old(chan), clock)
      ensures after == clock
    {
      after := clock;
      LeadsOn(s0, before, chan, Stamp(after));
      trace := before + [Stamp(after)];
      chan := Step(chan, Stamp(after));
      nextDeadline := nextDeadline + cfg.period;
      if nextDeadline < after {
        nextDeadline := after + cfg.period;
      }
    }

    /** `memset` of the caller's buffer. */
    method Silent(dst: array<byte>)
      requires dst.Length >= cfg.frameBytes
      modifies dst
      ensures dst[..cfg.frameBytes] == Zeros(cfg.frameBytes)
    {
      for n := 0 to cfg.frameBytes
        invariant forall m | 0 <= m < n :: dst[m] == 0
      {
        dst[n] := 0;
      }
    }

    /** One more call has ended, and it is this one. */
    ghost predicate Recorded(s: State, call: Call)
      reads this
    {
      && chan.pc.Idle?
      && |chan.ended| == |s.ended| + 1 && chan.ended[..|s.ended|] == s.ended
      && SameCall(chan.ended[|s.ended|].call, call)
    }

    /** What a call leaves behind when it returns a frame. */
    ghost predicate Returned(s: State, dst: array<byte>, info: FrameInfo, call: Call)
      reads this, dst
    {
      && Recorded(s, call)
      && dst.Length >= cfg.frameBytes
      && |chan.out| == |s.out| + 1 && chan.out[..|s.out|] == s.out
      && var d := chan.out[|s.out|];
         && dst[..cfg.frameBytes] == d.taken.frame
         && d.info == call.info
         && call.begun <= d.beat.stamp <= clock && (cfg.fixedRate ==> d.beat.stamp == clock)
         && (call.info ==> info == FrameInfo(d.beat.stamp, d.flags, d.DroppedFrames()))
    }

    /** A call that returned no frame; it is refused only by a closed queue. */
    ghost predicate EndedWith(s: State, outcome: Outcome, call: Call)
      reads this
    {
      && Recorded(s, call) && chan.out == s.out
      && chan.ended[|s.ended|].outcome == outcome
      && (outcome.Refused? ==> chan.queue.closed)
    }

    /** The frame is due: take it off the ring, or synthesize silence. */
    method TakeDue(dst: array<byte>, gap: Gap, ghost s0: State, ghost before: seq<Event>)
      returns (result: int, discarded: nat, ghost trace: seq<Event>)
      requires Valid() && Leads(s0, before, chan) && cfg.fixedRate && Sized(gap.acts, cfg.frameBytes)
      requires chan.pc.Popping? && chan.pc.call.discarded == 0
      requires dst != queue.storage && dst.Length >= cfg.frameBytes
      modifies this`pending, this`clock, this`chan, queue, queue.storage, dst
      ensures Valid() && Leads(s0, trace, chan) && queue.storage == old(queue.storage)
      ensures chan.out == old(chan).out && clock == old(clock) + gap.elapsed
      ensures result < 0 ==> EndedWith(old(chan), Outcome.Refused, old(chan).pc.call)
      ensures result >= 0 ==>
                && chan.ended == old(chan).ended
                && chan.pc.Exchanging? && chan.pc.call == old(chan).pc.call.(discarded := discarded)
                && (result == 0 <==> chan.pc.taken.source.Silent?)
                && dst[..cfg.frameBytes] == chan.pc.taken.frame
    {
      trace := Interfere(gap, s0, before);
      result, discarded, trace := Take(dst, s0, trace);
      if result == 0 {
        Silent(dst);
      }
    }

    /** Flag the frame in hand, stamp it and hand it over. */
    method ReturnDue(
      dst: array<byte>, wantInfo: bool, silent: bool, discarded: nat, gap: Gap, gap': Gap,
      ghost s0: State, ghost before: seq<Event>)
      returns (info: FrameInfo, ghost trace: seq<Event>)
      requires Valid() && Leads(s0, before, chan) && deadlineValid
      requires Sized(gap.acts, cfg.frameBytes) && Sized(gap'.acts, cfg.frameBytes)
      requires chan.pc.Exchanging? && chan.pc.call.info == wantInfo && cfg.fixedRate && chan.pc.call.begun <= clock
      requires chan.pc.call.discarded == discarded && silent == chan.pc.taken.source.Silent?
      requires dst != queue.storage && dst.Length >= cfg.frameBytes && dst[..cfg.frameBytes] == chan.pc.taken.frame
      modifies this`pending, this`clock, this`nextDeadline, this`chan, queue, queue.storage
      ensures Valid() && Leads(s0, trace, chan) && queue.storage == old(queue.storage)
      ensures Returned(old(chan), dst, info, old(chan).pc.call)
      ensures clock == old(clock) + gap.elapsed + gap'.elapsed
    {
      trace := Interfere(gap, s0, before);
      var flags;
      flags, trace := TakeFlags(discarded, silent, s0, trace);
      trace := Interfere(gap', s0, trace);
      var after;
      after, trace := StampFixed(s0, trace);
      info := if wantInfo then FrameInfo(after, flags, discarded % TWO_32) else FrameInfo(0, {}, 0);
    }

    /** Top of the loop without fixed rate: what is left of the timeout is for the queue. */
    method LookAny(callDeadline: int, ghost s0: State, ghost before: seq<Event>)
      returns (wait: nat, ghost trace: seq<Event>)
      requires Valid() && Leads(s0, before, chan) && !cfg.fixedRate
      requires chan.pc.Looking? && chan.pc.call.Deadline() == callDeadline
      modifies this`chan
      ensures Valid() && Leads(s0, trace, chan) && chan == LookStep(old(chan), clock)
      ensures chan.pc == Popping(old(chan).pc.call, clock + wait * MICRO)
      ensures callDeadline - MICRO < clock + wait * MICRO && (clock + wait * MICRO <= callDeadline || wait == 0)
    {
      var left := TruncMicros(callDeadline - clock);
      wait := if left < 0 then 0 else left;
      QueueWaitBounded(clock, callDeadline);
      LeadsOn(s0, before, chan, Look(clock));
      trace := before + [Look(clock)];
      chan := Step(chan, Look(clock));
    }

    /** Without fixed rate: wait for a frame on the ring and take it. */
    method TakeAny(dst: array<byte>, callDeadline: int, gap: Gap, gap': Gap, ghost s0: State, ghost before: seq<Event>)
      returns (result: int, discarded: nat, ghost trace: seq<Event>)
      requires Valid() && Leads(s0, before, chan) && !cfg.fixedRate
      requires Sized(gap.acts, cfg.frameBytes) && Sized(gap'.acts, cfg.frameBytes)
      requires chan.pc.Looking? && chan.pc.call.Deadline() == callDeadline
      requires dst != queue.storage && dst.Length >= cfg.frameBytes
      modifies this`pending, this`clock, this`chan, queue, queue.storage, dst
      ensures Valid() && Leads(s0, trace, chan) && queue.storage == old(queue.storage)
      ensures chan.out == old(chan).out && clock == old(clock) + gap.elapsed + gap'.elapsed
      ensures result < 0 ==> EndedWith(old(chan), Outcome.Refused, old(chan).pc.call)
      ensures result >= 0 ==> chan.ended == old(chan).ended && !chan.pc.Idle?
                              && chan.pc.call == old(chan).pc.call.(discarded := old(chan).pc.call.discarded + discarded)
      ensures result == 0 ==> chan.pc.Retrying?
      ensures result > 0 ==> chan.pc.Finishing? && chan.pc.taken.source.Captured?
                             && dst[..cfg.frameBytes] == chan.pc.taken.frame
    {
      trace := Interfere(gap, s0, before);
      var wait;
      wait, trace := LookAny(callDeadline, s0, trace);
      trace := Interfere(gap', s0, trace);
      result, discarded, trace := Take(dst, s0, trace);
    }

    /** Without fixed rate: stamp first, then flags, and only for a caller that asked. */
    method ReturnAny(
      dst: array<byte>, wantInfo: bool, total: nat, gap: Gap, gap': Gap, ghost s0: State, ghost before: seq<Event>)
      returns (info: FrameInfo, ghost trace: seq<Event>)
      requires Valid() && Leads(s0, before, chan)
      requires Sized(gap.acts, cfg.frameBytes) && Sized(gap'.acts, cfg.frameBytes)
      requires chan.pc.Finishing? && chan.pc.call.info == wantInfo && chan.pc.call.discarded == total
      requires !cfg.fixedRate && chan.pc.call.begun <= clock
      requires chan.pc.taken.source.Captured?
      requires dst != queue.storage && dst.Length >= cfg.frameBytes && dst[..cfg.frameBytes] == chan.pc.taken.frame
      modifies this`pending, this`clock, this`chan, queue, queue.storage
      ensures Valid() && Leads(s0, trace, chan) && queue.storage == old(queue.storage)
      ensures Returned(old(chan), dst, info, old(chan).pc.call)
      ensures wantInfo ==> info.timestamp == old(clock) + gap.elapsed
    {
      trace := Interfere(gap, s0, before);
      var stamp := clock;
      LeadsOn(s0, trace, chan, Stamp(stamp));
      trace := trace + [Stamp(stamp)];
      chan := Step(chan, Stamp(stamp));
      info := FrameInfo(0, {}, 0);
      if wantInfo {
        trace := Interfere(gap', s0, trace);
        LeadsOn(s0, trace, chan, Exchange);
        trace := trace + [Exchange];
        chan := Step(chan, Exchange);
        info := FrameInfo(stamp, pending + (if total > 0 then {Discontinuity} else {}), total % TWO_32);
        pending := {};
      }
    }

    /** The reader is at the top of its loop, in a call that has returned nothing yet. */
    ghost predicate InLoop(s: State, call: Call, total: nat)
      reads this
    {
      && chan.pc.Looking?
      && SameCall(chan.pc.call, call) && chan.pc.call.discarded == total
      && call.begun <= clock
      && chan.out == s.out && chan.ended == s.ended
    }

    /** What a status says of the call. `StillWaiting` means that it is not over. */
    ghost predicate Says(status: Status, s: State, dst: array<byte>, info: FrameInfo, call: Call, total: nat)
      reads this, dst
    {
      match status
      case One => Returned(s, dst, info, call)
      case Zero => EndedWith(s, TimedOut, call)
      case ErrState => EndedWith(s, Outcome.Refused, call)
      case ErrInval => false
      case StillWaiting => InLoop(s, call, total)
    }

    /** One turn of the loop without fixed rate. There is another only before the deadline. */
    method TurnAny(
      dst: array<byte>, callDeadline: int, wantInfo: bool, total: nat, gaps: seq<Gap>,
      ghost call: Call, ghost s0: State, ghost before: seq<Event>)
      returns (status: Status, info: FrameInfo, total': nat, ghost trace: seq<Event>)
      requires Valid() && Leads(s0, before, chan) && !cfg.fixedRate
      requires InLoop(s0, call, total) && call.Deadline() == callDeadline && call.info == wantInfo
      requires |gaps| == 4 && AllSized(gaps, cfg.frameBytes)
      requires dst != queue.storage && dst.Length >= cfg.frameBytes
      modifies this`pending, this`clock, this`chan, queue, queue.storage, dst
      ensures Valid() && Leads(s0, trace, chan) && queue.storage == old(queue.storage)
      ensures Says(status, s0, dst, info, call, total')
      ensures status.StillWaiting? ==> clock < callDeadline
      ensures status.Zero? ==> clock >= callDeadline
    {
      info, total' := FrameInfo(0, {}, 0), total;
      var result, discarded;
      result, discarded, trace := TakeAny(dst, callDeadline, gaps[0], gaps[1], s0, before);
      if result < 0 {
        status := ErrState;
        return;
      }
      total' := total + discarded;
      if result == 0 {
        trace := Interfere(gaps[2], s0, trace);
        var now := clock;
        LeadsOn(s0, trace, chan, Recheck(now));
        trace := trace + [Recheck(now)];
        chan := Step(chan, Recheck(now));
        status := if now >= callDeadline then Zero else StillWaiting;
        return;
      }
      info, trace := ReturnAny(dst, wantInfo, total', gaps[2], gaps[3], s0, trace);
      status := One;
    }

    /** One turn of the loop at fixed rate. */
    method TurnFixed(
      dst: array<byte>, callDeadline: int, wantInfo: bool, gaps: seq<Gap>,
      ghost call: Call, ghost s0: State, ghost before: seq<Event>)
      returns (status: Status, info: FrameInfo, ghost trace: seq<Event>)
      requires Valid() && Leads(s0, before, chan) && cfg.fixedRate
      requires InLoop(s0, call, 0) && call.Deadline() == callDeadline && call.info == wantInfo
      requires |gaps| == 4 && AllSized(gaps, cfg.frameBytes)
      requires dst != queue.storage && dst.Length >= cfg.frameBytes
      modifies this`pending, this`clock, this`nextDeadline, this`deadlineValid, this`chan, queue, queue.storage, dst
      ensures Valid() && Leads(s0, trace, chan) && queue.storage == old(queue.storage)
      ensures Says(status, s0, dst, info, call, 0) && deadlineValid
      ensures status.Zero? ==> clock + MICRO > callDeadline
    {
      info := FrameInfo(0, {}, 0);
      trace := Interfere(gaps[0], s0, before);
      var verdict;
      verdict, trace := LookFixed(callDeadline, s0, trace);
      match verdict
      case GiveUp =>
        GiveUpIsLate(chan.pacer, clock, callDeadline);
        status := Zero;
      case Sleep(_) =>
        trace := Nap(gaps[1], s0, trace);
        status := StillWaiting;
      case Due =>
        status, info, trace := FinishDue(dst, wantInfo, gaps, call, s0, trace);
    }

    /** Sleep, however long it takes, and wake. */
    method Nap(gap: Gap, ghost s0: State, ghost before: seq<Event>) returns (ghost trace: seq<Event>)
      requires Valid() && Leads(s0, before, chan) && chan.pc.Sleeping? && Sized(gap.acts, cfg.frameBytes)
      modifies this`pending, this`clock, this`chan, queue, queue.storage
      ensures Valid() && Leads(s0, trace, chan) && queue.storage == old(queue.storage)
      ensures clock == old(clock) + gap.elapsed && chan.out == old(chan).out && chan.ended == old(chan).ended
      ensures chan.pc.Looking? && SameCall(chan.pc.call, old(chan).pc.call)
      ensures chan.pc.call.discarded == old(chan).pc.call.discarded
    {
      trace := Interfere(gap, s0, before);
      LeadsOn(s0, trace, chan, Wake(clock));
      trace := trace + [Wake(clock)];
      chan := Step(chan, Wake(clock));
    }

    /** The frame is due: take it and return it. */
    method FinishDue(
      dst: array<byte>, wantInfo: bool, gaps: seq<Gap>, ghost call: Call, ghost s0: State, ghost before: seq<Event>)
      returns (status: Status, info: FrameInfo, ghost trace: seq<Event>)
      requires Valid() && Leads(s0, before, chan) && cfg.fixedRate && deadlineValid
      requires chan.pc.Popping? && SameCall(chan.pc.call, call) && chan.pc.call.discarded == 0
      requires call.begun <= clock && call.info == wantInfo && chan.out == s0.out && chan.ended == s0.ended
      requires |gaps| == 4 && AllSized(gaps, cfg.frameBytes)
      requires dst != queue.storage && dst.Length >= cfg.frameBytes
      modifies this`pending, this`clock, this`nextDeadline, this`chan, queue, queue.storage, dst
      ensures Valid() && Leads(s0, trace, chan) && queue.storage == old(queue.storage)
      ensures status.One? || status.ErrState?
      ensures Says(status, s0, dst, info, call, 0)
    {
      info := FrameInfo(0, {}, 0);
      var result, discarded;
      result, discarded, trace := TakeDue(dst, gaps[1], s0, before);
      if result < 0 {
        status := ErrState;
        return;
      }
      info, trace := ReturnDue(dst, wantInfo, result == 0, discarded, gaps[2], gaps[3], s0, trace);
      status := One;
    }

    /** Enter the call and fix its deadline. */
    method Begin(timeout: nat, wantInfo: bool, gap: Gap, ghost s0: State)
      returns (callDeadline: int, ghost trace: seq<Event>)
      requires Valid() && chan.pc.Idle? && s0 == chan && Sized(gap.acts, cfg.frameBytes)
      modifies this`pending, this`clock, this`chan, queue, queue.storage
      ensures Valid() && Leads(s0, trace, chan) && queue.storage == old(queue.storage)
      ensures clock == old(clock) + gap.elapsed && callDeadline == clock + timeout
      ensures InLoop(s0, NewCall(clock, timeout, wantInfo), 0)
    {
      trace := Interfere(gap, s0, []);
      callDeadline := clock + timeout;
      LeadsOn(s0, trace, chan, Enter(clock, timeout, wantInfo));
      trace := trace + [Enter(clock, timeout, wantInfo)];
      chan := Step(chan, Enter(clock, timeout, wantInfo));
    }

    /** The `for (;;)` of the call. */
    method Turns(
      dst: array<byte>, callDeadline: int, wantInfo: bool, world: seq<Gap>,
      ghost call: Call, ghost s0: State, ghost before: seq<Event>)
      returns (status: Status, info: FrameInfo, ghost total: nat, ghost trace: seq<Event>)
      requires Valid() && Leads(s0, before, chan)
      requires InLoop(s0, call, 0) && call.Deadline() == callDeadline && call.info == wantInfo
      requires AllSized(world, cfg.frameBytes)
      requires dst != queue.storage && dst.Length >= cfg.frameBytes
      modifies this`pending, this`clock, this`nextDeadline, this`deadlineValid, this`chan, queue, queue.storage, dst
      ensures Valid() && Leads(s0, trace, chan) && queue.storage == old(queue.storage)
      ensures Says(status, s0, dst, info, call, total)
      ensures old(deadlineValid) || (cfg.fixedRate && !status.StillWaiting?) ==> deadlineValid
      ensures !cfg.fixedRate && status.StillWaiting? && |world| >= 4 ==> clock < callDeadline
    {
      status, info, trace := StillWaiting, FrameInfo(0, {}, 0), before;
      var i, sum := 0, 0;
      while i + 4 <= |world|
        invariant 0 <= i <= |world|
        invariant Valid() && Leads(s0, trace, chan)
        invariant InLoop(s0, call, sum) && (cfg.fixedRate ==> sum == 0)
        invariant queue.storage == old(queue.storage) && status.StillWaiting?
        invariant old(deadlineValid) ==> deadlineValid
        invariant !cfg.fixedRate && i > 0 ==> clock < callDeadline
        decreases |world| - i
      {
        if cfg.fixedRate {
          status, info, trace := TurnFixed(dst, callDeadline, wantInfo, world[i..i + 4], call, s0, trace);
        } else {
          status, info, sum, trace := TurnAny(dst, callDeadline, wantInfo, sum, world[i..i + 4], call, s0, trace);
        }
        if !status.StillWaiting? {
          total := sum;
          return;
        }
        i := i + 4;
      }
      total := sum;
    }

    /** A call that got past the door. */
    method Serve(dst: array<byte>, wantInfo: bool, timeoutMs: int, world: seq<Gap>)
      returns (status: Status, info: FrameInfo, ghost total: nat, ghost trace: seq<Event>)
      requires Valid() && chan.pc.Idle? && AllSized(world, cfg.frameBytes) && world != []
      requires dst != queue.storage && dst.Length >= cfg.frameBytes
      modifies this`pending, this`clock, this`nextDeadline, this`deadlineValid, this`chan
      modifies queue, queue.storage, dst
      ensures Valid() && queue.storage == old(queue.storage) && Leads(old(chan), trace, chan)
      ensures Says(status, old(chan), dst, info, Asked(world, old(clock), timeoutMs, wantInfo), total)
      ensures old(deadlineValid) || (cfg.fixedRate && !status.StillWaiting?) ==> deadlineValid
    {
      ghost var s0 := chan;
      var callDeadline;
      callDeadline, trace := Begin((if timeoutMs < 0 then 0 else timeoutMs) * MILLI, wantInfo, world[0], s0);
      ghost var call := NewCall(clock, TimeoutNanos(timeoutMs), wantInfo);
      status, info, total, trace := Turns(dst, callDeadline, wantInfo, world[1..], call, s0, trace);
    }

    /** The whole call. It is a run of the reading machine, of one call that begins at the
        first look at the clock and has the timeout asked for; when it returns 1 the buffer
        and the information are those of the frame the machine handed over; 0 is a
        timeout; and a call that is refused at the door changes nothing. */
    method Read(dst: array?<byte>, dstCapacity: nat, wantInfo: bool, timeoutMs: int, world: seq<Gap>)
      returns (status: Status, info: FrameInfo, ghost trace: seq<Event>)
      requires Valid() && chan.pc.Idle? && AllSized(world, cfg.frameBytes)
      requires dst != null ==> dst != queue.storage && (dstCapacity >= frameSamples ==> dst.Length >= cfg.frameBytes)
      modifies this`pending, this`clock, this`nextDeadline, this`deadlineValid, this`chan
      modifies queue, queue.storage, if dst == null then {} else {dst}
      ensures Valid() && queue.storage == old(queue.storage) && running == old(running)
      ensures Leads(old(chan), trace, chan)
      ensures status.ErrInval? <==> dst == null || (old(running) && dstCapacity < frameSamples)
      ensures status.ErrInval? || !old(running) ==> trace == []
      ensures dst != null && !old(running) ==> status.ErrState?
      ensures status.ErrState? && running ==>
                world != [] && EndedWith(old(chan), Outcome.Refused, Asked(world, old(clock), timeoutMs, wantInfo))
      ensures status.Zero? ==> world != [] && EndedWith(old(chan), TimedOut, Asked(world, old(clock), timeoutMs, wantInfo))
      ensures status.One? ==>
                world != [] && dst != null
                && Returned(old(chan), dst, info, Asked(world, old(clock), timeoutMs, wantInfo))
      ensures status.StillWaiting? ==> chan.out == old(chan).out && chan.ended == old(chan).ended
      ensures status.StillWaiting? && world != [] ==>
                && chan.pc.Looking?
                && SameCall(chan.pc.call, Asked(world, old(clock), timeoutMs, wantInfo))
      ensures (status.ErrState? && running) || status.Zero? || status.One? ==>
                var call := chan.ended[|old(chan).ended|].call;
                && call.begun == old(clock) + world[0].elapsed
                && call.timeout == (if timeoutMs < 0 then 0 else timeoutMs) * 1_000_000
      ensures status.StillWaiting? && world != [] ==>
                chan.pc.call.Deadline() ==
                old(clock) + world[0].elapsed + (if timeoutMs < 0 then 0 else timeoutMs) * 1_000_000
      ensures old(deadlineValid) || (cfg.fixedRate && (status.Zero? || status.One?)) ==> deadlineValid
    {
      info, trace := FrameInfo(0, {}, 0), [];
      if dst == null {
        return ErrInval, info, trace;
      }
      if !running {
        return ErrState, info, trace;
      }
      if dstCapacity < frameSamples {
        return ErrInval, info, trace;
      }
      if world == [] {
        return StillWaiting, info, trace;
      }
      ghost var total;
      status, info, total, trace := Serve(dst, wantInfo, timeoutMs, world);
    }
  }

  lemma {:induction false} OverwritePrefix(bytes: seq<byte>, frame: Frame)
    requires |frame| <= |bytes|
    ensures Overwrite(bytes, 0, frame)[..|frame|] == frame
  {
    forall m | 0 <= m < |frame|
      ensures Overwrite(bytes, 0, frame)[m] == frame[m]
    {
      OverwriteAt(bytes, 0, frame, m);
    }
  }
}
